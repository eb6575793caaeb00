// Properties of host transactions over every run: any sequence of invocations of
// Run, Recover and Finalize, each with its own environment and its own crash.
module HostHistory {
  import opened Options
  import opened HostWorld
  import opened HostTransaction

  datatype Invocation =
    | StartRun(tx: TxId, steps: seq<Step>, reply: Environment)
    | StartRecover(handlers: set<string>, reply: Environment)
    | StartFinalize(handlers: set<string>, reply: Environment)

  const FRESH := World(None, "", [], map[])

  // The worlds between the invocations of one host.
  ghost predicate History(worlds: seq<World>) {
    && worlds != []
    && worlds[0] == FRESH
    && (forall k :: 0 <= k < |worlds| ==> Durable(worlds[k]))
    && (forall k :: 0 < k < |worlds| ==> Keeps(worlds[k - 1], worlds[k]))
  }

  // Whatever the invocations are, wherever each of them crashes, and whichever
  // writes fail, the worlds they leave form a history.
  method Drive(script: seq<Invocation>) returns (ghost worlds: seq<World>)
    ensures History(worlds) && |worlds| == |script| + 1
  {
    var w := FRESH;
    worlds := [w];
    for k := 0 to |script|
      invariant |worlds| == k + 1 && worlds[k] == w
      invariant History(worlds)
    {
      var host := new Host(script[k].reply, _ => {}, w);
      var coordinator := new Coordinator(host);
      match script[k] {
        case StartRun(tx, steps, _) =>
          if tx != host.tx && tx !in host.past {
            var ok, calls := coordinator.Run(tx, steps);
          }
        case StartRecover(handlers, _) =>
          var ok := coordinator.Recover(handlers);
        case StartFinalize(handlers, _) =>
          var ok := coordinator.Finalize(handlers);
      }
      w := host.State();
      worlds := worlds + [w];
    }
  }

  // Once a transaction has left the disk or has committed, its fate never changes
  // again, and an interrupted one is never committed afterwards.
  lemma {:induction false} FateIsFinal(worlds: seq<World>, i: nat, j: nat, tx: TxId)
    requires History(worlds) && i <= j < |worlds| && Started(tx, worlds[i])
    ensures Started(tx, worlds[j])
    ensures |EffectsOf(tx, worlds[j])| == |EffectsOf(tx, worlds[i])|
    ensures FateOf(tx, worlds[i]) == Kept ==> FateOf(tx, worlds[j]) == Kept && All(EffectsOf(tx, worlds[j]), Present)
    ensures FateOf(tx, worlds[i]) == Undone ==> FateOf(tx, worlds[j]) == Undone && All(EffectsOf(tx, worlds[j]), Absent)
    ensures FateOf(tx, worlds[i]) == Open ==> FateOf(tx, worlds[j]) != Kept
    decreases j
  {
    if i < j {
      FateIsFinal(worlds, i, j - 1, tx);
      assert Keeps(worlds[j - 1], worlds[j]);
    }
  }

  // Without a journal on disk the host holds all or nothing of every transaction
  // ever started; with one, of every transaction but the journaled one.
  lemma AllOrNothing(worlds: seq<World>, k: nat, tx: TxId)
    requires History(worlds) && k < |worlds| && Started(tx, worlds[k])
    requires worlds[k].disk.Some? ==> worlds[k].disk.value.id != tx
    ensures All(EffectsOf(tx, worlds[k]), Present) <==> FateOf(tx, worlds[k]) == Kept
    ensures All(EffectsOf(tx, worlds[k]), Absent) <==> FateOf(tx, worlds[k]) == Undone
    ensures FateOf(tx, worlds[k]) != Open
  {
    assert Durable(worlds[k]);
    var effects := EffectsOf(tx, worlds[k]);
    assert effects[0].presence == Present ==> !All(effects, Absent);
  }

  // What the order of a rollback's undo calls means: newest first in each of the
  // two passes, an undo is repeated only if it failed, and at most once.
  lemma UndoOrderMeans(steps: seq<StepRecord>, calls: seq<UndoCall>)
    requires UndoOrder(LiveSteps(steps, |steps|), calls)
    ensures forall i, j :: 0 <= i < j < |calls| && calls[i].index == calls[j].index ==> !calls[i].undone
    ensures forall i, j, k :: 0 <= i < j < k < |calls| && calls[i].index == calls[j].index ==> calls[k].index != calls[i].index
    ensures forall i, j :: 0 <= i < j < |calls| && j < |LiveSteps(steps, |steps|)| ==> calls[i].index > calls[j].index
    ensures forall i :: 0 <= i < |calls| && i < |LiveSteps(steps, |steps|)| ==> calls[i].index == LiveSteps(steps, |steps|)[i]
  {
    var order := LiveSteps(steps, |steps|);
    LiveStepsAreLive(steps, |steps|);
    TwoPasses(order, calls);
    assert forall i, j :: 0 <= i < j < |calls| && calls[i].index == calls[j].index ==> i < |order| <= j;
    forall i, j | 0 <= i < |order| <= j < |calls| && calls[i].index == calls[j].index
      ensures !calls[i].undone
    {
      var m :| 0 <= m < |order| && calls[m] == UndoCall(calls[j].index, false);
      assert order[m] == order[i];
      assert m == i;
    }
  }

  // The first pass follows the order, and the second goes down the failures of the first.
  lemma TwoPasses(order: seq<nat>, calls: seq<UndoCall>)
    requires UndoOrder(order, calls)
    requires forall i, j :: 0 <= i < j < |order| ==> order[i] > order[j]
    ensures forall i :: 0 <= i < |calls| && i < |order| ==> calls[i].index == order[i]
    ensures forall i, j :: |order| <= i < j < |calls| ==> calls[i].index > calls[j].index
    ensures forall j :: |order| <= j < |calls| ==>
              exists m :: 0 <= m < |order| && calls[m] == UndoCall(calls[j].index, false)
  {
    var first := FirstPass(order, calls);
    var failed := Failed(first);
    IndicesAt(calls);
    forall i | 0 <= i < |calls| ensures calls[i].index == (order + failed)[i] {
      assert Indices(calls)[i] == (order + failed)[i];
    }
    FailedMeans(first);
    forall j | |order| <= j < |calls|
      ensures calls[j].index == failed[j - |order|]
      ensures exists m :: 0 <= m < |order| && calls[m] == UndoCall(calls[j].index, false)
    {
      assert (order + failed)[j] == failed[j - |order|];
      var m :| 0 <= m < |first| && first[m] == UndoCall(failed[j - |order|], false);
      assert calls[m] == first[m];
    }
  }

  lemma {:induction false} IndicesAt(calls: seq<UndoCall>)
    ensures forall k :: 0 <= k < |calls| ==> Indices(calls)[k] == calls[k].index
  {
    if calls != [] {
      IndicesAt(calls[..|calls| - 1]);
    }
  }

  // The failed calls are calls, in the same order.
  lemma {:induction false} FailedMeans(calls: seq<UndoCall>)
    requires forall i, j :: 0 <= i < j < |calls| ==> calls[i].index > calls[j].index
    ensures forall k :: 0 <= k < |Failed(calls)| ==> UndoCall(Failed(calls)[k], false) in calls
    ensures forall j, k :: 0 <= j < k < |Failed(calls)| ==> Failed(calls)[j] > Failed(calls)[k]
  {
    if calls != [] {
      var rest := calls[..|calls| - 1];
      FailedMeans(rest);
      var last := calls[|calls| - 1];
      forall k | 0 <= k < |Failed(calls)|
        ensures UndoCall(Failed(calls)[k], false) in calls
      {
        if k < |Failed(rest)| {
          assert UndoCall(Failed(rest)[k], false) in rest;
        } else {
          assert calls[|calls| - 1] == UndoCall(last.index, false);
        }
      }
    }
  }
}
