// The journaled coordinator of deployment/transaction/transaction.go.
//
// Every method is proved for every environment, so each contract covers a crash
// at every action: a dead process keeps "running" here but changes nothing, and
// the world at the end of the method is the world at the crash.
module HostTransaction {
  import opened Options
  import opened HostWorld

  const MAX_STEPS := 1024

  // Which of its three functions a step comes with; what they do is up to the environment.
  datatype Step = Step(id: string, kind: string, applies: bool, undoes: bool, undoesRunning: bool)

  predicate WellFormed(step: Step) {
    step.id != "" && step.kind != "" && step.applies && step.undoes && step.undoesRunning
  }

  predicate ValidSteps(steps: seq<Step>) {
    && 0 < |steps| <= MAX_STEPS
    && (forall i :: 0 <= i < |steps| ==> WellFormed(steps[i]))
    && (forall i, j :: 0 <= i < j < |steps| ==> steps[i].id != steps[j].id)
  }

  function PendingRecords(steps: seq<Step>): (r: seq<StepRecord>)
  {
    seq(|steps|, i requires 0 <= i < |steps| => StepRecord(steps[i].id, steps[i].kind, Pending, ""))
  }

  // A journal records the identity and the kind of every step in its place.
  predicate Records(steps: seq<Step>, records: seq<StepRecord>) {
    |records| == |steps| && forall i :: 0 <= i < |steps| ==> records[i].id == steps[i].id && records[i].kind == steps[i].kind
  }

  // The fate of a transaction.  `Open` means its uncommitted journal is on disk.
  datatype Fate = Open | Kept | Undone

  ghost predicate Started(tx: TxId, w: World) {
    (tx in w.past && w.past[tx] != []) || (tx == w.tx && w.effects != [])
  }

  ghost function EffectsOf(tx: TxId, w: World): seq<Effect>
    requires Started(tx, w)
  {
    if tx in w.past then w.past[tx] else w.effects
  }

  ghost function FateOf(tx: TxId, w: World): Fate
    requires Started(tx, w)
  {
    if w.disk.Some? && w.disk.value.id == tx then
      if w.disk.value.phase.Committed? then Kept else Open
    else if All(EffectsOf(tx, w), Present) then Kept
    else Undone
  }

  // What one invocation, finished or crashed, may do to the fates of the
  // transactions that were already started.
  ghost predicate Keeps(w: World, w': World) {
    forall tx :: Started(tx, w) ==>
      && Started(tx, w')
      && |EffectsOf(tx, w')| == |EffectsOf(tx, w)|
      && match FateOf(tx, w)
         case Kept => FateOf(tx, w') == Kept
         case Undone => FateOf(tx, w') == Undone
         case Open => FateOf(tx, w') != Kept
  }

  // The running and complete steps below `n`, the newest first.
  function LiveSteps(steps: seq<StepRecord>, n: nat): seq<nat>
    requires n <= |steps|
  {
    if n == 0 then []
    else if Live(steps[n - 1]) then [n - 1] + LiveSteps(steps, n - 1)
    else LiveSteps(steps, n - 1)
  }

  lemma {:induction false} LiveStepsAreLive(steps: seq<StepRecord>, n: nat)
    requires n <= |steps|
    ensures forall k :: 0 <= k < |LiveSteps(steps, n)| ==> LiveSteps(steps, n)[k] < n && Live(steps[LiveSteps(steps, n)[k]])
    ensures forall i: nat :: i < n && Live(steps[i]) ==> i in LiveSteps(steps, n)
    ensures forall j, k :: 0 <= j < k < |LiveSteps(steps, n)| ==> LiveSteps(steps, n)[j] > LiveSteps(steps, n)[k]
  {
    if n > 0 {
      LiveStepsAreLive(steps, n - 1);
    }
  }

  // Undoing one live step takes exactly its index out of the list.
  lemma {:induction false} LiveStepsWithout(steps: seq<StepRecord>, n: nat, i: nat, record: StepRecord, a: seq<nat>, b: seq<nat>)
    requires i < |steps| && n <= |steps| && !Live(record)
    requires i < n && LiveSteps(steps, n) == a + [i] + b
    ensures LiveSteps(steps[i := record], n) == a + b
  {
    var rest := LiveSteps(steps, n - 1);
    if i == n - 1 {
      LiveStepsAbove(steps, n - 1, i, record);
      LiveStepsAreLive(steps, n);
      assert (a + [i] + b)[|a|] == i;
      assert LiveSteps(steps, n)[0] == n - 1;
      assert |a| == 0;
      assert rest == (a + [i] + b)[1..] == b;
    } else if Live(steps[n - 1]) {
      assert (a + [i] + b)[0] == n - 1;
      assert a != [] && a[0] == n - 1;
      assert rest == (a + [i] + b)[1..] == a[1..] + [i] + b;
      LiveStepsWithout(steps, n - 1, i, record, a[1..], b);
      assert a == [n - 1] + a[1..];
      assert [n - 1] + (a[1..] + b) == a + b;
    } else {
      LiveStepsWithout(steps, n - 1, i, record, a, b);
    }
  }

  lemma {:induction false} LiveStepsAbove(steps: seq<StepRecord>, n: nat, i: nat, record: StepRecord)
    requires n <= i < |steps|
    ensures LiveSteps(steps[i := record], n) == LiveSteps(steps, n)
  {
    if n > 0 {
      LiveStepsAbove(steps, n - 1, i, record);
    }
  }

  function Indices(calls: seq<UndoCall>): (r: seq<nat>)
    ensures |r| == |calls|
  {
    if calls == [] then [] else Indices(calls[..|calls| - 1]) + [calls[|calls| - 1].index]
  }

  function Failed(calls: seq<UndoCall>): seq<nat> {
    if calls == [] then []
    else
      var last := calls[|calls| - 1];
      Failed(calls[..|calls| - 1]) + if last.undone then [] else [last.index]
  }

  function FirstPass(pending: seq<nat>, calls: seq<UndoCall>): seq<UndoCall> {
    if |calls| <= |pending| then calls else calls[..|pending|]
  }

  // The order of undo calls a rollback makes: the pending steps newest first,
  // then once more, in the same order, those whose undo failed.  A crash or a
  // success cuts the list short.
  predicate UndoOrder(pending: seq<nat>, calls: seq<UndoCall>) {
    Indices(calls) <= pending + Failed(FirstPass(pending, calls))
  }

  // One more attempt keeps the order.
  lemma UndoOrderStep(order: seq<nat>, calls: seq<UndoCall>, more: seq<UndoCall>, attempt: nat)
    requires UndoOrder(order, calls)
    requires attempt == 0 ==> calls == [] && Indices(more) <= order
    requires attempt != 0 && more != [] ==> |calls| == |order| && Indices(more) <= Failed(calls)
    ensures UndoOrder(order, calls + more)
  {
    if attempt == 0 {
      assert calls + more == more;
    } else if more == [] {
      assert calls + more == calls;
    } else {
      IndicesConcat(calls, more);
      assert FirstPass(order, calls + more) == calls == FirstPass(order, calls);
      assert Indices(calls) == order;
    }
  }

  // Where a pass over `pending` stands before its k-th undo: the live steps are
  // those that failed and those not tried yet, and the calls follow the order.
  ghost predicate PassState(steps: seq<StepRecord>, pending: seq<nat>, k: nat, failed: seq<nat>, calls: seq<UndoCall>, alive: bool) {
    && k <= |pending|
    && LiveSteps(steps, |steps|) == failed + pending[k..]
    && Indices(calls) <= pending[..k]
    && (alive ==> Indices(calls) == pending[..k] && failed == Failed(calls))
  }

  function MarkUndone(record: StepRecord): StepRecord {
    record.(state := RolledBack)
  }

  lemma PassBounds(steps: seq<StepRecord>, pending: seq<nat>, k: nat, failed: seq<nat>, calls: seq<UndoCall>, alive: bool)
    ensures pending == LiveSteps(steps, |steps|) ==> PassState(steps, pending, 0, [], [], alive)
    ensures PassState(steps, pending, k, failed, calls, alive) && k == |pending| ==>
              && failed == LiveSteps(steps, |steps|)
              && Indices(calls) <= pending
              && (alive ==> Indices(calls) == pending && failed == Failed(calls))
  {
    assert [] + pending[0..] == pending;
    assert failed + pending[|pending|..] == failed;
    assert pending[..|pending|] == pending;
  }

  lemma PassTarget(steps: seq<StepRecord>, pending: seq<nat>, k: nat, failed: seq<nat>, calls: seq<UndoCall>, alive: bool)
    requires PassState(steps, pending, k, failed, calls, alive) && k < |pending|
    ensures pending[k] < |steps| && Live(steps[pending[k]])
  {
    LiveStepsAreLive(steps, |steps|);
    assert LiveSteps(steps, |steps|)[|failed|] == pending[k];
  }

  lemma PassNext(steps: seq<StepRecord>, pending: seq<nat>, k: nat, failed: seq<nat>, calls: seq<UndoCall>, alive: bool,
                 undone: bool, call: seq<UndoCall>, alive': bool)
    requires PassState(steps, pending, k, failed, calls, alive) && k < |pending|
    requires pending[k] < |steps| && Live(steps[pending[k]])
    requires call == if alive then [UndoCall(pending[k], undone)] else []
    requires (undone ==> alive) && (alive' ==> alive)
    ensures undone ==> PassState(steps[pending[k] := MarkUndone(steps[pending[k]])], pending, k + 1, failed, calls + call, alive')
    ensures !undone ==> PassState(steps, pending, k + 1, failed + [pending[k]], calls + call, alive')
  {
    assert pending[k..] == [pending[k]] + pending[k + 1..];
    if undone {
      assert failed + pending[k..] == failed + [pending[k]] + pending[k + 1..];
      LiveStepsWithout(steps, |steps|, pending[k], MarkUndone(steps[pending[k]]), failed, pending[k + 1..]);
    } else {
      assert failed + pending[k..] == (failed + [pending[k]]) + pending[k + 1..];
    }
    if alive {
      assert (calls + call)[..|calls|] == calls;
      assert pending[..k + 1] == pending[..k] + [pending[k]];
    } else {
      assert calls + call == calls;
    }
  }

  lemma {:induction false} IndicesConcat(a: seq<UndoCall>, b: seq<UndoCall>)
    ensures Indices(a + b) == Indices(a) + Indices(b)
  {
    if b == [] {
      assert a + b == a;
    } else {
      IndicesConcat(a, b[..|b| - 1]);
      assert (a + b)[..|a + b| - 1] == a + b[..|b| - 1];
    }
  }

  // The journal keeps the identity and the kind of every step, by which its handlers are found.
  predicate SameNames(a: seq<StepRecord>, b: seq<StepRecord>) {
    |a| == |b| && forall i :: 0 <= i < |a| ==> a[i].id == b[i].id && a[i].kind == b[i].kind
  }

  // The memory journal can be rolled back: it and the disk journal both hold of
  // the host, and every step that memory still has to undo is live on disk.
  ghost predicate Undoable(j: Journal, disk: Option<Journal>, effects: seq<Effect>) {
    && !j.phase.Committed?
    && Recoverable(j.steps, effects)
    && disk.Some?
    && !disk.value.phase.Committed?
    && disk.value.id == j.id
    && SameNames(j.steps, disk.value.steps)
    && Recoverable(disk.value.steps, effects)
    && forall i :: 0 <= i < |j.steps| && Live(j.steps[i]) ==> Live(disk.value.steps[i])
  }

  // A run has completed the first `done` steps and not started the others.
  ghost predicate InProgress(j: Journal, effects: seq<Effect>, done: nat) {
    && j.phase.Applying?
    && Recoverable(j.steps, effects)
    && (forall i :: 0 <= i < done && i < |j.steps| ==> j.steps[i].state.Complete? && effects[i].presence == Present)
    && (forall i :: done <= i < |j.steps| ==> j.steps[i].state.Pending?)
  }

  // What holds between two undo calls of a rollback that began in `w0`.
  ghost predicate Passing(w0: World, alive0: bool, journal: Journal, w: World, alive: bool) {
    && Sound(w.disk, journal.id, w.effects)
    && |w.effects| == |w0.effects|
    && (alive ==> alive0 && Undoable(journal, w.disk, w.effects))
    && (alive0 ==> w.disk.Some? && !w.disk.value.phase.Committed? && SameNames(journal.steps, w.disk.value.steps))
    && (!alive0 ==> w == w0)
  }

  lemma NothingChanges(w: World)
    ensures Keeps(w, w)
  {
  }

  // A run may only change the transaction that it starts.
  lemma RunEnds(w0: World, w: World)
    requires Durable(w0) && w0.disk.None? && w.tx != w0.tx && w.tx !in w0.past
    requires w.past == w0.past[w0.tx := w0.effects] && Sound(w.disk, w.tx, w.effects)
    ensures Durable(w) && Keeps(w0, w)
  {
    hide JournalHolds;
  }

  lemma StartIsSound(tx: TxId, steps: seq<Step>, effects: seq<Effect>)
    requires ValidSteps(steps) && effects == seq(|steps|, _ => Effect(Absent, "", true))
    ensures var journal := Journal(tx, Applying, PendingRecords(steps));
            && InProgress(journal, effects, 0) && |journal.steps| == |steps|
            && Sound(None, tx, effects) && Sound(Some(journal), tx, effects) && All(effects, Absent)
            && Records(steps, journal.steps)
  {
  }

  lemma CompleteIsSound(journal: Journal, effects: seq<Effect>)
    requires InProgress(journal, effects, |journal.steps|) && effects != []
    ensures Sound(Some(journal), journal.id, effects) && Sound(Some(journal.(phase := Committed)), journal.id, effects)
    ensures All(effects, Present)
  {
  }

  function Marked(j: Journal, index: nat, record: StepRecord): Journal
    requires index < |j.steps|
  {
    j.(steps := j.steps[index := record])
  }

  // Whichever of the old and the running mark is on disk, the step has no effect yet and the rest can be undone.
  lemma MarkIsUndoable(j: Journal, effects: seq<Effect>, index: nat, disk: Option<Journal>)
    requires InProgress(j, effects, index) && index < |j.steps|
    requires var running := Marked(j, index, j.steps[index].(state := Running)); disk == Some(j) || disk == Some(running)
    ensures Sound(disk, j.id, effects) && Undoable(j.(phase := RollingBack), disk, effects)
  {
  }

  // Whatever a failed apply leaves, the running mark on disk lets it be undone.
  lemma FailedIsUndoable(j: Journal, before: seq<Effect>, effects: seq<Effect>, index: nat, disk: Option<Journal>)
    requires InProgress(j, before, index) && index < |j.steps|
    requires |effects| == |before| && effects == before[index := effects[index]] && effects[index].artifact
    requires var running := Marked(j, index, j.steps[index].(state := Running));
             disk == Some(running) || disk == Some(running.(phase := RollingBack))
    ensures var running := Marked(j, index, j.steps[index].(state := Running));
            Sound(disk, j.id, effects) && Undoable(running.(phase := RollingBack), disk, effects)
  {
  }

  lemma AppliedIsUndoable(j: Journal, before: seq<Effect>, effects: seq<Effect>, index: nat, disk: Option<Journal>, handle: string)
    requires InProgress(j, before, index) && index < |j.steps|
    requires |effects| == |before| && effects == before[index := effects[index]] && effects[index].artifact
    requires effects[index].presence == Present && effects[index].handle == handle
    requires var complete := Marked(j, index, j.steps[index].(state := Complete, handle := handle));
             disk == Some(Marked(j, index, j.steps[index].(state := Running))) || disk == Some(complete)
    ensures var complete := Marked(j, index, j.steps[index].(state := Complete, handle := handle));
            && Sound(disk, j.id, effects) && Undoable(complete.(phase := RollingBack), disk, effects)
            && InProgress(complete, effects, index + 1)
  {
  }

  lemma InProgressArtifact(j: Journal, effects: seq<Effect>, index: nat)
    requires InProgress(j, effects, index) && index < |j.steps|
    ensures |effects| == |j.steps| && effects[index].artifact && j.phase == Applying
  {
  }

  function HandlerName(record: StepRecord): string {
    if record.state.Running? then "running:" + record.kind else record.kind
  }

  // Every step that may have an effect has the handler for its state: a running one the handler for
  // unfinished steps of its kind, a complete one the handler of its kind.
  predicate Handled(steps: seq<StepRecord>, handlers: set<string>) {
    forall i :: 0 <= i < |steps| ==>
                  && (steps[i].state.Running? ==> "running:" + steps[i].kind in handlers)
                  && (steps[i].state.Complete? ==> steps[i].kind in handlers)
  }

  ghost function FinalizersFor(steps: seq<StepRecord>): set<string> {
    set i | 0 <= i < |steps| && steps[i].state.Complete? :: steps[i].kind
  }

  // An environment that never fails a journal action and undoes a step whenever
  // the steps its undo needs are absent.  Needs have depth one.
  ghost predicate Cooperative(reply: Environment, needs: nat -> set<nat>) {
    && WritesSucceed(reply) && ClearsSucceed(reply)
    && (forall t, w, i :: !reply(t, w, UndoStep(i)).verdict.Crashes?)
    && (forall t, w: World, i :: NeedsMet(needs(i), w.effects) ==> reply(t, w, UndoStep(i)).verdict.Succeeds?)
    && (forall i, k :: k in needs(i) ==> needs(k) == {})
  }

  ghost predicate NeedsMet(needs: set<nat>, effects: seq<Effect>) {
    forall k :: k in needs && k < |effects| ==> effects[k].presence == Absent
  }

  lemma CooperativeWrites(reply: Environment, needs: nat -> set<nat>)
    ensures Cooperative(reply, needs) ==> WritesSucceed(reply) && ClearsSucceed(reply)
  {
  }

  // A rollback that is neither cut short nor complete leaves a journal that says so.
  ghost predicate NeedsRecovery(reply: Environment, alive: bool, ok: bool, disk: Option<Journal>) {
    WritesSucceed(reply) && ClearsSucceed(reply) && alive && !ok ==>
      disk.Some? && disk.value.phase.RecoveryRequired?
  }

  // The apply calls of a run: the steps in their order, each at most once, and none after a failure.
  ghost predicate ApplyOrder(calls: seq<ApplyCall>, count: nat) {
    && |calls| <= count
    && (forall k :: 0 <= k < |calls| ==> calls[k].index == k)
    && (forall k :: 0 <= k < |calls| - 1 ==> calls[k].applied)
  }

  function AllApplied(count: nat): (r: seq<ApplyCall>) {
    seq(count, i requires 0 <= i < count => ApplyCall(i, true))
  }

  lemma NoApplyCalls(count: nat)
    ensures ApplyOrder([], count) && AllApplied(0) == []
    ensures count > 0 ==> AllApplied(count) != []
  {
  }

  lemma AllAreInOrder(count: nat)
    ensures ApplyOrder(AllApplied(count), count)
  {
  }

  // The calls of the completed steps, and at most one more.
  lemma ApplyOrderNext(done: nat, count: nat, calls: seq<ApplyCall>)
    requires done < count && |calls| <= 1 && (calls != [] ==> calls[0].index == done)
    ensures ApplyOrder(AllApplied(done) + calls, count)
    ensures calls == [ApplyCall(done, true)] ==> AllApplied(done) + calls == AllApplied(done + 1)
    ensures AllApplied(done) + calls == AllApplied(count) ==> calls == [ApplyCall(done, true)] && done + 1 == count
  {
    if AllApplied(done) + calls == AllApplied(count) {
      assert |calls| == 1;
      assert (AllApplied(done) + calls)[done] == calls[0];
    }
  }

  // Where the log of undo calls stands before an attempt.
  ghost predicate LogState(order: seq<nat>, calls: seq<UndoCall>, attempt: nat, pending: seq<nat>, alive: bool) {
    && UndoOrder(order, calls)
    && (attempt == 0 ==> pending == order && calls == [])
    && (alive && attempt == 1 ==> |calls| == |order| && pending == Failed(calls))
  }

  lemma LogStart(order: seq<nat>, alive: bool)
    ensures LogState(order, [], 0, order, alive)
  {
  }

  lemma LogMeans(order: seq<nat>, calls: seq<UndoCall>, attempt: nat, pending: seq<nat>, alive: bool)
    requires LogState(order, calls, attempt, pending, alive)
    ensures UndoOrder(order, calls)
  {
  }

  lemma LogNext(order: seq<nat>, calls: seq<UndoCall>, attempt: nat, pending: seq<nat>, alive: bool,
                more: seq<UndoCall>, failed: seq<nat>, alive': bool)
    requires LogState(order, calls, attempt, pending, alive) && attempt < 2
    requires Indices(more) <= pending
    requires (alive' ==> alive) && (!alive ==> more == [])
    requires alive' ==> Indices(more) == pending && failed == Failed(more)
    ensures LogState(order, calls + more, attempt + 1, failed, alive')
  {
    UndoOrderStep(order, calls, more, attempt);
    assert attempt == 0 ==> calls + more == more;
  }

  // A second pass means that an undo of the first one failed.
  lemma LogRepeats(order: seq<nat>, calls: seq<UndoCall>, attempt: nat, pending: seq<nat>, alive: bool, more: seq<UndoCall>)
    requires LogState(order, calls, attempt, pending, alive)
    ensures alive && attempt == 1 && pending != [] ==> exists k :: 0 <= k < |calls + more| && !(calls + more)[k].undone
  {
    if alive && attempt == 1 && pending != [] {
      var k := SomeFailed(calls);
      assert (calls + more)[k] == calls[k];
    }
  }

  lemma {:induction false} SomeFailed(calls: seq<UndoCall>) returns (k: nat)
    requires Failed(calls) != []
    ensures k < |calls| && !calls[k].undone
  {
    k := |calls| - 1;
    if calls[k].undone {
      k := SomeFailed(calls[..k]);
    }
  }

  // With nothing left to undo, everything is absent.
  lemma NothingLive(journal: Journal, w0: World, alive0: bool, w: World, alive: bool)
    requires Passing(w0, alive0, journal, w, alive) && LiveSteps(journal.steps, |journal.steps|) == []
    ensures alive ==> All(w.effects, Absent)
  {
    LiveStepsAreLive(journal.steps, |journal.steps|);
  }

  // The first write of a rollback leaves a world to undo in,
  lemma PassingStarts(w0: World, alive0: bool, journal: Journal, w: World, alive: bool)
    requires Sound(w0.disk, journal.id, w0.effects) && (alive0 ==> Undoable(journal, w0.disk, w0.effects))
    requires w == w0.(disk := w.disk) && (w.disk == w0.disk || (alive0 && w.disk == Some(journal)))
    requires alive ==> alive0
    ensures Passing(w0, alive0, journal, w, alive)
  {
  }

  // and its last action, a write of the journal or its removal, leaves a sound one.
  lemma PassingEnds(w0: World, alive0: bool, journal: Journal, w: World, alive: bool, last: Journal, w': World)
    requires Passing(w0, alive0, journal, w, alive) && last == journal.(phase := RecoveryRequired)
    requires w' == w.(disk := w'.disk)
    requires w'.disk == w.disk || (alive && (w'.disk == Some(last) || (w'.disk == None && All(w.effects, Absent))))
    ensures Sound(w'.disk, journal.id, w'.effects) && |w'.effects| == |w0.effects|
    ensures !alive0 ==> w' == w0
    ensures alive0 && w'.disk.Some? ==> !w'.disk.value.phase.Committed? && SameNames(journal.steps, w'.disk.value.steps)
    ensures alive0 && w'.disk.None? ==> All(w'.effects, Absent)
  {
  }

  ghost predicate Needy(needs: nat -> set<nat>, indices: seq<nat>) {
    forall k :: 0 <= k < |indices| ==> needs(indices[k]) != {}
  }

  // A step whose undo needs nothing is undone whenever it is tried; once only
  // needy steps are live, every need is met.
  lemma NeedsAreMet(journal: Journal, w0: World, alive0: bool, w: World, reply: Environment, needs: nat -> set<nat>,
                    pending: seq<nat>, k: nat, calls: seq<UndoCall>)
    requires Passing(w0, alive0, journal, w, true) && Cooperative(reply, needs)
    requires PassState(journal.steps, pending, k, [], calls, true)
    ensures Needy(needs, pending) ==> forall i :: NeedsMet(needs(i), w.effects)
  {
    LiveStepsAreLive(journal.steps, |journal.steps|);
    if Needy(needs, pending) {
      assert LiveSteps(journal.steps, |journal.steps|) == pending[k..];
      forall i, j | j in needs(i) && j < |w.effects|
        ensures w.effects[j].presence == Absent
      {
        assert needs(j) == {};
        assert j !in pending;
      }
    }
  }

  // Whatever a recovery leaves of the interrupted transaction, it does not commit it.
  lemma RecoverEnds(w0: World, w: World)
    requires Durable(w0) && w0.disk.Some? && !w0.disk.value.phase.Committed?
    requires w.tx == w0.tx && w.past == w0.past && |w.effects| == |w0.effects| && Sound(w.disk, w.tx, w.effects)
    requires w.disk.Some? ==> !w.disk.value.phase.Committed?
    requires w.disk.None? ==> All(w.effects, Absent)
    ensures Durable(w) && Keeps(w0, w)
  {
    if w.disk.None? {
      assert w.effects[0].presence == Absent;
    }
  }

  // Every world between two actions of a finalization keeps the transaction.
  lemma FinalizeEnds(w0: World, journal: Journal, w: World)
    requires Durable(w0) && w0.disk.Some? && w0.disk.value.phase.Committed?
    requires journal.phase.Committed? && journal.id == w0.disk.value.id && w.tx == w0.tx && w.past == w0.past
    requires w == w0
             || (&& |w.effects| == |w0.effects| && Finished(journal.steps, w.effects)
                 && (w.disk.None? || w.disk == Some(journal)
                     || (w.disk.Some? && w.disk.value.phase.Committed? && w.disk.value.id == journal.id && Finished(w.disk.value.steps, w.effects))))
    ensures Durable(w) && Keeps(w0, w)
    ensures Finished(w0.disk.value.steps, w0.effects)
  {
  }

  lemma FinishedStep(steps: seq<StepRecord>, effects: seq<Effect>, i: nat)
    requires Finished(steps, effects) && i < |steps|
    ensures |steps| == |effects| && (steps[i].state.Complete? || steps[i].state.Finalized?) && steps[i].handle == effects[i].handle
  {
  }

  // Cleaning one step leaves the journal true, with the step marked or not.
  lemma FinishedCleaned(steps: seq<StepRecord>, before: seq<Effect>, effects: seq<Effect>, i: nat)
    requires Finished(steps, before) && i < |steps| && |effects| == |before| && effects == before[i := effects[i]]
    requires effects[i].presence == before[i].presence && effects[i].handle == before[i].handle
    ensures Finished(steps, effects) && Finished(steps[i := steps[i].(state := Finalized)], effects)
  {
  }

  lemma MissingFinalizer(steps: seq<StepRecord>, i: nat, handlers: set<string>)
    requires i < |steps| && steps[i].state.Complete? && steps[i].kind !in handlers
    ensures !(FinalizersFor(steps) <= handlers)
  {
    assert steps[i].kind in FinalizersFor(steps);
  }

  class Coordinator {
    const host: Host

    constructor (host: Host)
      ensures this.host == host
    {
      this.host := host;
    }

    method ValidateSteps(steps: seq<Step>) returns (ok: bool)
      ensures ok <==> ValidSteps(steps)
    {
      if |steps| == 0 || |steps| > MAX_STEPS {
        return false;
      }
      var ids: seq<string> := [];
      for k := 0 to |steps|
        invariant ids == seq(k, i requires 0 <= i < k => steps[i].id)
        invariant forall i :: 0 <= i < k ==> WellFormed(steps[i])
        invariant forall i, j :: 0 <= i < j < k ==> steps[i].id != steps[j].id
      {
        var step := steps[k];
        if step.id == "" || step.kind == "" || !step.applies || !step.undoes || !step.undoesRunning {
          return false;
        }
        if steps[k].id in ids {
          assert exists i :: 0 <= i < k && ids[i] == steps[k].id;
          return false;
        }
        assert forall i :: 0 <= i < k ==> ids[i] == steps[i].id;
        ids := ids + [steps[k].id];
      }
      return true;
    }

    // Run applies the steps in order and rolls back on the first failure.
    method Run(tx: TxId, steps: seq<Step>) returns (ok: bool, ghost calls: seq<ApplyCall>)
      requires host.alive && Durable(host.State())
      requires tx != host.tx && tx !in host.past  // transaction identities are 128 random bits
      modifies host
      ensures Durable(host.State())
      ensures Keeps(old(host.State()), host.State())
      ensures !ValidSteps(steps) || old(host.disk).Some? ==> !ok && host.State() == old(host.State())
      ensures ok ==>
                && host.disk.Some? && host.disk.value.id == tx && host.disk.value.phase.Committed?
                && host.tx == tx && |host.effects| == |steps| && All(host.effects, Present)
      ensures host.tx == tx && host.disk.None? ==> All(host.effects, Absent)
      ensures host.tx == tx && host.disk.Some? ==> Records(steps, host.disk.value.steps)
      // Every step is applied in its turn and once, and a run fails only if an apply or a write does.
      ensures host.applyCalls == old(host.applyCalls) + calls && ApplyOrder(calls, |steps|)
      ensures ok ==> calls == AllApplied(|steps|)
      ensures ValidSteps(steps) && old(host.disk).None? && WritesSucceed(host.reply) ==> (ok <==> calls == AllApplied(|steps|))
      ensures ValidSteps(steps) && old(host.disk).None? && WritesSucceed(host.reply) && AppliesSucceed(host.reply) ==> ok
      // A run that fails without a crash is undone at once if the undos work.
      ensures ValidSteps(steps) && old(host.disk).None? && Cooperative(host.reply, host.needs) && !ok && host.alive ==>
                host.tx == tx && host.disk.None?
    {
      hide Durable, Keeps, Sound, InProgress, All, PendingRecords, Cooperative, ApplyOrder, AllApplied, WritesSucceed, AppliesSucceed;
      ghost var w0 := host.State();
      calls := [];
      NoApplyCalls(|steps|);
      var valid := ValidateSteps(steps);
      if !valid {
        NothingChanges(w0);
        return false, calls;
      }
      if host.disk.Some? {
        NothingChanges(w0);
        return false, calls;
      }
      host.Begin(tx, |steps|);
      StartIsSound(tx, steps, host.effects);
      CooperativeWrites(host.reply, host.needs);
      var journal := Journal(tx, Applying, PendingRecords(steps));
      assert |steps| > 0;
      hide ValidSteps;
      ok := host.Write(journal);
      if !ok {
        RunEnds(w0, host.State());
        return;
      }
      for index := 0 to |steps|
        invariant host.alive && host.tx == tx && host.past == old(host.past)[old(host.tx) := old(host.effects)]
        invariant |host.effects| == |steps|
        invariant journal.id == tx && host.disk == Some(journal)
        invariant |journal.steps| == |steps| && Records(steps, journal.steps) && InProgress(journal, host.effects, index)
        invariant calls == AllApplied(index) && host.applyCalls == old(host.applyCalls) + calls
      {
        ghost var more;
        journal, ok, more := RunStep(journal, index);
        ApplyOrderNext(index, |steps|, more);
        calls := calls + more;
        if !ok {
          RunEnds(w0, host.State());
          return;
        }
      }
      CompleteIsSound(journal, host.effects);
      AllAreInOrder(|steps|);
      journal := journal.(phase := Committed);
      ok := host.Write(journal);
      RunEnds(w0, host.State());
    }

    // The journaled apply of one step: the running mark is durable before the apply.
    method RunStep(memory: Journal, index: nat) returns (journal: Journal, ok: bool, ghost calls: seq<ApplyCall>)
      requires host.alive && host.disk == Some(memory) && InProgress(memory, host.effects, index)
      requires index < |memory.steps|
      modifies host`disk, host`effects, host`alive, host`clock, host`undoCalls, host`applyCalls, host`failedWrites
      ensures Sound(host.disk, memory.id, host.effects) && |host.effects| == |old(host.effects)|
      ensures ok ==>
                && host.alive && journal.id == memory.id && |journal.steps| == |memory.steps|
                && host.disk == Some(journal) && InProgress(journal, host.effects, index + 1)
                && SameNames(memory.steps, journal.steps)
      ensures !ok && host.disk.Some? ==> !host.disk.value.phase.Committed? && SameNames(memory.steps, host.disk.value.steps)
      ensures !ok && host.disk.None? ==> All(host.effects, Absent)
      ensures host.applyCalls == old(host.applyCalls) + calls && |calls| <= 1 && (calls != [] ==> calls[0].index == index)
      ensures ok ==> calls == [ApplyCall(index, true)]
      ensures WritesSucceed(host.reply) ==> (ok <==> calls == [ApplyCall(index, true)])
      ensures WritesSucceed(host.reply) && AppliesSucceed(host.reply) ==> ok
      ensures Cooperative(host.reply, host.needs) && !ok && host.alive ==> host.disk.None?
    {
      hide Sound, Undoable, InProgress, All, LiveSteps, UndoOrder, Cooperative, NeedsRecovery, WritesSucceed, ClearsSucceed, AppliesSucceed;
      ghost var undos;
      ghost var before := host.effects;
      calls := [];
      CooperativeWrites(host.reply, host.needs);
      InProgressArtifact(memory, before, index);
      journal := memory.(steps := memory.steps[index := memory.steps[index].(state := Running)]);
      ok := host.Write(journal);
      MarkIsUndoable(memory, before, index, host.disk);
      if !ok {
        ok, undos := Rollback(memory);
        return journal, false, calls;
      }
      var handle := host.Apply(index);
      calls := [ApplyCall(index, handle.Some?)];
      if handle.None? {
        journal := journal.(phase := RollingBack);
        ok := host.Write(journal);
        FailedIsUndoable(memory, before, host.effects, index, host.disk);
        if ok {
          ok, undos := Rollback(journal);
        }
        return journal, false, calls;
      }
      journal := journal.(steps := journal.steps[index := journal.steps[index].(state := Complete, handle := handle.value)]);
      ok := host.Write(journal);
      assert journal == Marked(memory, index, memory.steps[index].(state := Complete, handle := handle.value));
      AppliedIsUndoable(memory, before, host.effects, index, host.disk, handle.value);
      if !ok {
        ok, undos := Rollback(journal);
        return journal, false, calls;
      }
    }

    // Recover rolls a non-committed journal back with the handlers it is given.
    // The handler of an unfinished step is named "running:" and its kind.
    method Recover(handlers: set<string>) returns (ok: bool)
      requires host.alive && Durable(host.State())
      modifies host`disk, host`effects, host`alive, host`clock, host`undoCalls, host`failedWrites
      ensures Durable(host.State())
      ensures Keeps(old(host.State()), host.State())
      ensures old(host.disk).None? ==> ok && host.State() == old(host.State())
      ensures old(host.disk).Some? && old(host.disk).value.phase.Committed? ==> !ok && host.State() == old(host.State())
      ensures ok ==> host.disk.None?
      ensures old(host.disk).Some? && ok ==> All(host.effects, Absent)
      ensures old(host.disk).Some? && host.disk.Some? ==> SameNames(old(host.disk).value.steps, host.disk.value.steps)
      ensures old(host.disk).Some? && !old(host.disk).value.phase.Committed? ==> NeedsRecovery(host.reply, host.alive, ok, host.disk)
      // Without a handler for every live step nothing is undone; with them, and working writes, it completes.
      ensures old(host.disk).Some? && !old(host.disk).value.phase.Committed? && !Handled(old(host.disk).value.steps, handlers) ==>
                !ok && host.effects == old(host.effects) && host.undoCalls == old(host.undoCalls)
      ensures (&& old(host.disk).Some? && !old(host.disk).value.phase.Committed?
               && Handled(old(host.disk).value.steps, handlers)
               && Cooperative(host.reply, host.needs)) ==> ok
    {
      hide Keeps, WritesSucceed, ClearsSucceed, Cooperative;
      NothingChanges(host.State());
      if host.disk.None? {
        return true;
      }
      var journal := host.disk.value;
      if journal.phase.Committed? {
        return false;
      }
      ghost var w0 := host.State();
      for index := 0 to |journal.steps|
        invariant host.State() == w0 && host.alive && host.undoCalls == old(host.undoCalls)
        invariant forall i :: 0 <= i < index && Live(journal.steps[i]) ==> HandlerName(journal.steps[i]) in handlers
      {
        var record := journal.steps[index];
        if Live(record) && HandlerName(record) !in handlers {
          journal := journal.(phase := RecoveryRequired);
          ok := host.Write(journal);
          RecoverEnds(w0, host.State());
          return false;
        }
      }
      ghost var calls;
      ok, calls := Rollback(journal);
      RecoverEnds(w0, host.State());
    }

    // Finalize discards the undo material of a committed transaction and clears its journal.
    method Finalize(handlers: set<string>) returns (ok: bool)
      requires host.alive && Durable(host.State())
      modifies host`disk, host`effects, host`alive, host`clock, host`failedWrites
      ensures Durable(host.State())
      ensures Keeps(old(host.State()), host.State())
      ensures old(host.disk).None? || !old(host.disk).value.phase.Committed? ==> ok && host.State() == old(host.State())
      ensures ok && old(host.disk).Some? && old(host.disk).value.phase.Committed? ==>
                && host.disk.None?
                && |host.effects| == |old(host.disk).value.steps|
                && forall i :: 0 <= i < |host.effects| && old(host.disk).value.steps[i].state.Complete? ==>
                     !host.effects[i].artifact
      ensures old(host.disk).Some? && host.disk.Some? ==> SameNames(old(host.disk).value.steps, host.disk.value.steps)
      // With the handlers present and working writes and clean-ups it completes.
      ensures (&& old(host.disk).Some? && old(host.disk).value.phase.Committed?
               && FinalizersFor(old(host.disk).value.steps) <= handlers
               && WritesSucceed(host.reply) && CleanupsSucceed(host.reply) && ClearsSucceed(host.reply)) ==> ok
    {
      hide Durable, Keeps, Finished, FinalizersFor, WritesSucceed, CleanupsSucceed, ClearsSucceed;
      ghost var w0 := host.State();
      NothingChanges(w0);
      if host.disk.None? || !host.disk.value.phase.Committed? {
        return true;
      }
      var journal := host.disk.value;
      ghost var steps0 := journal.steps;
      FinalizeEnds(w0, journal, w0);
      for index := 0 to |journal.steps|
        invariant host.alive && host.disk == Some(journal) && journal.phase.Committed? && journal.id == w0.disk.value.id
        invariant host.tx == w0.tx && host.past == w0.past
        invariant |journal.steps| == |steps0| == |host.effects| && Finished(journal.steps, host.effects)
        invariant SameNames(steps0, journal.steps)
        invariant forall i :: index <= i < |steps0| ==> journal.steps[i] == steps0[i]
        invariant forall i :: 0 <= i < index && steps0[i].state.Complete? ==> !host.effects[i].artifact
      {
        var record := journal.steps[index];
        FinishedStep(journal.steps, host.effects, index);
        FinalizeEnds(w0, journal, host.State());
        ghost var before := host.effects;
        if record.state.Finalized? {
          continue;
        }
        if !record.state.Complete? {
          return false;
        }
        if record.kind !in handlers {
          MissingFinalizer(steps0, index, handlers);
          return false;
        }
        ok := host.Clean(index, record.handle);
        FinishedCleaned(journal.steps, before, host.effects, index);
        FinalizeEnds(w0, journal, host.State());
        if !ok {
          return;
        }
        journal := journal.(steps := journal.steps[index := record.(state := Finalized)]);
        ok := host.Write(journal);
        FinalizeEnds(w0, journal, host.State());
        if !ok {
          return;
        }
      }
      ok := host.Clear();
      FinalizeEnds(w0, journal, host.State());
    }

    // Rollback undoes every running and completed step of the memory journal, the
    // newest first, and tries each failed undo once more after the others.
    method Rollback(memory: Journal) returns (ok: bool, ghost calls: seq<UndoCall>)
      requires Sound(host.disk, memory.id, host.effects)
      requires host.alive ==> Undoable(memory.(phase := RollingBack), host.disk, host.effects)
      modifies host`disk, host`effects, host`alive, host`clock, host`undoCalls, host`failedWrites
      ensures !old(host.alive) ==> host.State() == old(host.State()) && !ok
      ensures Sound(host.disk, memory.id, host.effects) && |host.effects| == |old(host.effects)|
      ensures old(host.alive) && host.disk.Some? ==>
                !host.disk.value.phase.Committed? && SameNames(memory.steps, host.disk.value.steps)
      ensures old(host.alive) && host.disk.None? ==> All(host.effects, Absent)
      ensures ok ==> host.disk.None?
      ensures host.undoCalls == old(host.undoCalls) + calls
      ensures UndoOrder(LiveSteps(memory.steps, |memory.steps|), calls)
      ensures old(host.alive) && Cooperative(host.reply, host.needs) ==> ok
      ensures NeedsRecovery(host.reply, host.alive, ok, host.disk)
      // It is not reported as complete if the record of an undo in its only pass was lost.
      ensures ok && (forall k :: 0 <= k < |calls| ==> calls[k].undone) ==> host.failedWrites <= old(host.failedWrites) + 1
    {
      hide LiveSteps, UndoOrder, Failed, Indices, Cooperative, Needy, LogState, Passing, Sound, Undoable, All, WritesSucceed, ClearsSucceed;
      ghost var w0, alive0 := host.State(), host.alive;
      ghost var cooperative := alive0 && Cooperative(host.reply, host.needs);
      var journal := memory.(phase := RollingBack);
      CooperativeWrites(host.reply, host.needs);
      ok := host.Write(journal);
      PassingStarts(w0, alive0, journal, host.State(), host.alive);
      var pending := PendingUndos(journal.steps);
      ghost var order := pending;
      calls := [];
      LogStart(order, host.alive);
      var failures := false;
      var attempt := 0;
      while attempt < 2 && pending != []
        invariant 0 <= attempt <= 2
        invariant Passing(w0, alive0, journal, host.State(), host.alive) && journal.id == memory.id && (host.alive ==> alive0)
        invariant pending == LiveSteps(journal.steps, |journal.steps|) && SameNames(memory.steps, journal.steps)
        invariant attempt == 0 ==> !failures
        invariant pending != [] && attempt > 0 ==> failures
        invariant host.undoCalls == old(host.undoCalls) + calls
        invariant LogState(order, calls, attempt, pending, host.alive)
        invariant attempt == 0 || (attempt == 1 && host.alive && pending == [] && !failures) ==>
                    host.failedWrites <= old(host.failedWrites) + 1
        invariant attempt == 2 && host.alive ==> exists k :: 0 <= k < |calls| && !calls[k].undone
        invariant cooperative ==>
                    && host.alive
                    && (attempt == 1 ==> Needy(host.needs, pending))
                    && (attempt == 2 ==> pending == [])
                    && (pending == [] ==> !failures)
      {
        ghost var more, pending0, alive := [], pending, host.alive;
        journal, pending, failures, more := UndoPass(journal, pending, w0, alive0);
        LogRepeats(order, calls, attempt, pending0, alive, more);
        LogNext(order, calls, attempt, pending0, alive, more, pending, host.alive);
        calls := calls + more;
        attempt := attempt + 1;
      }
      LogMeans(order, calls, attempt, pending, host.alive);
      ghost var w, alive, passed := host.State(), host.alive, journal;
      if pending != [] || failures {
        journal := journal.(phase := RecoveryRequired);
        ok := host.Write(journal);
        PassingEnds(w0, alive0, passed, w, alive, journal, host.State());
        return false, calls;
      }
      NothingLive(journal, w0, alive0, host.State(), host.alive);
      ok := host.Clear();
      PassingEnds(w0, alive0, passed, w, alive, passed.(phase := RecoveryRequired), host.State());
    }

    method PendingUndos(steps: seq<StepRecord>) returns (pending: seq<nat>)
      ensures pending == LiveSteps(steps, |steps|)
    {
      pending := [];
      var index := |steps|;
      while index > 0
        invariant 0 <= index <= |steps|
        invariant pending + LiveSteps(steps, index) == LiveSteps(steps, |steps|)
      {
        index := index - 1;
        if Live(steps[index]) {
          assert pending + ([index] + LiveSteps(steps, index)) == (pending + [index]) + LiveSteps(steps, index);
          pending := pending + [index];
        }
      }
    }

    // One attempt at every pending undo, in order.
    method UndoPass(memory: Journal, pending: seq<nat>, ghost w0: World, ghost alive0: bool)
      returns (journal: Journal, failed: seq<nat>, failures: bool, ghost calls: seq<UndoCall>)
      requires Passing(w0, alive0, memory, host.State(), host.alive)
      requires pending == LiveSteps(memory.steps, |memory.steps|)
      modifies host`disk, host`effects, host`alive, host`clock, host`undoCalls, host`failedWrites
      ensures Passing(w0, alive0, journal, host.State(), host.alive) && journal.id == memory.id && (host.alive ==> old(host.alive))
      ensures SameNames(memory.steps, journal.steps)
      ensures failed == LiveSteps(journal.steps, |journal.steps|)
      ensures failed != [] ==> failures
      ensures host.alive && failed == [] ==> (failures <==> host.failedWrites > old(host.failedWrites))
      ensures host.failedWrites >= old(host.failedWrites)
      ensures host.undoCalls == old(host.undoCalls) + calls
      ensures !old(host.alive) ==> calls == []
      ensures Indices(calls) <= pending
      ensures host.alive ==> Indices(calls) == pending && failed == Failed(calls)
      ensures old(host.alive) && Cooperative(host.reply, host.needs) ==>
                && host.alive
                && Needy(host.needs, failed)
                && (Needy(host.needs, pending) ==> failed == [])
                && (failed == [] ==> !failures)
    {
      hide Passing, Cooperative, LiveSteps, Indices, Failed, PassState;
      journal, failed, failures, calls := memory, [], false, [];
      PassBounds(journal.steps, pending, 0, failed, calls, host.alive);
      for k := 0 to |pending|
        invariant Passing(w0, alive0, journal, host.State(), host.alive) && journal.id == memory.id && (host.alive ==> old(host.alive))
        invariant SameNames(memory.steps, journal.steps)
        invariant failed != [] ==> failures
        invariant host.failedWrites >= old(host.failedWrites)
        invariant host.alive && failed == [] ==> (failures <==> host.failedWrites > old(host.failedWrites))
        invariant PassState(journal.steps, pending, k, failed, calls, host.alive)
        invariant host.undoCalls == old(host.undoCalls) + calls
        invariant !old(host.alive) ==> calls == []
        invariant old(host.alive) && Cooperative(host.reply, host.needs) ==>
                    && host.alive
                    && Needy(host.needs, failed)
                    && (Needy(host.needs, pending) ==> failed == [])
                    && (failed == [] ==> !failures)
      {
        PassTarget(journal.steps, pending, k, failed, calls, host.alive);
        ghost var steps, alive := journal.steps, host.alive;
        if host.alive && Cooperative(host.reply, host.needs) && failed == [] {
          NeedsAreMet(journal, w0, alive0, host.State(), host.reply, host.needs, pending, k, calls);
        }
        var undone, err;
        ghost var call;
        journal, undone, err, call := Compensate(journal, pending[k], w0, alive0);
        PassNext(steps, pending, k, failed, calls, alive, undone, call, host.alive);
        calls := calls + call;
        if err {
          failures := true;
        }
        if !undone {
          failed := failed + [pending[k]];
        }
      }
      PassBounds(journal.steps, pending, |pending|, failed, calls, host.alive);
    }

    // Compensate undoes one step and records it.
    method Compensate(memory: Journal, index: nat, ghost w0: World, ghost alive0: bool)
      returns (journal: Journal, undone: bool, err: bool, ghost call: seq<UndoCall>)
      requires Passing(w0, alive0, memory, host.State(), host.alive)
      requires index < |memory.steps| && Live(memory.steps[index])
      modifies host`disk, host`effects, host`alive, host`clock, host`undoCalls, host`failedWrites
      ensures Passing(w0, alive0, journal, host.State(), host.alive) && journal.id == memory.id && (host.alive ==> old(host.alive))
      ensures host.undoCalls == old(host.undoCalls) + call
      ensures call == if old(host.alive) then [UndoCall(index, undone)] else []
      ensures journal == if undone then memory.(steps := memory.steps[index := MarkUndone(memory.steps[index])]) else memory
      ensures !undone ==> err
      ensures undone ==> old(host.alive)
      // An undo that succeeded is recorded on disk, or its lost record is reported.
      ensures undone && !err ==> host.disk == Some(journal)
      ensures undone && host.alive ==> host.failedWrites == old(host.failedWrites) + if err then 1 else 0
      ensures host.failedWrites >= old(host.failedWrites)
      ensures old(host.alive) && Cooperative(host.reply, host.needs) ==>
                && host.alive
                && (undone ==> !err)
                && (NeedsMet(host.needs(index), old(host.effects)) ==> undone)
    {
      var record := memory.steps[index];
      journal := memory;
      if !host.alive {
        return memory, false, true, [];
      }
      call := [UndoCall(index, false)];
      undone := host.Undo(index, if record.state.Running? then None else Some(record.handle));
      if !undone {
        return memory, false, true, call;
      }
      call := [UndoCall(index, true)];
      journal := memory.(steps := memory.steps[index := MarkUndone(record)]);
      var ok := host.Write(journal);
      err := !ok;
    }
  }
}
