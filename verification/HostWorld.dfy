// The durable world of a host deployment transaction
// (deployment/transaction/transaction.go): the journal file, the effects of
// the transaction started last and of every one before it, and an environment that decides
// how each file or host action ends.  A crash is one of those endings: after it
// the process is no longer alive and nothing it still "does" reaches the world.
module HostWorld {
  import opened Options

  type TxId = string

  datatype Phase = Applying | RollingBack | RecoveryRequired | Committed
  datatype StepState = Pending | Running | Complete | RolledBack | Finalized
  datatype StepRecord = StepRecord(id: string, kind: string, state: StepState, handle: string)
  datatype Journal = Journal(id: TxId, phase: Phase, steps: seq<StepRecord>)

  // What one step has done to the host.  `handle` is the handle its last apply
  // issued, and `artifact` says whether the material that undoes it still exists.
  datatype Presence = Absent | Partial | Present
  datatype Effect = Effect(presence: Presence, handle: string, artifact: bool)

  // `effects` belong to the transaction `tx` started last, `past` to those before it.
  datatype World = World(disk: Option<Journal>, tx: TxId, effects: seq<Effect>, past: map<TxId, seq<Effect>>)

  datatype Action =
    | WriteJournal(journal: Journal)
    | ClearJournal
    | ApplyStep(index: nat)
    | UndoStep(index: nat)
    | CleanStep(index: nat)

  // `reached` tells whether a write, removal or clean-up that did not succeed
  // took effect all the same; `left` is what an unsuccessful apply or undo leaves.
  datatype Verdict = Succeeds | Fails | Crashes
  datatype Reply = Reply(verdict: Verdict, reached: bool, left: Presence, handle: string)
  type Environment = (nat, World, Action) -> Reply

  ghost predicate WritesSucceed(reply: Environment) {
    forall t, w, j :: reply(t, w, WriteJournal(j)).verdict.Succeeds?
  }

  ghost predicate ClearsSucceed(reply: Environment) {
    forall t, w :: reply(t, w, ClearJournal).verdict.Succeeds?
  }

  ghost predicate AppliesSucceed(reply: Environment) {
    forall t, w, i :: reply(t, w, ApplyStep(i)).verdict.Succeeds?
  }

  ghost predicate CleanupsSucceed(reply: Environment) {
    forall t, w, i :: reply(t, w, CleanStep(i)).verdict.Succeeds?
  }

  datatype UndoCall = UndoCall(index: nat, undone: bool)
  datatype ApplyCall = ApplyCall(index: nat, applied: bool)

  predicate Live(record: StepRecord) {
    record.state.Running? || record.state.Complete?
  }

  ghost predicate All(effects: seq<Effect>, presence: Presence) {
    forall i :: 0 <= i < |effects| ==> effects[i].presence == presence
  }

  // A transaction that has left no journal behind did everything or nothing.
  ghost predicate Settled(effects: seq<Effect>) {
    All(effects, Absent) || All(effects, Present)
  }

  // What an uncommitted journal must say about the host for an undo to be
  // possible: a step that may have an effect is running or complete, and a
  // complete step carries the handle that undoes it.
  ghost predicate Recoverable(steps: seq<StepRecord>, effects: seq<Effect>) {
    && |steps| == |effects|
    && forall i :: 0 <= i < |steps| ==>
         && effects[i].artifact
         && !steps[i].state.Finalized?
         && (!Live(steps[i]) ==> effects[i].presence == Absent)
         && (steps[i].state.Complete? ==> steps[i].handle == effects[i].handle)
  }

  ghost predicate Finished(steps: seq<StepRecord>, effects: seq<Effect>) {
    && |steps| == |effects|
    && All(effects, Present)
    && forall i :: 0 <= i < |steps| ==>
         && (steps[i].state.Complete? || steps[i].state.Finalized?)
         && steps[i].handle == effects[i].handle
  }

  ghost predicate JournalHolds(journal: Journal, effects: seq<Effect>) {
    if journal.phase.Committed? then Finished(journal.steps, effects)
    else Recoverable(journal.steps, effects)
  }

  // The part of the invariant about the transaction started last.
  ghost predicate Sound(disk: Option<Journal>, tx: TxId, effects: seq<Effect>) {
    match disk
    case None => Settled(effects)
    case Some(journal) => journal.id == tx && effects != [] && JournalHolds(journal, effects)
  }

  // The invariant of every world a process can leave behind, crash or not.
  ghost predicate Durable(w: World) {
    && Sound(w.disk, w.tx, w.effects)
    && w.tx !in w.past
    && forall tx :: tx in w.past ==> Settled(w.past[tx])
  }

  // The one host, driven by one process at a time.
  class Host {
    const reply: Environment
    ghost const needs: nat -> set<nat>  // the steps whose undo must come before the undo of a step
    var disk: Option<Journal>
    var tx: TxId
    var effects: seq<Effect>
    var past: map<TxId, seq<Effect>>
    var alive: bool
    var clock: nat
    var undoCalls: seq<UndoCall>
    var applyCalls: seq<ApplyCall>
    var failedWrites: nat  // journal writes that were not reported as done

    constructor (reply: Environment, ghost needs: nat -> set<nat>, w: World)
      ensures State() == w && alive && undoCalls == [] && applyCalls == [] && failedWrites == 0 && this.reply == reply && this.needs == needs
    {
      this.reply, this.needs := reply, needs;
      disk, tx, effects, past, alive, clock := w.disk, w.tx, w.effects, w.past, true, 0;
      undoCalls, applyCalls, failedWrites := [], [], 0;
    }

    function State(): World
      reads this
    {
      World(disk, tx, effects, past)
    }

    // Journal writes replace the whole file; a failed one leaves the old or the
    // new journal (internal/securefile/write.go).
    method Write(journal: Journal) returns (ok: bool)
      modifies this`disk, this`alive, this`clock, this`failedWrites
      ensures alive ==> old(alive)
      ensures !old(alive) ==> disk == old(disk) && !ok
      ensures disk == old(disk) || disk == Some(journal)
      ensures ok ==> alive && disk == Some(journal)
      ensures failedWrites == old(failedWrites) + if old(alive) && !ok then 1 else 0
      ensures old(alive) && WritesSucceed(reply) ==> ok
    {
      ok := false;
      if alive {
        var r := reply(clock, State(), WriteJournal(journal));
        clock := clock + 1;
        if r.verdict.Succeeds? || r.reached {
          disk := Some(journal);
        }
        ok, alive := r.verdict.Succeeds?, !r.verdict.Crashes?;
        if !ok {
          failedWrites := failedWrites + 1;
        }
      }
    }

    method Clear() returns (ok: bool)
      modifies this`disk, this`alive, this`clock
      ensures alive ==> old(alive)
      ensures !old(alive) ==> disk == old(disk) && !ok
      ensures disk == old(disk) || disk == None
      ensures ok ==> alive && disk == None
      ensures old(alive) && ClearsSucceed(reply) ==> ok
    {
      ok := false;
      if alive {
        var r := reply(clock, State(), ClearJournal);
        clock := clock + 1;
        if r.verdict.Succeeds? || r.reached {
          disk := None;
        }
        ok, alive := r.verdict.Succeeds?, !r.verdict.Crashes?;
      }
    }

    // The host meets a transaction it has not seen: none of its steps has an effect.
    method Begin(tx: TxId, count: nat)
      requires alive && tx != this.tx && tx !in past
      modifies this`tx, this`effects, this`past
      ensures this.tx == tx && past == old(past)[old(this.tx) := old(effects)]
      ensures effects == seq(count, _ => Effect(Absent, "", true))
    {
      past := past[this.tx := effects];
      this.tx := tx;
      effects := seq(count, _ => Effect(Absent, "", true));
    }

    method Apply(index: nat) returns (handle: Option<string>)
      requires index < |effects|
      modifies this`effects, this`alive, this`clock, this`applyCalls
      ensures alive ==> old(alive)
      ensures !old(alive) ==> effects == old(effects) && applyCalls == old(applyCalls) && handle.None?
      ensures |effects| == |old(effects)| && effects == old(effects)[index := effects[index]]
      ensures effects[index].artifact == old(effects[index].artifact)
      ensures handle.Some? ==> alive && effects[index].presence == Present && effects[index].handle == handle.value
      ensures old(alive) ==> applyCalls == old(applyCalls) + [ApplyCall(index, handle.Some?)]
      ensures old(alive) && AppliesSucceed(reply) ==> handle.Some?
    {
      handle := None;
      if alive {
        var r := reply(clock, State(), ApplyStep(index));
        clock := clock + 1;
        var presence := if r.verdict.Succeeds? then Present else r.left;
        effects := effects[index := effects[index].(presence := presence, handle := r.handle)];
        alive := !r.verdict.Crashes?;
        if r.verdict.Succeeds? {
          handle := Some(r.handle);
        }
        applyCalls := applyCalls + [ApplyCall(index, handle.Some?)];
      }
    }

    // Undoing with the right handle, or undoing an unfinished apply, removes the
    // step from whatever state it is in while its artifact exists.  Repeating it
    // is safe.  Any other ending leaves an arbitrary state.
    method Undo(index: nat, handle: Option<string>) returns (ok: bool)
      requires index < |effects|
      modifies this`effects, this`alive, this`clock, this`undoCalls
      ensures alive ==> old(alive)
      ensures !old(alive) ==> effects == old(effects) && undoCalls == old(undoCalls) && !ok
      ensures |effects| == |old(effects)| && effects == old(effects)[index := effects[index]]
      ensures effects[index].artifact == old(effects[index].artifact)
      ensures effects[index].handle == old(effects[index].handle)
      ensures ok ==> alive
      ensures ok && effects[index].artifact && (handle.Some? ==> handle.value == effects[index].handle) ==>
                effects[index].presence == Absent
      ensures old(alive) ==> undoCalls == old(undoCalls) + [UndoCall(index, ok)]
      ensures old(alive) && reply(old(clock), old(State()), UndoStep(index)).verdict.Succeeds? ==> ok
      ensures old(alive) && !reply(old(clock), old(State()), UndoStep(index)).verdict.Crashes? ==> alive
    {
      ok := false;
      if alive {
        var r := reply(clock, State(), UndoStep(index));
        clock := clock + 1;
        ok := r.verdict.Succeeds?;
        var effect := effects[index];
        var fits := effect.artifact && (handle.Some? ==> handle.value == effect.handle);
        effects := effects[index := effect.(presence := if ok && fits then Absent else r.left)];
        undoCalls := undoCalls + [UndoCall(index, ok)];
        alive := !r.verdict.Crashes?;
      }
    }

    // A finalizer discards the material that would undo a committed step.
    method Clean(index: nat, handle: string) returns (ok: bool)
      requires index < |effects|
      modifies this`effects, this`alive, this`clock
      ensures alive ==> old(alive)
      ensures !old(alive) ==> effects == old(effects) && !ok
      ensures |effects| == |old(effects)| && effects == old(effects)[index := effects[index]]
      ensures effects[index].presence == old(effects[index].presence)
      ensures effects[index].handle == old(effects[index].handle)
      ensures ok ==> alive && (handle == effects[index].handle ==> !effects[index].artifact)
      ensures old(alive) && CleanupsSucceed(reply) ==> ok
    {
      ok := false;
      if alive {
        var r := reply(clock, State(), CleanStep(index));
        clock := clock + 1;
        if handle == effects[index].handle && (r.verdict.Succeeds? || r.reached) {
          effects := effects[index := effects[index].(artifact := false)];
        }
        ok, alive := r.verdict.Succeeds?, !r.verdict.Crashes?;
      }
    }
  }
}
