// The durable grant store: each operation loads the file, changes the loaded copy, saves it and
// signals the waiters. Every operation is the step of the run model with the same name.
module GrantStore {
  import opened Options
  import opened GrantData
  import opened GrantFile
  import opened GrantRuns
  import Life = GrantLifecycle
  import Ops = GrantOperations
  import Choice = GrantDecisions
  import Records = GrantRecords

  datatype Refusal = NoRefusal | UnsupportedState | Refused(error: Ops.Error)

  datatype DecisionRefusal = DecisionTaken | UnsupportedDecisionState | DecisionRefused(error: Choice.DecisionError)

  // What a read of one grant or use answers.
  datatype ReadError = UnsupportedRead | UnknownRead | NotSaved
  datatype Answer<T> = Answered(value: T) | NotAnswered(error: ReadError)

  // --- What each call leaves on disk and reports.

  function Signals(before: Data, after: Data): nat { if before.nextEvent == after.nextEvent then 0 else 1 }

  ghost predicate Updates(before: Data, after: Data, command: Ops.Command, settings: Ops.Settings, times: Ops.Times, stored: bool,
                          refusal: Refusal, saveFailed: bool)
    requires Ops.ValidSettings(settings) && Ops.Admissible(command)
  {
    if !LoaderAccepts(before) then refusal == UnsupportedState && !saveFailed && after == before
    else
      var change := Ops.Update(before, command, settings, times);
      && after == Step(before, Entry(Change(command), times, stored), settings)
      && refusal == (match change.error case None => NoRefusal case Some(error) => Refused(error))
      && (saveFailed <==> !stored && (refusal.NoRefusal? || change.data != before))
  }

  // A read answers from the maintained state, which it saves first if it differs; a read of something
  // unknown saves nothing.
  ghost predicate Reads<T>(before: Data, after: Data, call: Call, settings: Ops.Settings, times: Ops.Times, stored: bool,
                           find: Data -> Option<T>, answer: Answer<T>)
    requires Ops.ValidSettings(settings) && Allowed(call)
  {
    if !LoaderAccepts(before) then answer == NotAnswered(UnsupportedRead) && after == before
    else
      var read := Performed(before, call, times, settings);
      if find(read).None? then answer == NotAnswered(UnknownRead) && after == before
      else if !stored && read != before then answer == NotAnswered(NotSaved) && after == before
      else answer == Answered(find(read).value) && after == read
  }

  function GrantAt(data: Data, id: string): Option<Grant> {
    match GrantIndex(data.grants, id) case None => None case Some(i) => Some(data.grants[i])
  }

  function UseAt(data: Data, id: string, requestId: string): Option<(Grant, Use)> {
    match (GrantIndex(data.grants, id), UseIndex(data.uses, requestId))
    case (Some(i), Some(k)) => if data.uses[k].grantId == id then Some((data.grants[i], data.uses[k])) else None
    case _ => None
  }

  // A decision is answered with its result, unless it committed and could not be saved.
  ghost predicate Decides(before: Data, after: Data, outcome: Choice.DecisionOutcome, stored: bool,
                          result: Choice.DecisionResult, refusal: DecisionRefusal, saveFailed: bool)
  {
    && after == (if stored then outcome.data else before)
    && (saveFailed <==> !stored && outcome.data != before)
    && if saveFailed && outcome.data.records != before.records then result == Choice.NoResult && refusal == DecisionTaken
       else
         && result == outcome.result
         && refusal == match outcome.error case None => DecisionTaken case Some(error) => DecisionRefused(error)
  }

  class Store {
    const settings: Ops.Settings
    // What is on disk, and how often the signal channel has been closed and replaced.
    var disk: Data
    var generation: nat

    constructor (options: Ops.Settings)
      ensures disk == EMPTY && settings == Ops.WithDefaults(options) && Ops.ValidSettings(settings)
    {
      settings := Ops.WithDefaults(options);
      disk := EMPTY;
      generation := 0;
    }

    method Load() returns (file: FileData?)
      ensures (file != null) == LoaderAccepts(disk)
      ensures file != null ==> fresh(file) && file.Value() == disk && DistinctGrants(file.grants)
    {
      hide LoadedGrant, LoadedUseAt, Counted, OrderedEvents;
      var valid := Validate(disk);
      if !valid {
        return null;
      }
      file := new FileData(disk);
    }

    method Save(data: Data, stored: bool)
      modifies this`disk
      ensures disk == if stored then data else old(disk)
    {
      if stored {
        disk := data;
      }
    }

    method SignalNewEvents(before: nat, after: nat)
      modifies this`generation
      ensures generation == old(generation) + if before == after then 0 else 1
    {
      if before == after {
        return;
      }
      generation := generation + 1;
    }

    method SaveAndSignal(data: Data, stored: bool, before: nat)
      requires before == disk.nextEvent
      modifies this
      ensures disk == if stored then data else old(disk)
      ensures generation == old(generation) + Signals(old(disk), disk)
    {
      Save(data, stored);
      if stored {
        SignalNewEvents(before, data.nextEvent);
      }
    }

    method Update(command: Ops.Command, times: Ops.Times, stored: bool)
      returns (refusal: Refusal, saveFailed: bool, granted: Option<string>)
      requires Ops.ValidSettings(settings) && Ops.Admissible(command)
      modifies this
      ensures Updates(old(disk), disk, command, settings, times, stored, refusal, saveFailed)
      ensures generation == old(generation) + Signals(old(disk), disk)
      ensures command.Create? && refusal.NoRefusal? ==>
                && granted.Some?
                && granted == Ops.Requested(Life.Prepare(old(disk), times.first, times.second, settings.reservationTimeout),
                                            command.request, command.newId, times)
    {
      hide LoaderAccepts, Ops.Mutate, Ops.Admissible, Life.Prepare, Life.Reconcile, Life.Snapshots, Life.NewEvents, Ops.Requested;
      var file := Load();
      if file == null {
        return UnsupportedState, false, None;
      }
      var before, eventSequence := Life.Snapshots(file.grants), file.nextEvent;
      var prepared := file.PrepareLifecycle(times.first, times.second, settings.reservationTimeout);
      var error;
      error, granted := file.Mutate(command, settings, times);
      var recorded := file.ReconcileLifecycle(before, settings.maxEvents);
      refusal := if error.Some? then Refused(error.value) else NoRefusal;
      if error.Some? {
        LoudUpdate(disk, command, settings, times);
      }
      if error.Some? && !prepared && !recorded {
        QuietUpdate(disk, command, settings, times);
        return refusal, false, None;
      }
      SaveAndSignal(file.Value(), stored, eventSequence);
      saveFailed := !stored;
    }

    // An accepted request is answered by reading the grant back, with a clock and a write of its own.
    method Request(request: Ops.Request, id: Option<string>, times: Ops.Times, stored: bool, again: Ops.Times, storedAgain: bool)
      returns (refusal: Refusal, saveFailed: bool, answer: Option<Answer<Grant>>, ghost middle: Data)
      requires Ops.ValidSettings(settings)
      modifies this
      ensures Ops.Normalize(request, settings).None? ==>
                refusal == Refused(Ops.InvalidRequest) && !saveFailed && answer.None? && middle == old(disk)
      ensures Ops.Normalize(request, settings).Some? ==>
                var normal := Ops.Normalize(request, settings).value;
                && Ops.Normal(normal)
                && Updates(old(disk), middle, Ops.Create(normal, id), settings, times, stored, refusal, saveFailed)
                && (answer.Some? <==> refusal.NoRefusal? && !saveFailed)
                && (answer.Some? ==>
                      var granted := Ops.Requested(Life.Prepare(old(disk), times.first, times.second, settings.reservationTimeout),
                                                   normal, id, times);
                      && granted.Some?
                      && Reads(middle, disk, Read, settings, again, storedAgain, data => GrantAt(data, granted.value), answer.value))
      ensures answer.None? ==> disk == middle
      ensures generation == old(generation) + Signals(old(disk), middle) + Signals(middle, disk)
    {
      hide LoaderAccepts, Ops.Normalize, Ops.Normal, Updates, Reads, Ops.Requested, Life.Prepare;
      middle := disk;
      var normal := Ops.Normalize(request, settings);
      if normal.None? {
        return Refused(Ops.InvalidRequest), false, None, disk;
      }
      Ops.NormalizeExactly(request, settings);
      var granted;
      refusal, saveFailed, granted := Update(Ops.Create(normal.value, id), times, stored);
      middle := disk;
      answer := None;
      if refusal.NoRefusal? && !saveFailed {
        var read := Get(granted.value, again, storedAgain);
        answer := Some(read);
      }
    }

    // Loads the state, expires what is due and, for the reads of uses, retains stale reservations.
    method Maintained(call: Call, times: Ops.Times) returns (file: FileData?, changed: bool)
      requires Ops.ValidSettings(settings) && (call == Read || call == Inspect)
      ensures (file != null) == LoaderAccepts(disk)
      ensures file != null ==>
                && fresh(file) && file.Value() == Performed(disk, call, times, settings)
                && (changed <==> file.Value() != disk)
    {
      hide LoaderAccepts, Life.Prepare, Life.ExpireDue, Life.Reconcile, Life.Snapshots, Life.NewEvents;
      file := Load();
      changed := false;
      if file == null {
        return;
      }
      var before := Life.Snapshots(file.grants);
      if call == Inspect {
        changed := file.PrepareLifecycle(times.first, times.second, settings.reservationTimeout);
      } else {
        changed := file.ExpireDue(times.first);
      }
      Ops.PrepareKeepsEvents(disk, times.first, times.second, settings.reservationTimeout);
      ExpiryKeepsEvents(disk, times.first);
      LoudState(disk, file.Value(), settings);
      var recorded := file.ReconcileLifecycle(before, settings.maxEvents);
      QuietState(disk, settings);
      changed := changed || recorded;
    }

    method SavePrepared(data: Data, changed: bool, stored: bool) returns (saveFailed: bool)
      requires changed <==> data != disk
      modifies this
      ensures disk == if stored then data else old(disk)
      ensures generation == old(generation) + Signals(old(disk), disk)
      ensures saveFailed <==> !stored && data != old(disk)
    {
      saveFailed := false;
      if changed {
        SaveAndSignal(data, stored, disk.nextEvent);
        saveFailed := !stored;
      }
    }

    method Get(id: string, times: Ops.Times, stored: bool) returns (answer: Answer<Grant>)
      requires Ops.ValidSettings(settings)
      modifies this
      ensures Reads(old(disk), disk, Read, settings, times, stored, data => GrantAt(data, id), answer)
      ensures generation == old(generation) + Signals(old(disk), disk)
    {
      hide LoaderAccepts, Performed;
      var file, changed := Maintained(Read, times);
      if file == null {
        return NotAnswered(UnsupportedRead);
      }
      var index := FindGrant(file.grants, id);
      if index.None? {
        return NotAnswered(UnknownRead);
      }
      var saveFailed := SavePrepared(file.Value(), changed, stored);
      return if saveFailed then NotAnswered(NotSaved) else Answered(file.grants[index.value]);
    }

    method GetUse(id: string, requestId: string, times: Ops.Times, stored: bool) returns (answer: Answer<(Grant, Use)>)
      requires Ops.ValidSettings(settings)
      modifies this
      ensures Reads(old(disk), disk, Inspect, settings, times, stored, data => UseAt(data, id, requestId), answer)
      ensures generation == old(generation) + Signals(old(disk), disk)
    {
      hide LoaderAccepts, Performed;
      var file, changed := Maintained(Inspect, times);
      if file == null {
        return NotAnswered(UnsupportedRead);
      }
      var index := FindGrant(file.grants, id);
      var k := FindUse(file.uses, requestId);
      if index.None? || k.None? || file.uses[k.value].grantId != id {
        return NotAnswered(UnknownRead);
      }
      var saveFailed := SavePrepared(file.Value(), changed, stored);
      return if saveFailed then NotAnswered(NotSaved) else Answered((file.grants[index.value], file.uses[k.value]));
    }

    method List(times: Ops.Times, stored: bool) returns (answer: Answer<seq<Grant>>)
      requires Ops.ValidSettings(settings)
      modifies this
      ensures Reads(old(disk), disk, Read, settings, times, stored, (data: Data) => Some(data.grants), answer)
      ensures generation == old(generation) + Signals(old(disk), disk)
    {
      hide LoaderAccepts, Performed;
      var file, changed := Maintained(Read, times);
      if file == null {
        return NotAnswered(UnsupportedRead);
      }
      var saveFailed := SavePrepared(file.Value(), changed, stored);
      return if saveFailed then NotAnswered(NotSaved) else Answered(file.grants);
    }

    method ReconcileDueLifecycle(times: Ops.Times, stored: bool) returns (loaded: bool, saveFailed: bool)
      requires Ops.ValidSettings(settings)
      modifies this
      ensures loaded == LoaderAccepts(old(disk))
      ensures !loaded ==> disk == old(disk) && !saveFailed
      ensures loaded ==>
                && disk == Step(old(disk), Entry(MeetDeadline, times, stored), settings)
                && (saveFailed <==> !stored && Performed(old(disk), MeetDeadline, times, settings) != old(disk))
      ensures generation == old(generation) + Signals(old(disk), disk)
    {
      hide LoaderAccepts, Life.Prepare, Life.Reconcile, Life.Snapshots, Life.NewEvents;
      var file := Load();
      if file == null {
        return false, false;
      }
      var before, eventSequence := Life.Snapshots(file.grants), file.nextEvent;
      var prepared := file.PrepareLifecycle(times.first, times.second, settings.reservationTimeout);
      Ops.PrepareKeepsEvents(disk, times.first, times.second, settings.reservationTimeout);
      if !prepared {
        QuietState(disk, settings);
        return true, false;
      }
      LoudState(disk, file.Value(), settings);
      var recorded := file.ReconcileLifecycle(before, settings.maxEvents);
      if !recorded {
        return true, false;
      }
      SaveAndSignal(file.Value(), stored, eventSequence);
      return true, !stored;
    }

    method ApplyOperatorDecision(command: Decision, correlation: string, check: Choice.Check, times: Ops.Times, stored: bool)
      returns (result: Choice.DecisionResult, refusal: DecisionRefusal, saveFailed: bool)
      requires Ops.ValidSettings(settings)
      modifies this
      ensures !Choice.ValidCommand(command, correlation) ==>
                result == Choice.NoResult && refusal == DecisionRefused(Choice.InvalidCommand) && !saveFailed && disk == old(disk)
      ensures Choice.ValidCommand(command, correlation) && !LoaderAccepts(old(disk)) ==>
                result == Choice.NoResult && refusal == UnsupportedDecisionState && !saveFailed && disk == old(disk)
      ensures Choice.ValidCommand(command, correlation) && LoaderAccepts(old(disk)) ==>
                Decides(old(disk), disk, Choice.Decide(old(disk), command, correlation, check, settings, times), stored,
                        result, refusal, saveFailed)
      ensures generation == old(generation) + Signals(old(disk), disk)
    {
      hide LoaderAccepts, Choice.ValidCommand, Choice.Prepared, Choice.Replay, Choice.Scope, Choice.CommitDecision, Choice.FindRecord;
      hide Choice.ApplyDecision;
      if !Choice.ValidCommand(command, correlation) {
        return Choice.NoResult, DecisionRefused(Choice.InvalidCommand), false;
      }
      var file, lifecycleChanged := PrepareOperatorDecision(times);
      if file == null {
        return Choice.NoResult, UnsupportedDecisionState, false;
      }
      Records.PreparedRecords(disk, settings, times);
      var found := FindDecisionRecord(file.records, Choice.Scope(command));
      if found.Some? {
        var (replayed, error) := Choice.Replay(found.value, command);
        saveFailed := SavePrepared(file.Value(), lifecycleChanged, stored);
        return replayed, if error.Some? then DecisionRefused(error.value) else DecisionTaken, saveFailed;
      }
      var index := FindGrant(file.grants, command.id);
      if index.None? {
        saveFailed := SavePrepared(file.Value(), lifecycleChanged, stored);
        return Choice.NoResult, DecisionRefused(Choice.UnknownGrant), saveFailed;
      }
      var current := file.grants[index.value];
      if command.expectedRevision != current.revision {
        saveFailed := SavePrepared(file.Value(), lifecycleChanged, stored);
        return Choice.Result(current, current, None, false), DecisionRefused(Choice.RevisionConflict), saveFailed;
      }
      result, refusal, saveFailed :=
        CommitOperatorDecision(file, lifecycleChanged, index.value, command, correlation, check, times, stored);
    }

    method PrepareOperatorDecision(times: Ops.Times) returns (file: FileData?, lifecycleChanged: bool)
      requires Ops.ValidSettings(settings)
      ensures (file != null) == LoaderAccepts(disk)
      ensures file != null ==>
                && fresh(file) && file.Value() == Choice.Prepared(disk, settings, times)
                && (lifecycleChanged <==> file.Value() != disk)
    {
      hide LoaderAccepts, Life.Prepare, Life.Reconcile, Life.Snapshots;
      file := Load();
      lifecycleChanged := false;
      if file != null {
        var before := Life.Snapshots(file.grants);
        lifecycleChanged := file.PrepareLifecycle(times.first, times.second, settings.reservationTimeout);
        if lifecycleChanged {
          Ops.PrepareKeepsEvents(disk, times.first, times.second, settings.reservationTimeout);
          LoudState(disk, file.Value(), settings);
          var _ := file.ReconcileLifecycle(before, settings.maxEvents);
        }
      }
    }

    method CommitOperatorDecision(file: FileData, lifecycleChanged: bool, index: nat, command: Decision, correlation: string,
                                  check: Choice.Check, times: Ops.Times, stored: bool)
      returns (result: Choice.DecisionResult, refusal: DecisionRefusal, saveFailed: bool)
      requires Ops.ValidSettings(settings) && index < |file.grants|
      requires file.Value() == Choice.Prepared(disk, settings, times)
      requires lifecycleChanged <==> file.Value() != disk
      modifies this, file
      ensures Decides(old(disk), disk, Choice.CommitDecision(old(disk), index, command, correlation, check, settings, times), stored,
                      result, refusal, saveFailed)
      ensures generation == old(generation) + Signals(old(disk), disk)
    {
      hide Life.Prepare, Life.Reconcile, Life.Snapshots, Choice.ApplyDecision, Choice.RecordOf, Choice.CurrentCursor;
      hide Choice.Prepared, Choice.CommitDecision;
      PreparedUnchanged(disk, settings, times);
      OutcomeOfCommit(disk, index, command, correlation, check, settings, times);
      ghost var prepared := file.Value();
      var current, before := file.grants[index], Life.Snapshots(disk.grants);
      var (updated, error) := Choice.ApplyDecision(current, command, correlation, check, times.third);
      refusal := if error.Some? then DecisionRefused(error.value) else DecisionTaken;
      if error.Some? && updated.status != Failed {
        saveFailed := SavePrepared(file.Value(), lifecycleChanged, stored);
        return Choice.Result(current, current, None, false), refusal, saveFailed;
      }
      file.grants := file.grants[index := updated];
      if lifecycleChanged {
        before := before[current.id := current];
      }
      var _ := file.ReconcileLifecycle(before, settings.maxEvents);
      assert file.Value() == Choice.Commit(disk, prepared, index, updated, settings, times);
      var cursor := Choice.CurrentCursor(file.Value());
      result := Choice.Result(file.grants[index], current, cursor, false);
      file.records := file.records + [Choice.RecordOf(command, file.grants[index], current, cursor, error)];
      SaveAndSignal(file.Value(), stored, disk.nextEvent);
      saveFailed := !stored;
      if saveFailed {
        return Choice.NoResult, DecisionTaken, saveFailed;
      }
    }
  }

  lemma OutcomeOfCommit(data: Data, index: nat, command: Decision, correlation: string, check: Choice.Check,
                        settings: Ops.Settings, times: Ops.Times)
    requires Ops.ValidSettings(settings) && index < |Choice.Prepared(data, settings, times).grants|
    ensures var prepared := Choice.Prepared(data, settings, times);
            var current := prepared.grants[index];
            var (updated, error) := Choice.ApplyDecision(current, command, correlation, check, times.third);
            var outcome := Choice.CommitDecision(data, index, command, correlation, check, settings, times);
            if error.Some? && updated.status != Failed then
              outcome == Choice.Outcome(prepared, Choice.Result(current, current, None, false), error)
              && prepared.records == data.records
            else
              var after := Choice.Commit(data, prepared, index, updated, settings, times);
              && index < |after.grants| && outcome.data.records != data.records
              && outcome == Choice.Outcome(
                              after.(records := after.records
                                                + [Choice.RecordOf(command, after.grants[index], current, Choice.CurrentCursor(after), error)]),
                              Choice.Result(after.grants[index], current, Choice.CurrentCursor(after), false), error)
  {
    hide Choice.ApplyDecision, Choice.RecordOf, Choice.CurrentCursor, Choice.Prepared, Choice.Commit;
    var prepared := Choice.Prepared(data, settings, times);
    Records.PreparedRecords(data, settings, times);
    var updated := Choice.ApplyDecision(prepared.grants[index], command, correlation, check, times.third).0;
    Records.CommitRecords(data, prepared, index, updated, settings, times);
  }

  lemma {:induction false} RecordFrom(records: seq<Record>, scope: string, i: nat)
    requires i <= |records| && forall j :: 0 <= j < i ==> records[j].scope != scope
    ensures Choice.FindRecord(records, scope) == Choice.FindRecord(records[i..], scope)
  {
    if i == 0 {
      assert records[0..] == records;
    } else {
      RecordFrom(records[1..], scope, i - 1);
      assert records[1..][i - 1..] == records[i..];
    }
  }

  method FindDecisionRecord(records: seq<Record>, scope: string) returns (found: Option<Record>)
    ensures found == Choice.FindRecord(records, scope)
  {
    for i := 0 to |records|
      invariant forall j :: 0 <= j < i ==> records[j].scope != scope
    {
      if records[i].scope == scope {
        RecordFrom(records, scope, i);
        return Some(records[i]);
      }
    }
    RecordFrom(records, scope, |records|);
    return None;
  }

  // --- What is not saved was not changed.

  lemma QuietState(data: Data, settings: Ops.Settings)
    requires Ops.ValidSettings(settings) && LoaderAccepts(data)
    ensures Life.NewEvents(data.grants, Life.Snapshots(data.grants), data.nextEvent) == []
    ensures Life.Reconcile(data, Life.Snapshots(data.grants), settings.maxEvents) == data
  {
    hide Life.Snapshots, Life.NewEvents, Life.ReviseAll, LoadedGrant, LoadedUseAt, Counted;
    Life.SnapshotsOfSelf(data.grants);
    Life.UnchangedHasNoEvents(data.grants, Life.Snapshots(data.grants), data.nextEvent);
  }

  lemma QuietExpiry(data: Data, now: Time, next: nat)
    requires DistinctGrants(data.grants)
    requires Life.NewEvents(Life.ExpireGrants(data.grants, now), Life.Snapshots(data.grants), next) == []
    ensures Life.ExpireDue(data, now) == data
  {
    hide Life.Snapshots, Life.NewEvents;
    var expired := Life.ExpireGrants(data.grants, now);
    Life.SnapshotsOfSelf(data.grants);
    forall i | 0 <= i < |expired| ensures expired[i] == data.grants[i] {
      assert Life.Previous(Life.Snapshots(data.grants), data.grants[i].id) == Some(data.grants[i]);
      Life.NoEventsNoKinds(expired, Life.Snapshots(data.grants), next, i);
    }
  }

  lemma RefusedIsExpired(data: Data, command: Ops.Command, settings: Ops.Settings, times: Ops.Times)
    requires Ops.ValidSettings(settings) && Ops.Admissible(command)
    requires Ops.Mutate(data, command, settings, times).error.Some?
    ensures var after := Ops.Mutate(data, command, settings, times).data;
            after == data || after == Life.ExpireDue(data, times.third)
  {
    hide Ops.Normal, ValidUseIdentity, Ops.FindIdempotent, Ops.HasCapacity, Ops.SameRequest, Ops.CanUse, Tally, GrantIndex, UseIndex;
    hide Life.Append, Life.ExpireDue;
  }

  lemma QuietUpdate(data: Data, command: Ops.Command, settings: Ops.Settings, times: Ops.Times)
    requires Ops.ValidSettings(settings) && Ops.Admissible(command) && LoaderAccepts(data)
    requires Life.Prepare(data, times.first, times.second, settings.reservationTimeout) == data
    requires Ops.Mutate(data, command, settings, times).error.Some?
    requires var changed := Ops.Mutate(data, command, settings, times).data;
             Life.NewEvents(changed.grants, Life.Snapshots(data.grants), changed.nextEvent) == []
    ensures Ops.Update(data, command, settings, times).data == data
  {
    hide Ops.Mutate, Ops.Admissible, Life.Prepare, Life.Reconcile, Life.Snapshots, Life.NewEvents, Life.ExpireGrants;
    hide LoadedGrant, LoadedUseAt, Counted;
    RefusedIsExpired(data, command, settings, times);
    var changed := Ops.Mutate(data, command, settings, times).data;
    if changed != data {
      QuietExpiry(data, times.third, changed.nextEvent);
    }
    QuietState(data, settings);
  }

  // Preparation that changes nothing leaves nothing to reconcile, and the other way round.
  lemma PreparedUnchanged(data: Data, settings: Ops.Settings, times: Ops.Times)
    requires Ops.ValidSettings(settings)
    ensures Life.Prepare(data, times.first, times.second, settings.reservationTimeout) == data <==>
              Choice.Prepared(data, settings, times) == data
  {
    hide Life.Prepare, Life.Reconcile;
    Ops.PrepareKeepsEvents(data, times.first, times.second, settings.reservationTimeout);
    LoudState(data, Life.Prepare(data, times.first, times.second, settings.reservationTimeout), settings);
  }

  // --- What is saved was changed.

  // Reconciliation cannot undo a change, and what it records shows.
  lemma LoudState(data: Data, changed: Data, settings: Ops.Settings)
    requires Ops.ValidSettings(settings) && changed.nextEvent == data.nextEvent
    ensures Life.Reconcile(changed, Life.Snapshots(data.grants), settings.maxEvents) == data ==>
              changed == data && Life.NewEvents(changed.grants, Life.Snapshots(data.grants), changed.nextEvent) == []
    ensures Life.NewEvents(changed.grants, Life.Snapshots(data.grants), changed.nextEvent) == [] ==>
              Life.Reconcile(changed, Life.Snapshots(data.grants), settings.maxEvents) == changed
  {
    hide Life.Snapshots, Life.NewEvents, Life.Kinds;
    var before := Life.Snapshots(data.grants);
    if Life.NewEvents(changed.grants, before, changed.nextEvent) == [] {
      forall i | 0 <= i < |changed.grants| ensures Life.Kinds(Life.Previous(before, changed.grants[i].id), changed.grants[i]) == [] {
        Life.NoEventsNoKinds(changed.grants, before, changed.nextEvent, i);
      }
      assert Life.ReviseAll(changed.grants, before) == changed.grants;
    }
  }

  lemma ExpiryKeepsEvents(data: Data, now: Time)
    ensures Life.ExpireDue(data, now).nextEvent == data.nextEvent
  {
  }

  // Expiring again does not undo what preparation did.
  lemma ExpiryAfterPreparation(data: Data, times: Ops.Times, timeout: nat)
    ensures Life.ExpireDue(Life.Prepare(data, times.first, times.second, timeout), times.third) == data ==>
              Life.Prepare(data, times.first, times.second, timeout) == data
  {
    hide Life.StaleUses, Life.RetainUses, Tally;
    var prepared := Life.Prepare(data, times.first, times.second, timeout);
    var expired := Life.ExpireDue(prepared, times.third);
    if expired == data {
      forall i | 0 <= i < |data.grants| ensures prepared.grants[i] == data.grants[i] {
        assert expired.grants[i] == Life.ExpireGrant(prepared.grants[i], times.third);
        assert prepared.grants[i].status == Life.ExpireGrant(data.grants[i], times.first).status;
      }
      assert prepared.grants == data.grants;
    }
  }

  lemma LoudUpdate(data: Data, command: Ops.Command, settings: Ops.Settings, times: Ops.Times)
    requires Ops.ValidSettings(settings) && Ops.Admissible(command)
    requires var prepared := Life.Prepare(data, times.first, times.second, settings.reservationTimeout);
             Ops.Mutate(prepared, command, settings, times).error.Some?
    ensures Ops.Update(data, command, settings, times).data == data ==>
              var prepared := Life.Prepare(data, times.first, times.second, settings.reservationTimeout);
              var changed := Ops.Mutate(prepared, command, settings, times).data;
              && prepared == data
              && Life.NewEvents(changed.grants, Life.Snapshots(data.grants), changed.nextEvent) == []
  {
    hide Ops.Mutate, Ops.Admissible, Life.Prepare, Life.Reconcile, Life.Snapshots, Life.NewEvents, Life.ExpireDue;
    var prepared := Life.Prepare(data, times.first, times.second, settings.reservationTimeout);
    var changed := Ops.Mutate(prepared, command, settings, times).data;
    RefusedIsExpired(prepared, command, settings, times);
    Ops.PrepareKeepsEvents(data, times.first, times.second, settings.reservationTimeout);
    ExpiryKeepsEvents(prepared, times.third);
    LoudState(data, changed, settings);
    ExpiryAfterPreparation(data, times, settings.reservationTimeout);
  }
}
