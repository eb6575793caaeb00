// Decisions on a grant whose activation has failed: no step changes such a grant again, but every
// command at its revision with a fresh key is refused and nevertheless recorded as committed.
module GrantFailures {
  import opened Options
  import opened Text
  import opened GrantData
  import opened GrantLifecycle
  import opened GrantOperations
  import opened GrantDecisions
  import opened GrantEvolution
  import opened GrantRecords
  import opened GrantRuns

  // --- A failed grant stays exactly as it is.

  ghost predicate Rests(a: seq<Grant>, b: seq<Grant>) {
    |a| <= |b| && forall i :: 0 <= i < |a| && a[i].status == Failed ==> b[i] == a[i]
  }

  lemma RetainedRests(data: Data, earlier: Time, now: Time, timeout: nat)
    requires Coherent(data, earlier)
    ensures Rests(data.grants, RetainStale(data, now, timeout).grants)
  {
    hide UsesKept, RetainUses, Formed, Narrowed, Tally, RevisionTotal, StaleUses;
    forall i | 0 <= i < |data.grants| && data.grants[i].status == Failed
      ensures RetainStale(data, now, timeout).grants[i] == data.grants[i]
    {
      assert GrantKept(data.grants[i], data.uses);
      TallyOfRetained(data.grants[i].id, data.uses, data.grants, now, timeout);
    }
  }

  lemma PrepareRests(data: Data, earlier: Time, times: Times, timeout: nat)
    requires Ordered(times) && Coherent(data, earlier) && earlier <= times.first
    ensures Rests(data.grants, Prepare(data, times.first, times.second, timeout).grants)
  {
    hide Coherent, RetainStale;
    ExpireDueKeeps(data, earlier, times.first);
    RetainedRests(ExpireDue(data, times.first), times.first, times.second, timeout);
  }

  lemma MutateRests(data: Data, command: Command, settings: Settings, times: Times)
    requires ValidSettings(settings) && Admissible(command)
    ensures Rests(data.grants, Mutate(data, command, settings, times).data.grants)
  {
    hide Normal, ValidUseIdentity, FindIdempotent, SameRequest, HasCapacity, Reserving, Settling;
  }

  // Reconciliation numbers a grant only if it differs from what it is compared with.
  lemma ReviseRests(before: seq<Grant>, changed: seq<Grant>, compared: map<string, Grant>)
    requires Rests(before, changed)
    requires forall i :: 0 <= i < |before| && before[i].status == Failed ==> Previous(compared, before[i].id) == Some(before[i])
    ensures Rests(before, ReviseAll(changed, compared))
  {
  }

  lemma ReconcileRests(before: seq<Grant>, changed: Data, limit: nat)
    requires DistinctGrants(before) && Rests(before, changed.grants)
    ensures Rests(before, Reconcile(changed, Snapshots(before), limit).grants)
  {
    hide Snapshots, ReviseAll;
    SnapshotsOfSelf(before);
    ReviseRests(before, changed.grants, Snapshots(before));
    ReconciledGrants(changed, Snapshots(before), limit);
  }

  lemma UpdateRests(data: Data, now: Time, command: Command, settings: Settings, times: Times)
    requires ValidSettings(settings) && Admissible(command) && Ordered(times) && Kept(data, now) && now <= times.first
    ensures Rests(data.grants, Update(data, command, settings, times).data.grants)
  {
    hide Coherent, Admissible, Prepare, Mutate, Reconcile, Snapshots, EventsKept;
    var prepared := Prepare(data, times.first, times.second, settings.reservationTimeout);
    PrepareRests(data, now, times, settings.reservationTimeout);
    MutateRests(prepared, command, settings, times);
    CoherentIsDistinct(data, now);
    ReconcileRests(data.grants, Mutate(prepared, command, settings, times).data, settings.maxEvents);
  }

  lemma PreparedRests(data: Data, now: Time, settings: Settings, times: Times)
    requires ValidSettings(settings) && Ordered(times) && Kept(data, now) && now <= times.first
    ensures Rests(data.grants, Prepared(data, settings, times).grants)
  {
    hide Coherent, Prepare, Reconcile, Snapshots, EventsKept;
    PrepareRests(data, now, times, settings.reservationTimeout);
    CoherentIsDistinct(data, now);
    ReconcileRests(data.grants, Prepare(data, times.first, times.second, settings.reservationTimeout), settings.maxEvents);
  }

  lemma CommitRests(data: Data, now: Time, index: nat, updated: Grant, settings: Settings, times: Times)
    requires ValidSettings(settings) && Ordered(times) && Kept(data, now) && now <= times.first
    requires var prepared := Prepared(data, settings, times);
             && index < |prepared.grants| && updated.id == prepared.grants[index].id
             && (prepared.grants[index].status == Failed ==> updated == prepared.grants[index])
    ensures Rests(data.grants, Commit(data, Prepared(data, settings, times), index, updated, settings, times).grants)
  {
    hide Prepared, Prepare, Snapshots, ReviseAll, Reconcile, EventsKept;
    var prepared := Prepared(data, settings, times);
    PreparedRests(data, now, settings, times);
    SnapshotsOfSelf(data.grants);
    var compared := Baseline(data, prepared.grants[index], settings, times);
    var replaced := prepared.grants[index := updated];
    BaselineOfFailed(data, now, index, settings, times);
    ReviseRests(data.grants, replaced, compared);
    ReconciledGrants(prepared.(grants := replaced), compared, settings.maxEvents);
  }

  lemma BaselineOfFailed(data: Data, now: Time, index: nat, settings: Settings, times: Times)
    requires ValidSettings(settings) && Ordered(times) && Kept(data, now) && now <= times.first
    requires index < |Prepared(data, settings, times).grants|
    ensures forall i :: 0 <= i < |data.grants| && data.grants[i].status == Failed ==>
              Previous(Baseline(data, Prepared(data, settings, times).grants[index], settings, times), data.grants[i].id)
              == Some(data.grants[i])
  {
    hide Coherent, Prepared, Prepare, Snapshots, EventsKept;
    var prepared := Prepared(data, settings, times);
    PreparedRests(data, now, settings, times);
    PreparedKeeps(data, now, settings, times);
    CoherentIsDistinct(data, now);
    CoherentIsDistinct(prepared, times.second);
    SnapshotsOfSelf(data.grants);
  }

  lemma DecideRests(data: Data, now: Time, command: Decision, correlation: string, check: Check, settings: Settings, times: Times)
    requires ValidSettings(settings) && Ordered(times) && Kept(data, now) && now <= times.first
    ensures Rests(data.grants, Decide(data, command, correlation, check, settings, times).data.grants)
  {
    hide Kept, Prepared, Commit, ApplyDecision, Replay, Scope, CurrentCursor;
    var prepared := Prepared(data, settings, times);
    PreparedRests(data, now, settings, times);
    var index := GrantIndex(prepared.grants, command.id);
    if index.Some? {
      var current := prepared.grants[index.value];
      var (updated, error) := ApplyDecision(current, command, correlation, check, times.third);
      ApplyDecisionMoves(current, command, correlation, check, times.third);
      ApplyDecisionIdentity(current, command, correlation, check, times.third);
      if error.None? || updated.status == Failed {
        CommitRests(data, now, index.value, updated, settings, times);
      }
    }
  }

  lemma MaintenanceRests(data: Data, now: Time, call: Call, settings: Settings, times: Times)
    requires ValidSettings(settings) && Ordered(times) && Kept(data, now) && now <= times.first
    requires call == Read || call == Inspect || call == MeetDeadline
    ensures Rests(data.grants, Performed(data, call, times, settings).grants)
  {
    hide Coherent, Prepare, Reconcile, Snapshots, EventsKept, NewEvents;
    PrepareRests(data, now, times, settings.reservationTimeout);
    CoherentIsDistinct(data, now);
    ReconcileRests(data.grants, Prepare(data, times.first, times.second, settings.reservationTimeout), settings.maxEvents);
    ReconcileRests(data.grants, ExpireDue(data, times.first), settings.maxEvents);
  }

  lemma StepRests(data: Data, now: Time, entry: Entry, settings: Settings)
    requires ValidSettings(settings) && AtRest(data, now) && Legal(data, entry, now)
    ensures Rests(data.grants, Step(data, entry, settings).grants)
  {
    hide Kept, RecordsKept, Admissible, Fresh, ValidCommand, Update, Decide, DeadlineMet, Reconcile;
    match entry.call {
      case Change(command) => UpdateRests(data, now, command, settings, entry.times);
      case DecideBy(decision, correlation, check) =>
        DecideRests(data, now, decision, correlation, check, settings, entry.times);
      case _ => MaintenanceRests(data, now, entry.call, settings, entry.times);
    }
  }

  // No run changes a failed grant in any field.
  lemma {:induction false} RunRests(data: Data, run: seq<Entry>, now: Time, settings: Settings)
    requires ValidSettings(settings) && AtRest(data, now) && LegalRun(data, run, now, settings)
    ensures Rests(data.grants, After(data, run, now, settings).grants)
    decreases |run|
  {
    hide AtRest, Allowed, Evolves, Step, Fresh, ValidCommand;
    if run != [] {
      StepKeeps(data, now, run[0], settings);
      StepRests(data, now, run[0], settings);
      RunRests(Step(data, run[0], settings), run[1..], run[0].times.fourth, settings);
    }
  }

  // --- A command at the revision of a failed grant.

  // The command is refused, and yet it is recorded as committed at that revision with the grant
  // unchanged, and repeating it reports success.
  lemma FailedGrantTakesDecision(data: Data, now: Time, index: nat, command: Decision, correlation: string, check: Check,
                                 settings: Settings, times: Times)
    requires ValidSettings(settings) && Ordered(times) && AtRest(data, now) && now <= times.first
    requires GrantIndex(data.grants, command.id) == Some(index) && data.grants[index].status == Failed
    requires command.expectedRevision == data.grants[index].revision && FindRecord(data.records, Scope(command)).None?
    ensures var outcome := Decide(data, command, correlation, check, settings, times);
            && outcome.error == Some(InvalidTransition)
            && Commits(data, command, correlation, check, settings, times)
            && Logged(data.records, outcome, command)
            && index < |outcome.data.grants| && outcome.data.grants[index] == data.grants[index]
            && var record := outcome.data.records[|data.records|];
               record.previous == record.result == data.grants[index] && Replay(record, command).1.None?
  {
    hide Scope, Kept, RecordsKept, Prepared, CommitDecision, ApplyDecision, FindRecord, Logged, Writes, Decide;
    PreparedRecords(data, settings, times);
    FailedStaysPrepared(data, now, index, command.id, settings, times);
    DecideReachesCommit(data, index, command, correlation, check, settings, times);
    FailedIsCommitted(data, now, index, command, correlation, check, settings, times);
    DecisionIsLogged(data, command, correlation, check, settings, times);
    ReplayOfRefusal(command, data.grants[index], data.records, Decide(data, command, correlation, check, settings, times));
  }

  lemma DecideReachesCommit(data: Data, index: nat, command: Decision, correlation: string, check: Check,
                            settings: Settings, times: Times)
    requires ValidSettings(settings)
    requires var prepared := Prepared(data, settings, times);
             && FindRecord(prepared.records, Scope(command)).None? && GrantIndex(prepared.grants, command.id) == Some(index)
             && command.expectedRevision == prepared.grants[index].revision
    ensures Decide(data, command, correlation, check, settings, times)
            == CommitDecision(data, index, command, correlation, check, settings, times)
  {
    hide Prepared, CommitDecision, Scope;
  }

  lemma FailedStaysPrepared(data: Data, now: Time, index: nat, id: string, settings: Settings, times: Times)
    requires ValidSettings(settings) && Ordered(times) && Kept(data, now) && now <= times.first
    requires GrantIndex(data.grants, id) == Some(index) && data.grants[index].status == Failed
    ensures var prepared := Prepared(data, settings, times);
            GrantIndex(prepared.grants, id) == Some(index) && prepared.grants[index] == data.grants[index]
  {
    hide Kept, Prepared, Evolves;
    PreparedRests(data, now, settings, times);
    PreparedEvolves(data, now, settings, times);
    IndexEvolves(data.grants, Prepared(data, settings, times).grants, id);
  }

  lemma ReplayOfRefusal(command: Decision, grant: Grant, records: seq<Record>, outcome: DecisionOutcome)
    requires Writes(records, outcome, command, grant)
    ensures |outcome.data.records| == |records| + 1
    ensures var record := outcome.data.records[|records|];
            record.command == command && record.previous == grant && record.result == grant && Replay(record, command).1.None?
  {
    hide Scope, CurrentCursor;
  }

  lemma FailedIsCommitted(data: Data, now: Time, index: nat, command: Decision, correlation: string, check: Check,
                          settings: Settings, times: Times)
    requires ValidSettings(settings) && Ordered(times) && Kept(data, now) && now <= times.first
    requires index < |Prepared(data, settings, times).grants| && index < |data.grants|
    requires data.grants[index].status == Failed && Prepared(data, settings, times).grants[index] == data.grants[index]
    ensures var outcome := CommitDecision(data, index, command, correlation, check, settings, times);
            && outcome.error == Some(InvalidTransition)
            && index < |outcome.data.grants| && outcome.data.grants[index] == data.grants[index]
            && Writes(data.records, outcome, command, data.grants[index])
  {
    hide Scope, Kept, Prepared, Commit, ApplyDecision, CurrentCursor, RecordOf, Rests;
    var prepared := Prepared(data, settings, times);
    PreparedRecords(data, settings, times);
    FailedIsRefused(prepared.grants[index], command, correlation, check, times.third);
    FailedIsUnchanged(data, now, index, settings, times);
  }

  // The outcome adds the record of a refusal that left the grant as it was.
  predicate Writes(records: seq<Record>, outcome: DecisionOutcome, command: Decision, grant: Grant) {
    outcome.result.Result?
    && outcome.data.records
       == records + [RecordOf(command, grant, grant, outcome.result.cursor, Some(InvalidTransition))]
  }

  lemma FailedIsUnchanged(data: Data, now: Time, index: nat, settings: Settings, times: Times)
    requires ValidSettings(settings) && Ordered(times) && Kept(data, now) && now <= times.first
    requires index < |Prepared(data, settings, times).grants| && index < |data.grants|
    requires data.grants[index].status == Failed && Prepared(data, settings, times).grants[index] == data.grants[index]
    ensures var prepared := Prepared(data, settings, times);
            var after := Commit(data, prepared, index, prepared.grants[index], settings, times);
            && index < |after.grants| && after.grants[index] == data.grants[index]
            && after.records == data.records
  {
    hide Kept, Prepared, Commit;
    var prepared := Prepared(data, settings, times);
    PreparedRecords(data, settings, times);
    CommitRecords(data, prepared, index, prepared.grants[index], settings, times);
    CommitRests(data, now, index, prepared.grants[index], settings, times);
    assert Rests(data.grants, Commit(data, prepared, index, prepared.grants[index], settings, times).grants);
  }

  lemma FailedIsRefused(grant: Grant, command: Decision, correlation: string, check: Check, now: Time)
    requires grant.status == Failed
    ensures ApplyDecision(grant, command, correlation, check, now) == (grant, Some(InvalidTransition))
  {
  }

  // The grant that a committed decision returns is the stored one.
  lemma CommittedGrantIsStored(data: Data, now: Time, command: Decision, correlation: string, check: Check,
                               settings: Settings, times: Times)
    requires ValidSettings(settings) && Ordered(times) && AtRest(data, now) && now <= times.first
    requires Commits(data, command, correlation, check, settings, times)
    ensures var outcome := Decide(data, command, correlation, check, settings, times);
            var index := GrantIndex(outcome.data.grants, command.id);
            outcome.result.Result? && index.Some? && outcome.data.grants[index.value] == outcome.result.grant
  {
    hide Scope, Kept, RecordsKept, Prepared, Commit, ApplyDecision, CurrentCursor, Evolves, Replay;
    var prepared := Prepared(data, settings, times);
    PreparedRecords(data, settings, times);
    var index := GrantIndex(prepared.grants, command.id).value;
    var updated := ApplyDecision(prepared.grants[index], command, correlation, check, times.third).0;
    ApplyDecisionMoves(prepared.grants[index], command, correlation, check, times.third);
    ApplyDecisionIdentity(prepared.grants[index], command, correlation, check, times.third);
    ApplyStaysInOrder(data, now, index, updated, command, correlation, check, settings, times);
    IndexEvolves(prepared.grants, Commit(data, prepared, index, updated, settings, times).grants, command.id);
  }

  lemma ApplyStaysInOrder(data: Data, now: Time, index: nat, updated: Grant, command: Decision, correlation: string,
                          check: Check, settings: Settings, times: Times)
    requires ValidSettings(settings) && Ordered(times) && AtRest(data, now) && now <= times.first
    requires var prepared := Prepared(data, settings, times);
             index < |prepared.grants| && updated == ApplyDecision(prepared.grants[index], command, correlation, check, times.third).0
    ensures var prepared := Prepared(data, settings, times);
            Evolves(prepared.grants, Commit(data, prepared, index, updated, settings, times).grants)
  {
    hide Kept, RecordsKept, Prepared, Commit, ApplyDecision, Evolves, GrantEvolves, GrantKept;
    var prepared := Prepared(data, settings, times);
    PreparedKeeps(data, now, settings, times);
    CurrentIsKept(prepared, times.second, index);
    ApplyDecisionEvolves(prepared.grants[index], prepared.uses, command, correlation, check, times.third);
    ApplyDecisionIdentity(prepared.grants[index], command, correlation, check, times.third);
    CommitEvolves(data, now, index, updated, settings, times);
  }

  // --- When a second decision commits at one revision.

  predicate CommitsBy(data: Data, entry: Entry, settings: Settings)
    requires ValidSettings(settings) && entry.call.DecideBy?
  {
    Commits(data, entry.call.decision, entry.call.correlation, entry.call.check, settings, entry.times)
  }

  function OutcomeBy(data: Data, entry: Entry, settings: Settings): DecisionOutcome
    requires ValidSettings(settings) && entry.call.DecideBy?
  {
    Decide(data, entry.call.decision, entry.call.correlation, entry.call.check, settings, entry.times)
  }

  // After a decision has committed and any run of further calls, another one at the same revision with
  // a fresh key commits if and only if the grant had already failed when the first one was taken.
  lemma SecondCommitExactly(data: Data, now: Time, first: Entry, run: seq<Entry>, second: Entry, settings: Settings)
    requires ValidSettings(settings) && AtRest(data, now)
    requires Legal(data, first, now) && first.call.DecideBy? && first.stored && CommitsBy(data, first, settings)
    requires LegalRun(Step(data, first, settings), run, first.times.fourth, settings)
    requires var later := After(Step(data, first, settings), run, first.times.fourth, settings);
             && Legal(later, second, LastTime(run, first.times.fourth)) && second.call.DecideBy?
             && FindRecord(later.records, Scope(second.call.decision)).None?
    requires second.call.decision.id == first.call.decision.id
    requires second.call.decision.expectedRevision == first.call.decision.expectedRevision
    ensures var outcome := OutcomeBy(data, first, settings);
            var later := After(Step(data, first, settings), run, first.times.fourth, settings);
            outcome.result.Result? && (CommitsBy(later, second, settings) <==> outcome.result.previous.status == Failed)
  {
    hide AtRest, LegalRun, After, Decide, Evolves, Step, ValidCommand, Scope, FindRecord, Rests, Logged;
    var next := Step(data, first, settings);
    var later := After(next, run, first.times.fourth, settings);
    StoredDecision(data, first, settings);
    StepKeeps(data, now, first, settings);
    RunKeeps(next, run, first.times.fourth, settings);
    DecisionIsLogged(data, first.call.decision, first.call.correlation, first.call.check, settings, first.times);
    FirstCommit(data, now, first, settings);
    if CommitsBy(later, second, settings) {
      BothFailed(data.records, OutcomeBy(data, first, settings), first.call.decision, later,
                 LastTime(run, first.times.fourth), second, settings);
    }
    if OutcomeBy(data, first, settings).result.previous.status == Failed {
      RunRests(next, run, first.times.fourth, settings);
      SecondCommits(next, later, LastTime(run, first.times.fourth), second, settings);
    }
  }

  // The first commit, when the grant had failed, leaves it failed at the same revision.
  lemma FirstCommit(data: Data, now: Time, first: Entry, settings: Settings)
    requires ValidSettings(settings) && AtRest(data, now)
    requires Legal(data, first, now) && first.call.DecideBy? && CommitsBy(data, first, settings)
    ensures var outcome := OutcomeBy(data, first, settings);
            var index := GrantIndex(outcome.data.grants, first.call.decision.id);
            && outcome.result.Result? && index.Some?
            && (outcome.result.previous.status == Failed ==>
                  && outcome.data.grants[index.value].status == Failed
                  && outcome.data.grants[index.value].revision == first.call.decision.expectedRevision)
  {
    hide Kept, RecordsKept, Decide, Evolves, ValidCommand, Scope, Logged;
    var command, correlation, check := first.call.decision, first.call.correlation, first.call.check;
    DecideKeepsRecords(data, now, command, correlation, check, settings, first.times);
    DecisionIsLogged(data, command, correlation, check, settings, first.times);
    CommittedGrantIsStored(data, now, command, correlation, check, settings, first.times);
    LoggedFailure(data.records, OutcomeBy(data, first, settings), command);
  }

  lemma LoggedFailure(records: seq<Record>, outcome: DecisionOutcome, command: Decision)
    requires Logged(records, outcome, command) && RecordsKept(outcome.data.records, outcome.data.grants)
    ensures outcome.result.Result?
    ensures outcome.result.previous.status == Failed ==>
              outcome.result.grant.status == Failed && outcome.result.grant.revision == command.expectedRevision
  {
    hide Compatible, Scope, GrantEvolves, FindRecord;
    assert RecordKept(outcome.data.records[|records|], outcome.data.grants);
  }

  lemma BothFailed(records: seq<Record>, outcome: DecisionOutcome, command: Decision,
                   later: Data, now: Time, second: Entry, settings: Settings)
    requires ValidSettings(settings) && AtRest(later, now) && Legal(later, second, now) && second.call.DecideBy?
    requires Logged(records, outcome, command) && outcome.data.records <= later.records
    requires second.call.decision.id == command.id && second.call.decision.expectedRevision == command.expectedRevision
    requires CommitsBy(later, second, settings)
    ensures outcome.result.Result? && outcome.result.previous.status == Failed
  {
    hide Kept, RecordKept, Decide, Evolves, ValidCommand, Scope, FindRecord;
    var decision, correlation, check := second.call.decision, second.call.correlation, second.call.check;
    var after := Decide(later, decision, correlation, check, settings, second.times).data;
    DecisionIsLogged(later, decision, correlation, check, settings, second.times);
    DecideKeepsRecords(later, now, decision, correlation, check, settings, second.times);
    assert after.records[|records|] == outcome.data.records[|records|];
    assert Compatible(after.records[|records|], after.records[|later.records|]);
  }

  lemma SecondCommits(next: Data, later: Data, now: Time, second: Entry, settings: Settings)
    requires ValidSettings(settings) && AtRest(later, now) && Legal(later, second, now) && second.call.DecideBy?
    requires Rests(next.grants, later.grants) && Evolves(next.grants, later.grants)
    requires FindRecord(later.records, Scope(second.call.decision)).None?
    requires var index := GrantIndex(next.grants, second.call.decision.id);
             && index.Some? && next.grants[index.value].status == Failed
             && next.grants[index.value].revision == second.call.decision.expectedRevision
    ensures CommitsBy(later, second, settings)
  {
    hide AtRest, Decide, Commits, ValidCommand, Scope, FindRecord, Evolves;
    var decision, correlation, check := second.call.decision, second.call.correlation, second.call.check;
    IndexEvolves(next.grants, later.grants, decision.id);
    var index := GrantIndex(next.grants, decision.id).value;
    IndexInEvolved(next.grants, later.grants);
    FailedGrantTakesDecision(later, now, index, decision, correlation, check, settings, second.times);
  }

  lemma IndexInEvolved(a: seq<Grant>, b: seq<Grant>)
    requires Evolves(a, b)
    ensures |a| <= |b|
  {
  }

  // --- A run that gets there.

  lemma {:induction false} RunAppend(data: Data, run: seq<Entry>, now: Time, entry: Entry, settings: Settings)
    requires ValidSettings(settings) && LegalRun(data, run, now, settings)
    requires Legal(After(data, run, now, settings), entry, LastTime(run, now))
    ensures LegalRun(data, run + [entry], now, settings)
    ensures After(data, run + [entry], now, settings) == Step(After(data, run, now, settings), entry, settings)
    ensures LastTime(run + [entry], now) == entry.times.fourth
    decreases |run|
  {
    hide Fresh, ValidCommand, Admissible, Step;
    if run == [] {
      assert run + [entry] == [entry];
    } else {
      assert (run + [entry])[1..] == run[1..] + [entry];
      assert LastTime(run[1..], run[0].times.fourth) == LastTime(run, now);
      RunAppend(Step(data, run[0], settings), run[1..], run[0].times.fourth, entry, settings);
    }
  }

  const TIMES := Times(1, 1, 1, 1)
  const SUBJECT := Subject("client", "", "operation", "kind", map[], map[], map[METADATA_MODE := "window"], "reason")
  const REQUEST := Request(SUBJECT, 1, 1, 1, true, true)
  const APPROVE := Decision("g", Approve, "operator", "", 1, "a", 0, 0, false)

  function DenyWith(key: string): Decision {
    Decision("g", Deny, "operator", "", 2, key, 0, 0, false)
  }

  // A request, an approval whose activation check fails, and two denials of the failed grant.
  const CREATED := [Entry(Change(Create(REQUEST, Some("g"))), TIMES, true)]
  const FAILED := CREATED + [Entry(DecideBy(APPROVE, "", Fails(PlanMismatch)), TIMES, true)]
  const DENIED := FAILED + [Entry(DecideBy(DenyWith("a"), "", Passes), TIMES, true)]
  const DENIED_AGAIN := DENIED + [Entry(DecideBy(DenyWith("b"), "", Passes), TIMES, true)]

  const PENDING_GRANT := Grant("g", SUBJECT, Pending, 1, 1, 2, 0, 1, 1, 1, 0, "", "", None, "", 0, UNUSED, 0, 0, 1, 1, true, None)
  const FAILED_GRANT := PENDING_GRANT.(status := Failed, revision := 2, decidedAt := 1, decidedBy := "operator",
                                       failureCode := Some(PlanMismatch), failedAt := 1)

  // The store holds one grant, and the given commands have committed.
  predicate Holds(data: Data, grant: Grant, commands: seq<Decision>) {
    && data.grants == [grant]
    && |data.records| == |commands| && forall i :: 0 <= i < |commands| ==> data.records[i].command == commands[i]
  }

  lemma WindowIsValid()
    ensures ValidMetadata(map[METADATA_MODE := "window"])
  {
    hide ByteLength;
    var metadata := map[METADATA_MODE := "window"];
    assert |metadata| == 1;
    ShortText(METADATA_MODE);
    ShortText("window");
    assert !Blank("window") by { assert !IsSpace("window"[0]); }
  }

  lemma {:induction false} ShortText(s: string)
    ensures ByteLength(s) <= 4 * |s|
  {
    if s != "" {
      ShortText(s[1..]);
    }
  }

  lemma RequestIsNormal()
    ensures Normal(REQUEST)
  {
    hide ValidMetadata;
    WindowIsValid();
  }

  lemma DenialIsValid(key: string)
    requires key == "a" || key == "b"
    ensures ValidCommand(DenyWith(key), "")
  {
    ShortText("");
    ShortText(key);
    ShortText("operator");
    hide ByteLength;
  }

  lemma ApprovalIsValid()
    ensures ValidCommand(APPROVE, "")
  {
    ShortText("");
    ShortText("a");
    ShortText("operator");
    hide ByteLength;
  }

  lemma ReconciledAlone(data: Data, before: map<string, Grant>, grant: Grant, limit: nat)
    requires data.grants == [grant]
    ensures Reconcile(data, before, limit).grants == [Revise(grant, before)]
    ensures Reconcile(data, before, limit).uses == data.uses && Reconcile(data, before, limit).records == data.records
  {
    hide NewEvents, Append, Revise;
    ReconciledGrants(data, before, limit);
    hide Reconcile;
  }

  lemma RequestCreates(settings: Settings)
    requires ValidSettings(settings) && Normal(REQUEST)
    ensures Update(EMPTY, Create(REQUEST, Some("g")), settings, TIMES).data.uses == []
    ensures Holds(Update(EMPTY, Create(REQUEST, Some("g")), settings, TIMES).data, PENDING_GRANT, [])
  {
    hide Reconcile, Normal;
    var change := CreateGrant(EMPTY, REQUEST, Some("g"), settings, TIMES);
    assert Prepare(EMPTY, 1, 1, settings.reservationTimeout) == EMPTY;
    assert change.data.grants == [NewGrant(REQUEST, "g", 1)];
    ReconciledAlone(change.data, map[], NewGrant(REQUEST, "g", 1), settings.maxEvents);
  }

  lemma CreatedRun(settings: Settings)
    requires ValidSettings(settings)
    ensures LegalRun(EMPTY, CREATED, 0, settings)
    ensures After(EMPTY, CREATED, 0, settings).uses == []
    ensures Holds(After(EMPTY, CREATED, 0, settings), PENDING_GRANT, [])
  {
    hide Update, Holds, Normal;
    RequestIsNormal();
    RequestCreates(settings);
  }

  lemma PendingIsPrepared(data: Data, settings: Settings)
    requires ValidSettings(settings) && Holds(data, PENDING_GRANT, []) && data.uses == []
    ensures Prepare(data, 1, 1, settings.reservationTimeout) == data
  {
    assert ExpireGrants(data.grants, 1) == data.grants;
    assert RetainUses(data.uses, data.grants, 1, settings.reservationTimeout) == data.uses;
    assert RetainGrants(data.uses, data.grants, 1, settings.reservationTimeout) == data.grants;
  }

  lemma ApprovalFails(data: Data, settings: Settings)
    requires ValidSettings(settings) && Holds(data, PENDING_GRANT, []) && data.uses == []
    ensures Holds(Decide(data, APPROVE, "", Fails(PlanMismatch), settings, TIMES).data, FAILED_GRANT, [APPROVE])
  {
    hide Prepare, Reconcile, Scope, CurrentCursor;
    PendingIsPrepared(data, settings);
    var updated := FailedGrant(PENDING_GRANT, APPROVE, "", PlanMismatch, 1);
    assert Snapshots(data.grants) == map["g" := PENDING_GRANT];
    assert data.grants[0 := updated] == [updated];
    ReconciledAlone(data.(grants := [updated]), map["g" := PENDING_GRANT], updated, settings.maxEvents);
  }

  // A denial with a key that no recorded command has is recorded on the failed grant.
  lemma DenialIsRecorded(run: seq<Entry>, commands: seq<Decision>, key: string, settings: Settings)
    requires ValidSettings(settings) && (key == "a" || key == "b")
    requires LegalRun(EMPTY, run, 0, settings) && LastTime(run, 0) == 1
    requires Holds(After(EMPTY, run, 0, settings), FAILED_GRANT, commands)
    requires forall i :: 0 <= i < |commands| ==> SafeIdentity(commands[i].key) && (commands[i].action != Deny || commands[i].key != key)
    ensures var longer := run + [Entry(DecideBy(DenyWith(key), "", Passes), TIMES, true)];
            && LegalRun(EMPTY, longer, 0, settings) && LastTime(longer, 0) == 1
            && Holds(After(EMPTY, longer, 0, settings), FAILED_GRANT, commands + [DenyWith(key)])
  {
    hide LegalRun, After, AtRest, Decide, ValidCommand, SafeIdentity, Scope, Step, Evolves;
    var entry := Entry(DecideBy(DenyWith(key), "", Passes), TIMES, true);
    var data := After(EMPTY, run, 0, settings);
    EmptyIsAtRest();
    RunKeeps(EMPTY, run, 0, settings);
    DenialIsValid(key);
    DenialIsFresh(data, commands, key);
    FailedGrantTakesDecision(data, 1, 0, DenyWith(key), "", Passes, settings, TIMES);
    DecisionsAddNoGrant(data, DenyWith(key), "", Passes, settings, TIMES);
    StoredDecision(data, entry, settings);
    RunAppend(EMPTY, run, 0, entry, settings);
  }

  lemma DecisionsAddNoGrant(data: Data, command: Decision, correlation: string, check: Check, settings: Settings, times: Times)
    requires ValidSettings(settings)
    ensures |Decide(data, command, correlation, check, settings, times).data.grants| == |data.grants|
  {
    hide Prepare, Snapshots, Commit, ApplyDecision, Reconcile, Replay, Scope, CurrentCursor;
    var prepared := Prepare(data, times.first, times.second, settings.reservationTimeout);
    PrepareKeepsLength(data, times.first, times.second, settings.reservationTimeout);
    ReconciledGrants(prepared, Snapshots(data.grants), settings.maxEvents);
    var index := GrantIndex(Prepared(data, settings, times).grants, command.id);
    if index.Some? {
      var updated := ApplyDecision(Prepared(data, settings, times).grants[index.value], command, correlation, check, times.third).0;
      CommitRecords(data, Prepared(data, settings, times), index.value, updated, settings, times);
    }
  }

  lemma DenialIsFresh(data: Data, commands: seq<Decision>, key: string)
    requires AtRest(data, 1) && Holds(data, FAILED_GRANT, commands) && (key == "a" || key == "b")
    requires forall i :: 0 <= i < |commands| ==> SafeIdentity(commands[i].key) && (commands[i].action != Deny || commands[i].key != key)
    ensures FindRecord(data.records, Scope(DenyWith(key))).None?
  {
    hide Kept, Scope, Obeys, GrantEvolves;
    DenialIsValid(key);
    hide SafeIdentity;
    forall i | 0 <= i < |commands| ensures data.records[i].scope != Scope(DenyWith(key)) {
      assert RecordKept(data.records[i], data.grants);
      ScopeIsInjective(commands[i], DenyWith(key));
    }
  }

  // So under every configuration the empty store can be brought to two decisions at one revision.
  lemma TwoDecisionsAtOneRevision(settings: Settings)
    requires ValidSettings(settings)
    ensures LegalRun(EMPTY, DENIED_AGAIN, 0, settings)
    ensures var records := After(EMPTY, DENIED_AGAIN, 0, settings).records;
            && |records| == 3
            && records[1].command == DenyWith("a") && records[2].command == DenyWith("b")
            && records[1].command.expectedRevision == records[2].command.expectedRevision == 2
  {
    hide LegalRun, After, Decide, ValidCommand, SafeIdentity, Step;
    FailedRun(settings);
    DenialIsRecorded(FAILED, [APPROVE], "a", settings);
    DenialIsValid("a");
    DenialIsRecorded(DENIED, [APPROVE] + [DenyWith("a")], "b", settings);
  }

  lemma FailedRun(settings: Settings)
    requires ValidSettings(settings)
    ensures LegalRun(EMPTY, FAILED, 0, settings) && LastTime(FAILED, 0) == 1
    ensures Holds(After(EMPTY, FAILED, 0, settings), FAILED_GRANT, [APPROVE]) && SafeIdentity(APPROVE.key)
  {
    hide LegalRun, After, Decide, SafeIdentity, Step, Holds;
    var entry := Entry(DecideBy(APPROVE, "", Fails(PlanMismatch)), TIMES, true);
    CreatedRun(settings);
    ApprovalIsValid();
    ApprovalFails(After(EMPTY, CREATED, 0, settings), settings);
    StoredDecision(After(EMPTY, CREATED, 0, settings), entry, settings);
    RunAppend(EMPTY, CREATED, 0, entry, settings);
  }
}
