// Every run of the grant store: calls in any order, each of whose writes may fail.
module GrantRuns {
  import opened Options
  import opened GrantData
  import opened GrantLifecycle
  import opened GrantOperations
  import opened GrantDecisions
  import opened GrantEvolution
  import opened GrantRecords

  datatype Call =
    | Change(command: Command)
    | DecideBy(decision: Decision, correlation: string, check: Check)
    | Read         // expires what is due: Get, List, ActivePolicyGrants
    | Inspect      // prepares: GetUse, QueryGrants
    | MeetDeadline // prepares, and writes only what reconciliation records

  // A call, the clock it read, and whether its write succeeded.
  datatype Entry = Entry(call: Call, times: Times, stored: bool)

  // The caller's obligations, a clock that does not run backwards, and random identities.
  predicate Allowed(call: Call) { call.Change? ==> Admissible(call.command) }

  predicate Legal(data: Data, entry: Entry, now: Time) {
    && Ordered(entry.times) && now <= entry.times.first
    && Allowed(entry.call)
    && match entry.call
       case Change(command) => Fresh(data, command)
       case DecideBy(decision, correlation, check) => ValidCommand(decision, correlation)
       case _ => true
  }

  function DeadlineMet(data: Data, settings: Settings, times: Times): Data
    requires ValidSettings(settings)
  {
    var prepared := Prepare(data, times.first, times.second, settings.reservationTimeout);
    if NewEvents(prepared.grants, Snapshots(data.grants), data.nextEvent) == [] then data
    else Reconcile(prepared, Snapshots(data.grants), settings.maxEvents)
  }

  function Performed(data: Data, call: Call, times: Times, settings: Settings): Data
    requires ValidSettings(settings) && Allowed(call)
  {
    match call
    case Change(command) => Update(data, command, settings, times).data
    case DecideBy(decision, correlation, check) => Decide(data, decision, correlation, check, settings, times).data
    case Read => Reconcile(ExpireDue(data, times.first), Snapshots(data.grants), settings.maxEvents)
    case Inspect =>
      Reconcile(Prepare(data, times.first, times.second, settings.reservationTimeout), Snapshots(data.grants), settings.maxEvents)
    case MeetDeadline => DeadlineMet(data, settings, times)
  }

  function Step(data: Data, entry: Entry, settings: Settings): Data
    requires ValidSettings(settings) && Allowed(entry.call)
  {
    if entry.stored then Performed(data, entry.call, entry.times, settings) else data
  }

  ghost predicate LegalRun(data: Data, run: seq<Entry>, now: Time, settings: Settings)
    requires ValidSettings(settings)
    decreases |run|
  {
    run == [] || (Legal(data, run[0], now) && LegalRun(Step(data, run[0], settings), run[1..], run[0].times.fourth, settings))
  }

  ghost function After(data: Data, run: seq<Entry>, now: Time, settings: Settings): Data
    requires ValidSettings(settings) && LegalRun(data, run, now, settings)
    decreases |run|
  {
    if run == [] then data
    else After(Step(data, run[0], settings), run[1..], run[0].times.fourth, settings)
  }

  function LastTime(run: seq<Entry>, now: Time): Time {
    if run == [] then now else run[|run| - 1].times.fourth
  }

  // --- One step.

  lemma MaintenanceKeeps(data: Data, changed: Data, now: Time, settings: Settings)
    requires ValidSettings(settings) && DistinctGrants(data.grants) && Numbered(data.grants)
    requires Coherent(changed, now) && EventsKept(data.events, data.nextEvent)
    requires changed.events == data.events && changed.nextEvent == data.nextEvent
    requires SameIdentity(data.grants, changed.grants) && SameRevisions(data.grants, changed.grants)
    ensures Kept(Reconcile(changed, Snapshots(data.grants), settings.maxEvents), now)
    ensures Evolves(changed.grants, Reconcile(changed, Snapshots(data.grants), settings.maxEvents).grants)
  {
    hide Coherent, Reconcile, ReviseAll, Snapshots, EventsKept, Evolves;
    ReconcileKeeps(changed, Snapshots(data.grants), settings.maxEvents, now);
    IdentityExtends(data.grants, changed.grants);
    SameRevisionsAreRevisable(data, changed.grants);
    ReviseEvolves(changed.grants, Snapshots(data.grants));
    ReconciledGrants(changed, Snapshots(data.grants), settings.maxEvents);
  }

  lemma ReadKeeps(data: Data, earlier: Time, times: Times, settings: Settings)
    requires ValidSettings(settings) && Ordered(times) && Kept(data, earlier) && earlier <= times.first
    ensures Kept(Performed(data, Read, times, settings), times.fourth)
    ensures Evolves(data.grants, Performed(data, Read, times, settings).grants)
  {
    hide GrantsKept, UsesKept, Reconcile, Snapshots, EventsKept, Evolves, GrantEvolves;
    var expired := ExpireDue(data, times.first);
    ExpireDueKeeps(data, earlier, times.first);
    CoherentLater(expired, times.first, times.fourth);
    ExpireEvolves(data.grants, times.first);
    CoherentIsDistinct(data, earlier);
    MaintenanceKeeps(data, expired, times.fourth, settings);
    EvolvesTrans(data.grants, expired.grants, Performed(data, Read, times, settings).grants);
  }

  lemma PreparedReconciledKeeps(data: Data, earlier: Time, times: Times, settings: Settings)
    requires ValidSettings(settings) && Ordered(times) && Kept(data, earlier) && earlier <= times.first
    ensures Kept(Performed(data, Inspect, times, settings), times.fourth)
    ensures Evolves(data.grants, Performed(data, Inspect, times, settings).grants)
  {
    hide GrantsKept, UsesKept, Prepare, Reconcile, Snapshots, EventsKept, Evolves, GrantEvolves;
    var prepared := Prepare(data, times.first, times.second, settings.reservationTimeout);
    PrepareKeeps(data, earlier, times.first, times.second, settings.reservationTimeout);
    PrepareKeepsEvents(data, times.first, times.second, settings.reservationTimeout);
    CoherentLater(prepared, times.second, times.fourth);
    PrepareEvolves(data, earlier, times.first, times.second, settings.reservationTimeout);
    CoherentIsDistinct(data, earlier);
    MaintenanceKeeps(data, prepared, times.fourth, settings);
    EvolvesTrans(data.grants, prepared.grants, Performed(data, Inspect, times, settings).grants);
  }

  // The whole invariant of a store at rest.
  ghost predicate AtRest(data: Data, now: Time) {
    Kept(data, now) && RecordsKept(data.records, data.grants)
  }

  lemma UntouchedKeeps(data: Data, earlier: Time, now: Time)
    requires Kept(data, earlier) && earlier <= now
    ensures Kept(data, now) && Evolves(data.grants, data.grants)
  {
    hide GrantsKept, UsesKept, EventsKept, GrantEvolves;
    CoherentLater(data, earlier, now);
    EvolvesSelf(data.grants);
  }

  lemma UpdateKeepsRecords(data: Data, command: Command, settings: Settings, times: Times)
    requires ValidSettings(settings) && Admissible(command)
    ensures Update(data, command, settings, times).data.records == data.records
  {
    hide Prepare, Mutate, Reconcile, Snapshots, Admissible;
    var prepared := Prepare(data, times.first, times.second, settings.reservationTimeout);
    PrepareKeepsEvents(data, times.first, times.second, settings.reservationTimeout);
    MutateExtends(prepared, command, settings, times);
    ReconciledGrants(Mutate(prepared, command, settings, times).data, Snapshots(data.grants), settings.maxEvents);
  }

  lemma MaintenanceKeepsRecords(data: Data, call: Call, times: Times, settings: Settings)
    requires ValidSettings(settings) && (call == Read || call == Inspect || call == MeetDeadline)
    ensures Performed(data, call, times, settings).records == data.records
  {
    hide Prepare, Reconcile, Snapshots, NewEvents;
    var prepared := Prepare(data, times.first, times.second, settings.reservationTimeout);
    PrepareKeepsEvents(data, times.first, times.second, settings.reservationTimeout);
    ReconciledGrants(prepared, Snapshots(data.grants), settings.maxEvents);
    ReconciledGrants(ExpireDue(data, times.first), Snapshots(data.grants), settings.maxEvents);
  }

  lemma PerformedKeeps(data: Data, earlier: Time, call: Call, times: Times, settings: Settings)
    requires ValidSettings(settings) && AtRest(data, earlier) && Legal(data, Entry(call, times, true), earlier)
    ensures Kept(Performed(data, call, times, settings), times.fourth)
    ensures Evolves(data.grants, Performed(data, call, times, settings).grants)
  {
    hide Kept, RecordsKept, Admissible, Fresh, ValidCommand, Evolves, Update, Decide, Reconcile, Prepare, ExpireDue;
    match call {
      case Change(command) =>
        UpdateKeeps(data, earlier, command, settings, times);
        UpdateEvolves(data, earlier, command, settings, times);
      case DecideBy(decision, correlation, check) =>
        DecideKeeps(data, earlier, decision, correlation, check, settings, times);
        DecideKeepsRecords(data, earlier, decision, correlation, check, settings, times);
      case Read => ReadKeeps(data, earlier, times, settings);
      case Inspect => PreparedReconciledKeeps(data, earlier, times, settings);
      case MeetDeadline =>
        PreparedReconciledKeeps(data, earlier, times, settings);
        UntouchedKeeps(data, earlier, times.fourth);
    }
  }

  lemma PerformedKeepsRecords(data: Data, earlier: Time, call: Call, times: Times, settings: Settings)
    requires ValidSettings(settings) && AtRest(data, earlier) && Legal(data, Entry(call, times, true), earlier)
    ensures var after := Performed(data, call, times, settings);
            RecordsKept(after.records, after.grants) && data.records <= after.records
  {
    hide Kept, RecordsKept, Admissible, Fresh, ValidCommand, Evolves, Update, Decide, Reconcile, Prepare, ExpireDue, DeadlineMet;
    PerformedKeeps(data, earlier, call, times, settings);
    match call {
      case Change(command) => UpdateKeepsRecords(data, command, settings, times);
      case DecideBy(decision, correlation, check) =>
        DecideKeepsRecords(data, earlier, decision, correlation, check, settings, times);
        DecisionIsLogged(data, decision, correlation, check, settings, times);
      case _ => MaintenanceKeepsRecords(data, call, times, settings);
    }
    if !call.DecideBy? {
      RecordsKeptLater(data.records, data.grants, Performed(data, call, times, settings).grants);
    }
  }

  lemma StepKeeps(data: Data, earlier: Time, entry: Entry, settings: Settings)
    requires ValidSettings(settings) && AtRest(data, earlier) && Legal(data, entry, earlier)
    ensures AtRest(Step(data, entry, settings), entry.times.fourth)
    ensures Evolves(data.grants, Step(data, entry, settings).grants) && data.records <= Step(data, entry, settings).records
  {
    hide Kept, RecordsKept, Admissible, Fresh, ValidCommand, Evolves, Performed;
    UntouchedKeeps(data, earlier, entry.times.fourth);
    PerformedKeeps(data, earlier, entry.call, entry.times, settings);
    PerformedKeepsRecords(data, earlier, entry.call, entry.times, settings);
  }

  // --- Every run.

  lemma {:induction false} RunKeeps(data: Data, run: seq<Entry>, now: Time, settings: Settings)
    requires ValidSettings(settings) && AtRest(data, now) && LegalRun(data, run, now, settings)
    ensures AtRest(After(data, run, now, settings), LastTime(run, now))
    ensures Evolves(data.grants, After(data, run, now, settings).grants)
    ensures data.records <= After(data, run, now, settings).records
    decreases |run|
  {
    hide AtRest, Allowed, Evolves, Step, Fresh, ValidCommand;
    if run == [] {
      EvolvesSelf(data.grants);
    } else {
      var next := Step(data, run[0], settings);
      StepKeeps(data, now, run[0], settings);
      RunKeeps(next, run[1..], run[0].times.fourth, settings);
      EvolvesTrans(data.grants, next.grants, After(data, run, now, settings).grants);
      assert LastTime(run[1..], run[0].times.fourth) == LastTime(run, now);
    }
  }

  lemma EmptyIsAtRest()
    ensures AtRest(EMPTY, 0)
  {
  }

  // The loader accepts every state that any run of the store leaves on disk.
  lemma EveryStateLoads(run: seq<Entry>, settings: Settings)
    requires ValidSettings(settings) && LegalRun(EMPTY, run, 0, settings)
    ensures LoaderAccepts(After(EMPTY, run, 0, settings))
  {
    hide AtRest, LegalRun, After;
    EmptyIsAtRest();
    RunKeeps(EMPTY, run, 0, settings);
    AtRestLoads(After(EMPTY, run, 0, settings), LastTime(run, 0));
  }

  lemma AtRestLoads(data: Data, now: Time)
    requires AtRest(data, now)
    ensures LoaderAccepts(data)
  {
    hide Kept, LoaderAccepts;
    LoaderAcceptsKept(data, now);
  }

  // --- Budgets.

  predicate Concerns(use: Use, id: string, states: set<UseState>) { use.grantId == id && use.state in states }

  ghost function UsesIn(id: string, uses: seq<Use>, states: set<UseState>): set<nat> {
    set k: nat | k < |uses| && Concerns(uses[k], id, states)
  }

  lemma UsesInLast(id: string, uses: seq<Use>, states: set<UseState>)
    requires uses != []
    ensures var last := |uses| - 1;
            |UsesIn(id, uses, states)|
            == |UsesIn(id, uses[..last], states)| + if Concerns(uses[last], id, states) then 1 else 0
  {
    hide Concerns;
    var last := |uses| - 1;
    var earlier, all := UsesIn(id, uses[..last], states), UsesIn(id, uses, states);
    if Concerns(uses[last], id, states) {
      assert all == earlier + {last};
      assert last !in earlier;
    } else {
      assert all == earlier;
    }
  }

  lemma {:induction false} TallyCounts(id: string, uses: seq<Use>)
    ensures Tally(id, uses).used == |UsesIn(id, uses, {Committed})|
    ensures Tally(id, uses).reserved == |UsesIn(id, uses, {Reserved, Retained})|
  {
    if uses == [] {
      assert UsesIn(id, uses, {Committed}) == {} && UsesIn(id, uses, {Reserved, Retained}) == {};
    } else {
      hide UsesIn;
      TallyCounts(id, uses[..|uses| - 1]);
      UsesInLast(id, uses, {Committed});
      UsesInLast(id, uses, {Reserved, Retained});
    }
  }

  // The aggregate also carries the latest settlement of a committed use, the earliest change of an
  // outstanding one, and whether one of them is retained.
  ghost predicate Timed(id: string, uses: seq<Use>, usage: Usage) {
    && (forall k :: 0 <= k < |uses| && Concerns(uses[k], id, {Committed}) ==> uses[k].settledAt <= usage.usedAt)
    && (usage.usedAt > 0 ==> exists k :: 0 <= k < |uses| && Concerns(uses[k], id, {Committed}) && uses[k].settledAt == usage.usedAt)
    && (forall k :: 0 <= k < |uses| && Concerns(uses[k], id, {Reserved, Retained}) ==> 0 < usage.reservedAt <= uses[k].updatedAt)
    && (usage.reservedAt > 0 ==>
          exists k :: 0 <= k < |uses| && Concerns(uses[k], id, {Reserved, Retained}) && uses[k].updatedAt == usage.reservedAt)
    && (usage.retained <==> exists k :: 0 <= k < |uses| && Concerns(uses[k], id, {Retained}))
  }

  lemma {:induction false} TallyIsTimed(id: string, uses: seq<Use>)
    requires Dated(uses)
    ensures Timed(id, uses, Tally(id, uses))
  {
    if uses != [] {
      TallyIsTimed(id, uses[..|uses| - 1]);
      TallyIsDated(id, uses[..|uses| - 1]);
      TimedStep(id, uses[..|uses| - 1], uses[|uses| - 1], Tally(id, uses[..|uses| - 1]));
      assert uses == uses[..|uses| - 1] + [uses[|uses| - 1]];
    }
  }

  lemma TimedStep(id: string, uses: seq<Use>, use: Use, usage: Usage)
    requires Timed(id, uses, usage) && use.updatedAt > 0
    ensures Timed(id, uses + [use], if use.grantId == id then AddUse(usage, use) else usage)
  {
    var more := uses + [use];
    assert more[|uses|] == use;
    assert forall k :: 0 <= k < |uses| ==> more[k] == uses[k];
  }

  // In every reachable state a finite budget covers all committed and outstanding uses of its grant.
  lemma BudgetHolds(run: seq<Entry>, settings: Settings, i: nat)
    requires ValidSettings(settings) && LegalRun(EMPTY, run, 0, settings)
    requires i < |After(EMPTY, run, 0, settings).grants|
    ensures var data := After(EMPTY, run, 0, settings);
            var grant := data.grants[i];
            var committed, outstanding := UsesIn(grant.id, data.uses, {Committed}), UsesIn(grant.id, data.uses, {Reserved, Retained});
            && (IsFinite(grant.maxUses) ==> |committed| + |outstanding| <= grant.maxUses)
            && (grant.status == Consumed ==> |committed| == grant.maxUses)
            && (outstanding != {} ==> Settleable(grant.status))
            && (committed != {} ==> Settleable(grant.status) || grant.status == Consumed)
  {
    hide LegalRun, After, Formed, Narrowed, RecordsKept, UsesKept, UsesIn, Tally;
    EmptyIsAtRest();
    RunKeeps(EMPTY, run, 0, settings);
    var data := After(EMPTY, run, 0, settings);
    assert GrantKept(data.grants[i], data.uses);
    TallyCounts(data.grants[i].id, data.uses);
  }

  lemma OutstandingSettles(data: Data, now: Time, k: nat, target: UseState)
    requires Coherent(data, now) && k < |data.uses| && !Settled(data.uses[k].state) && Settled(target)
    ensures var use := data.uses[k];
            var change := Settle(data, use.grantId, use.requestId, target, now);
            change.error.None? && |change.data.uses| == |data.uses| && change.data.uses[k].state == target
  {
    hide Formed, Narrowed, Counted, LoadedUse, Tally, Settling;
    var use := data.uses[k];
    assert UseKept(use, data.grants, now);
    var i := GrantIndex(data.grants, use.grantId).value;
    assert GrantKept(data.grants[i], data.uses);
    OutstandingIsCounted(use.grantId, data.uses, k);
    KeptIsCounted(data.grants[i], data.uses);
    UseIndexOf(data.uses, k);
  }

  lemma RetainedUse(data: Data, first: Time, second: Time, timeout: nat, k: nat)
    requires k < |data.uses|
    ensures var use, prepared := data.uses[k], Prepare(data, first, second, timeout).uses;
            && |prepared| == |data.uses|
            && prepared[k].grantId == use.grantId && prepared[k].requestId == use.requestId
            && (Settled(prepared[k].state) <==> Settled(use.state))
  {
  }

  lemma StoredUseIsIdentified(data: Data, now: Time, k: nat)
    requires Coherent(data, now) && k < |data.uses|
    ensures data.uses[k].grantId != "" && data.uses[k].requestId != ""
  {
    hide GrantsKept;
    assert UseKept(data.uses[k], data.grants, now);
  }

  // At every rest state an outstanding use can be settled, either way, even if the call that settles
  // it finds its reservation stale or its grant expired.
  lemma OutstandingCanSettle(data: Data, now: Time, k: nat, target: UseState, settings: Settings, times: Times)
    requires ValidSettings(settings) && Ordered(times) && AtRest(data, now) && now <= times.first
    requires k < |data.uses| && !Settled(data.uses[k].state) && Settled(target)
    ensures var command := SettleUse(data.uses[k].grantId, data.uses[k].requestId, target);
            && Admissible(command)
            && var change := Update(data, command, settings, times);
               change.error.None? && |change.data.uses| == |data.uses| && change.data.uses[k].state == target
  {
    hide Coherent, RecordsKept, EventsKept, Prepare, Settle, Reconcile, Snapshots;
    var prepared := Prepare(data, times.first, times.second, settings.reservationTimeout);
    StoredUseIsIdentified(data, now, k);
    RetainedUse(data, times.first, times.second, settings.reservationTimeout, k);
    PrepareKeeps(data, now, times.first, times.second, settings.reservationTimeout);
    CoherentLater(prepared, times.second, times.third);
    OutstandingSettles(prepared, times.third, k, target);
    ReconciledGrants(Settle(prepared, data.uses[k].grantId, data.uses[k].requestId, target, times.third).data,
                     Snapshots(data.grants), settings.maxEvents);
  }

  lemma UseIndexOf(uses: seq<Use>, k: nat)
    requires DistinctUses(uses) && k < |uses|
    ensures UseIndex(uses, uses[k].requestId) == Some(k)
  {
  }

  // --- Decisions.

  // Over every run at most one decision commits at one revision of a grant, except that a grant that
  // has already failed takes any number of them.
  lemma OneDecisionPerRevision(run: seq<Entry>, settings: Settings, i: nat, j: nat)
    requires ValidSettings(settings) && LegalRun(EMPTY, run, 0, settings)
    requires i < j < |After(EMPTY, run, 0, settings).records|
    ensures var records := After(EMPTY, run, 0, settings).records;
            && records[i].scope != records[j].scope
            && (records[i].command.id == records[j].command.id
                && records[i].command.expectedRevision == records[j].command.expectedRevision
                ==> records[i].previous.status == Failed && records[j].previous.status == Failed)
  {
    hide LegalRun, After, Kept, RecordKept;
    EmptyIsAtRest();
    RunKeeps(EMPTY, run, 0, settings);
    var records := After(EMPTY, run, 0, settings).records;
    assert Compatible(records[i], records[j]);
  }

  lemma LoggedRaises(records: seq<Record>, outcome: DecisionOutcome, command: Decision)
    requires Logged(records, outcome, command) && RecordsKept(outcome.data.records, outcome.data.grants)
    ensures outcome.result.Result?
    ensures outcome.result.grant.revision == outcome.result.previous.revision + 1 <==> outcome.result.previous.status != Failed
  {
    hide Compatible, Scope, GrantEvolves, FindRecord, Obeys;
    assert RecordKept(outcome.data.records[|records|], outcome.data.grants);
  }

  // A decision that commits raises the revision by exactly one if and only if the grant had not failed.
  lemma CommitRaisesExactly(data: Data, now: Time, command: Decision, correlation: string, check: Check,
                            settings: Settings, times: Times)
    requires ValidSettings(settings) && Ordered(times) && AtRest(data, now) && now <= times.first
    requires Commits(data, command, correlation, check, settings, times)
    ensures var result := Decide(data, command, correlation, check, settings, times).result;
            result.Result? && (result.grant.revision == result.previous.revision + 1 <==> result.previous.status != Failed)
  {
    hide Kept, RecordsKept, Evolves, Scope, Decide, Logged;
    var outcome := Decide(data, command, correlation, check, settings, times);
    DecideKeepsRecords(data, now, command, correlation, check, settings, times);
    DecisionIsLogged(data, command, correlation, check, settings, times);
    LoggedRaises(data.records, outcome, command);
  }

  lemma StoredChange(data: Data, entry: Entry, settings: Settings)
    requires ValidSettings(settings) && entry.call.Change? && Allowed(entry.call) && entry.stored
    ensures Step(data, entry, settings) == Update(data, entry.call.command, settings, entry.times).data
  {
  }

  lemma StoredDecision(data: Data, entry: Entry, settings: Settings)
    requires ValidSettings(settings) && entry.call.DecideBy? && entry.stored
    ensures Step(data, entry, settings)
            == Decide(data, entry.call.decision, entry.call.correlation, entry.call.check, settings, entry.times).data
  {
  }

  // After any further run, the command that committed returns what it returned then.
  lemma ReplayAfterAnyRun(data: Data, now: Time, decision: Decision, correlation: string, check: Check, times: Times,
                          run: seq<Entry>, settings: Settings, correlation': string, check': Check, times': Times)
    requires ValidSettings(settings) && AtRest(data, now)
    requires Legal(data, Entry(DecideBy(decision, correlation, check), times, true), now)
    requires Commits(data, decision, correlation, check, settings, times)
    requires LegalRun(Decide(data, decision, correlation, check, settings, times).data, run, times.fourth, settings)
    ensures var outcome := Decide(data, decision, correlation, check, settings, times);
            outcome.result.Result?
            && Decide(After(outcome.data, run, times.fourth, settings), decision, correlation', check', settings, times').result
            == Result(outcome.result.grant, outcome.result.previous, outcome.result.cursor, true)
  {
    hide AtRest, LegalRun, After, Decide, Evolves, Step, Commits, ValidCommand;
    var entry := Entry(DecideBy(decision, correlation, check), times, true);
    var outcome := Decide(data, decision, correlation, check, settings, times);
    StepKeeps(data, now, entry, settings);
    StoredDecision(data, entry, settings);
    RunKeeps(outcome.data, run, times.fourth, settings);
    var later := After(outcome.data, run, times.fourth, settings);
    ReplayReturnsOriginal(data, decision, correlation, check, settings, times, later, correlation', check', settings, times');
  }
}
