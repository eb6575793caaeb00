// What the retained events say stays true: every one names a stored grant, and the grant's status
// follows from the one that the event shows.
module GrantHistory {
  import opened Options
  import opened GrantData
  import opened GrantLifecycle
  import opened GrantOperations
  import opened GrantDecisions
  import opened GrantEvolution
  import opened GrantRecords
  import opened GrantRuns
  import opened GrantFailures

  predicate EventHolds(event: Event, grants: seq<Grant>) {
    var index := GrantIndex(grants, event.grantId);
    index.Some? && Follows(event.status, grants[index.value].status)
  }

  ghost predicate EventsHold(events: seq<Event>, grants: seq<Grant>) {
    forall k :: 0 <= k < |events| ==> EventHolds(events[k], grants)
  }

  lemma EventsHoldLater(events: seq<Event>, a: seq<Grant>, b: seq<Grant>)
    requires EventsHold(events, a) && Evolves(a, b)
    ensures EventsHold(events, b)
  {
    forall k | 0 <= k < |events| ensures EventHolds(events[k], b) {
      assert EventHolds(events[k], a);
      IndexEvolves(a, b, events[k].grantId);
      var i := GrantIndex(a, events[k].grantId).value;
      assert GrantEvolves(a[i], b[i]);
    }
  }

  lemma {:induction false} NewEventsHold(grants: seq<Grant>, before: map<string, Grant>, next: nat, event: Event) returns (i: nat)
    requires event in NewEvents(grants, before, next)
    ensures i < |grants| && event.grantId == grants[i].id && event.status == grants[i].status
  {
    hide Kinds;
    var last := |grants| - 1;
    var earlier := NewEvents(grants[..last], before, next);
    if event in earlier {
      i := NewEventsHold(grants[..last], before, next, event);
    } else {
      i := last;
      RevisedUsage(grants[last], before);
      var k :| 0 <= k < |EventsOf(grants[last], before, next + |earlier|)|
               && EventsOf(grants[last], before, next + |earlier|)[k] == event;
    }
  }

  lemma RevisedHolds(event: Event, grants: seq<Grant>, before: map<string, Grant>)
    requires EventHolds(event, grants)
    ensures EventHolds(event, ReviseAll(grants, before))
  {
    hide Revise;
    ReviseKeepsIdentity(grants, before);
    IndexOfIdentity(grants, ReviseAll(grants, before), event.grantId);
    RevisedUsage(grants[GrantIndex(grants, event.grantId).value], before);
  }

  // Reconciliation keeps what holds and adds events that hold.
  lemma ReconcileHolds(data: Data, before: map<string, Grant>, limit: nat)
    requires EventsHold(data.events, data.grants) && DistinctGrants(data.grants)
    ensures EventsHold(Reconcile(data, before, limit).events, Reconcile(data, before, limit).grants)
  {
    hide ReviseAll, NewEvents, EventHolds;
    var added := NewEvents(data.grants, before, data.nextEvent);
    var all := data.events + added;
    forall k | 0 <= k < |all| ensures EventHolds(all[k], ReviseAll(data.grants, before)) {
      if k >= |data.events| {
        assert all[k] in added;
        var i := NewEventsHold(data.grants, before, data.nextEvent, all[k]);
        OwnEventHolds(all[k], data.grants, i);
      }
      RevisedHolds(all[k], data.grants, before);
    }
    assert added == [] ==> all == data.events;
    NewestHold(all, ReviseAll(data.grants, before), limit);
  }

  lemma NewestHold(events: seq<Event>, grants: seq<Grant>, limit: nat)
    requires EventsHold(events, grants)
    ensures EventsHold(Newest(events, limit), grants)
  {
    hide EventHolds;
  }

  lemma OwnEventHolds(event: Event, grants: seq<Grant>, i: nat)
    requires DistinctGrants(grants) && i < |grants| && event.grantId == grants[i].id && event.status == grants[i].status
    ensures EventHolds(event, grants)
  {
    IndexOfGrant(grants, i);
  }

  lemma MutateHolds(data: Data, command: Command, settings: Settings, times: Times)
    requires ValidSettings(settings) && Admissible(command) && Ordered(times) && Coherent(data, times.third)
    requires EventsHold(data.events, data.grants)
    ensures var after := Mutate(data, command, settings, times).data; EventsHold(after.events, after.grants)
  {
    hide Coherent, Admissible, Mutate, EventHolds;
    MutateEvolves(data, command, settings, times);
    EventsHoldLater(data.events, data.grants, Mutate(data, command, settings, times).data.grants);
    MutateAddsAtMostOne(data, times.third, command, settings, times);
  }

  lemma MutateAddsAtMostOne(data: Data, now: Time, command: Command, settings: Settings, times: Times)
    requires ValidSettings(settings) && Admissible(command) && Coherent(data, now)
    requires EventsHold(data.events, Mutate(data, command, settings, times).data.grants)
    ensures var after := Mutate(data, command, settings, times).data; EventsHold(after.events, after.grants)
  {
    hide GrantsKept, UsesKept, Normal, ValidUseIdentity, FindIdempotent, HasCapacity, SameRequest, CanUse, Tally, GrantIndex, UseIndex, EventHolds;
    CoherentIsDistinct(data, now);
    if command.RecordExecution? && GrantIndex(data.grants, command.id).Some? {
      var i := GrantIndex(data.grants, command.id).value;
      OwnEventHolds(EventOf(data.nextEvent, command.kind, data.grants[i], Some(data.grants[i])), data.grants, i);
    }
  }

  lemma UpdateHolds(data: Data, now: Time, command: Command, settings: Settings, times: Times)
    requires ValidSettings(settings) && Admissible(command) && Ordered(times) && Fresh(data, command)
    requires Kept(data, now) && now <= times.first && EventsHold(data.events, data.grants)
    ensures var after := Update(data, command, settings, times).data; EventsHold(after.events, after.grants)
  {
    hide Coherent, Admissible, Prepare, Mutate, Reconcile, Snapshots, EventsKept, EventsHold, Fresh, Evolves;
    var prepared := Prepare(data, times.first, times.second, settings.reservationTimeout);
    PrepareKeeps(data, now, times.first, times.second, settings.reservationTimeout);
    PrepareEvolves(data, now, times.first, times.second, settings.reservationTimeout);
    PrepareKeepsEvents(data, times.first, times.second, settings.reservationTimeout);
    EventsHoldLater(data.events, data.grants, prepared.grants);
    CoherentLater(prepared, times.second, times.third);
    MutateHolds(prepared, command, settings, times);
    FreshAfter(data, prepared, command);
    MutateKeeps(prepared, command, settings, times);
    CoherentIsDistinct(Mutate(prepared, command, settings, times).data, times.fourth);
    ReconcileHolds(Mutate(prepared, command, settings, times).data, Snapshots(data.grants), settings.maxEvents);
  }

  lemma MaintainedHolds(data: Data, now: Time, changed: Data, later: Time, settings: Settings)
    requires ValidSettings(settings) && Kept(data, now) && Coherent(changed, later) && EventsHold(data.events, data.grants)
    requires Evolves(data.grants, changed.grants) && changed.events == data.events
    ensures var after := Reconcile(changed, Snapshots(data.grants), settings.maxEvents); EventsHold(after.events, after.grants)
  {
    hide Coherent, Snapshots, EventsKept, EventsHold, Evolves, Reconcile;
    EventsHoldLater(data.events, data.grants, changed.grants);
    CoherentIsDistinct(changed, later);
    ReconcileHolds(changed, Snapshots(data.grants), settings.maxEvents);
  }

  lemma PreparedHolds(data: Data, now: Time, settings: Settings, times: Times)
    requires ValidSettings(settings) && Ordered(times) && Kept(data, now) && now <= times.first
    requires EventsHold(data.events, data.grants)
    ensures var after := Prepared(data, settings, times); EventsHold(after.events, after.grants)
    ensures var after := Performed(data, Inspect, times, settings); EventsHold(after.events, after.grants)
  {
    hide Coherent, Prepare, Snapshots, EventsKept, EventsHold, Evolves, Reconcile;
    PrepareKeeps(data, now, times.first, times.second, settings.reservationTimeout);
    PrepareEvolves(data, now, times.first, times.second, settings.reservationTimeout);
    PrepareKeepsEvents(data, times.first, times.second, settings.reservationTimeout);
    MaintainedHolds(data, now, Prepare(data, times.first, times.second, settings.reservationTimeout), times.second, settings);
  }

  lemma ReadHolds(data: Data, now: Time, settings: Settings, times: Times)
    requires ValidSettings(settings) && Ordered(times) && Kept(data, now) && now <= times.first
    requires EventsHold(data.events, data.grants)
    ensures var after := Performed(data, Read, times, settings); EventsHold(after.events, after.grants)
  {
    hide Coherent, ExpireGrants, Snapshots, EventsKept, EventsHold, Evolves, Reconcile;
    ExpireDueKeeps(data, now, times.first);
    ExpireEvolves(data.grants, times.first);
    MaintainedHolds(data, now, ExpireDue(data, times.first), times.first, settings);
  }

  lemma CommitHolds(data: Data, now: Time, index: nat, updated: Grant, settings: Settings, times: Times)
    requires ValidSettings(settings) && Ordered(times) && Kept(data, now) && now <= times.first
    requires EventsHold(data.events, data.grants)
    requires var prepared := Prepared(data, settings, times);
             index < |prepared.grants| && GrantEvolves(prepared.grants[index], updated) && updated.id == prepared.grants[index].id
    ensures var after := Commit(data, Prepared(data, settings, times), index, updated, settings, times);
            EventsHold(after.events, after.grants)
  {
    hide Coherent, Prepared, Snapshots, EventsKept, EventsHold, Evolves, Reconcile, Baseline, GrantEvolves;
    var prepared := Prepared(data, settings, times);
    PreparedHolds(data, now, settings, times);
    PreparedKeeps(data, now, settings, times);
    CoherentIsDistinct(prepared, times.second);
    var replaced := prepared.(grants := prepared.grants[index := updated]);
    EvolvesAt(prepared.grants, index, updated);
    EventsHoldLater(prepared.events, prepared.grants, replaced.grants);
    assert DistinctGrants(replaced.grants);
    ReconcileHolds(replaced, Baseline(data, prepared.grants[index], settings, times), settings.maxEvents);
  }

  lemma DecideHolds(data: Data, now: Time, command: Decision, correlation: string, check: Check, settings: Settings, times: Times)
    requires ValidSettings(settings) && Ordered(times) && Kept(data, now) && now <= times.first
    requires EventsHold(data.events, data.grants)
    ensures var after := Decide(data, command, correlation, check, settings, times).data; EventsHold(after.events, after.grants)
  {
    hide Kept, Prepared, Commit, ApplyDecision, Replay, Scope, CurrentCursor, EventsHold, GrantEvolves, GrantKept;
    var prepared := Prepared(data, settings, times);
    PreparedHolds(data, now, settings, times);
    PreparedKeeps(data, now, settings, times);
    var index := GrantIndex(prepared.grants, command.id);
    if index.Some? {
      var current := prepared.grants[index.value];
      CurrentIsKept(prepared, times.second, index.value);
      ApplyDecisionEvolves(current, prepared.uses, command, correlation, check, times.third);
      ApplyDecisionIdentity(current, command, correlation, check, times.third);
      CommitHolds(data, now, index.value, ApplyDecision(current, command, correlation, check, times.third).0, settings, times);
    }
  }

  lemma PerformedHolds(data: Data, now: Time, call: Call, settings: Settings, times: Times)
    requires ValidSettings(settings) && AtRest(data, now) && Legal(data, Entry(call, times, true), now)
    requires EventsHold(data.events, data.grants)
    ensures var after := Performed(data, call, times, settings); EventsHold(after.events, after.grants)
  {
    hide Kept, RecordsKept, Admissible, Fresh, ValidCommand, Update, Decide, Reconcile, Prepare, EventsHold;
    match call {
      case Change(command) => UpdateHolds(data, now, command, settings, times);
      case DecideBy(decision, correlation, check) => DecideHolds(data, now, decision, correlation, check, settings, times);
      case Read => ReadHolds(data, now, settings, times);
      case _ => PreparedHolds(data, now, settings, times);
    }
  }

  lemma {:induction false} RunHolds(data: Data, run: seq<Entry>, now: Time, settings: Settings)
    requires ValidSettings(settings) && AtRest(data, now) && LegalRun(data, run, now, settings) && EventsHold(data.events, data.grants)
    ensures var after := After(data, run, now, settings); EventsHold(after.events, after.grants)
    decreases |run|
  {
    hide AtRest, Allowed, Evolves, Performed, Fresh, ValidCommand, EventsHold;
    if run != [] {
      StepKeeps(data, now, run[0], settings);
      PerformedHolds(data, now, run[0].call, settings, run[0].times);
      RunHolds(Step(data, run[0], settings), run[1..], run[0].times.fourth, settings);
    }
  }

  // In every reachable state each retained event names a stored grant whose status follows the one shown.
  lemma EventsStayTrue(run: seq<Entry>, settings: Settings)
    requires ValidSettings(settings) && LegalRun(EMPTY, run, 0, settings)
    ensures var after := After(EMPTY, run, 0, settings); EventsHold(after.events, after.grants)
  {
    EmptyIsAtRest();
    RunHolds(EMPTY, run, 0, settings);
  }
}
