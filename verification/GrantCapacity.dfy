// How many requests can be pending at once.
module GrantCapacity {
  import opened Options
  import opened GrantData
  import opened GrantLifecycle
  import opened GrantOperations
  import opened GrantDecisions
  import opened GrantEvolution
  import opened GrantRecords
  import opened GrantRuns

  ghost predicate WithinCapacity(grants: seq<Grant>, settings: Settings) {
    PendingCount(grants) <= settings.maxPendingGlobal
    && forall client :: PendingOf(grants, client) <= settings.maxPendingPerClient
  }

  // A grant that is not pending never becomes so.
  lemma {:induction false} PendingOnlyFalls(a: seq<Grant>, b: seq<Grant>, client: string)
    requires Evolves(a, b) && |a| == |b|
    ensures PendingCount(b) <= PendingCount(a) && PendingOf(b, client) <= PendingOf(a, client)
  {
    if a != [] {
      var last := |a| - 1;
      assert GrantEvolves(a[last], b[last]);
      hide GrantEvolves;
      PendingOnlyFalls(a[..last], b[..last], client);
    }
  }

  lemma CapacityOnlyFalls(a: seq<Grant>, b: seq<Grant>, settings: Settings)
    requires Evolves(a, b) && |a| == |b| && WithinCapacity(a, settings)
    ensures WithinCapacity(b, settings)
  {
    hide Evolves;
    PendingOnlyFalls(a, b, "");
    forall client ensures PendingOf(b, client) <= settings.maxPendingPerClient {
      PendingOnlyFalls(a, b, client);
    }
  }

  lemma {:induction false} SameStatusCounts(a: seq<Grant>, b: seq<Grant>, client: string)
    requires |a| == |b| && forall i :: 0 <= i < |a| ==> a[i].status == b[i].status && a[i].subject == b[i].subject
    ensures PendingCount(a) == PendingCount(b) && PendingOf(a, client) == PendingOf(b, client)
  {
    if a != [] {
      var last := |a| - 1;
      SameStatusCounts(a[..last], b[..last], client);
    }
  }

  lemma RevisedCounts(grants: seq<Grant>, before: map<string, Grant>, client: string)
    ensures PendingCount(ReviseAll(grants, before)) == PendingCount(grants)
    ensures PendingOf(ReviseAll(grants, before), client) == PendingOf(grants, client)
  {
    forall i | 0 <= i < |grants|
      ensures grants[i].status == ReviseAll(grants, before)[i].status && grants[i].subject == ReviseAll(grants, before)[i].subject
    {
      RevisedUsage(grants[i], before);
    }
    hide ReviseAll;
    SameStatusCounts(grants, ReviseAll(grants, before), client);
  }

  lemma CountsWithOneMore(grants: seq<Grant>, grant: Grant, client: string)
    requires grant.status == Pending
    ensures PendingCount(grants + [grant]) == PendingCount(grants) + 1
    ensures PendingOf(grants + [grant], client) == PendingOf(grants, client) + if grant.subject.client == client then 1 else 0
  {
    assert (grants + [grant])[..|grants|] == grants;
  }

  // A creation appends a pending grant only below both limits.
  lemma CreateKeepsCapacity(data: Data, request: Request, newId: Option<string>, settings: Settings, times: Times)
    requires Normal(request) && WithinCapacity(data.grants, settings)
    ensures WithinCapacity(CreateGrant(data, request, newId, settings, times).data.grants, settings)
  {
    hide Normal, FindIdempotent, SameRequest, Evolves, PendingOf, PendingCount, ExpireGrants;
    var expired := ExpireDue(data, times.third);
    ExpireEvolves(data.grants, times.third);
    assert |ExpireGrants(data.grants, times.third)| == |data.grants| by { ExpireKeepsIdentity(data.grants, times.third); }
    CapacityOnlyFalls(data.grants, expired.grants, settings);
    var after := CreateGrant(data, request, newId, settings, times).data.grants;
    if after != expired.grants {
      var grant := NewGrant(request, newId.value, times.fourth);
      CountsWithOneMore(expired.grants, grant, "");
      forall client ensures PendingOf(after, client) <= settings.maxPendingPerClient {
        CountsWithOneMore(expired.grants, grant, client);
      }
    }
  }

  lemma UpdateKeepsCapacity(data: Data, earlier: Time, command: Command, settings: Settings, times: Times)
    requires ValidSettings(settings) && Admissible(command) && Ordered(times) && Fresh(data, command)
    requires Kept(data, earlier) && earlier <= times.first && WithinCapacity(data.grants, settings)
    ensures WithinCapacity(Update(data, command, settings, times).data.grants, settings)
  {
    hide Coherent, Evolves, Prepare, Mutate, Reconcile, ReviseAll, Snapshots, WithinCapacity, EventsKept, Numbered, Normal, ValidUseIdentity;
    var prepared := Prepare(data, times.first, times.second, settings.reservationTimeout);
    PrepareEvolves(data, earlier, times.first, times.second, settings.reservationTimeout);
    CapacityOnlyFalls(data.grants, prepared.grants, settings);
    var changed := Mutate(prepared, command, settings, times).data;
    if command.Create? {
      CreateKeepsCapacity(prepared, command.request, command.newId, settings, times);
      MutateCreates(prepared, command, settings, times);
    } else {
      PrepareKeeps(data, earlier, times.first, times.second, settings.reservationTimeout);
      CoherentLater(prepared, times.second, times.third);
      MutateEvolves(prepared, command, settings, times);
      MutateKeepsLength(prepared, command, settings, times);
      CapacityOnlyFalls(prepared.grants, changed.grants, settings);
    }
    ReconciledGrants(changed, Snapshots(data.grants), settings.maxEvents);
    RevisedKeepsCapacity(changed.grants, Snapshots(data.grants), settings);
  }

  lemma MutateCreates(data: Data, command: Command, settings: Settings, times: Times)
    requires ValidSettings(settings) && Admissible(command) && command.Create?
    ensures Mutate(data, command, settings, times) == CreateGrant(data, command.request, command.newId, settings, times)
  {
  }

  lemma MutateKeepsLength(data: Data, command: Command, settings: Settings, times: Times)
    requires ValidSettings(settings) && Admissible(command) && !command.Create?
    ensures |Mutate(data, command, settings, times).data.grants| == |data.grants|
  {
    hide Mutate, Admissible;
    MutateExtends(data, command, settings, times);
  }

  lemma RevisedKeepsCapacity(grants: seq<Grant>, before: map<string, Grant>, settings: Settings)
    requires WithinCapacity(grants, settings)
    ensures WithinCapacity(ReviseAll(grants, before), settings)
  {
    hide ReviseAll, PendingCount, PendingOf;
    RevisedCounts(grants, before, "");
    forall client ensures PendingOf(ReviseAll(grants, before), client) <= settings.maxPendingPerClient {
      RevisedCounts(grants, before, client);
    }
  }

  lemma DecideKeepsLength(data: Data, decision: Decision, correlation: string, check: Check, settings: Settings, times: Times)
    requires ValidSettings(settings)
    ensures |Decide(data, decision, correlation, check, settings, times).data.grants| == |data.grants|
  {
    hide Prepared, Commit, ApplyDecision, Scope, FindRecord, Replay, CurrentCursor;
    PreparedKeepsLength(data, settings, times);
    var prepared := Prepared(data, settings, times);
    var index := GrantIndex(prepared.grants, decision.id);
    if index.Some? {
      CommitRecords(data, prepared, index.value,
                    ApplyDecision(prepared.grants[index.value], decision, correlation, check, times.third).0, settings, times);
    }
  }

  lemma PreparedKeepsLength(data: Data, settings: Settings, times: Times)
    requires ValidSettings(settings)
    ensures |Prepared(data, settings, times).grants| == |data.grants|
  {
    hide Prepare, Reconcile, Snapshots;
    PrepareKeepsLength(data, times.first, times.second, settings.reservationTimeout);
    ReconciledGrants(Prepare(data, times.first, times.second, settings.reservationTimeout), Snapshots(data.grants), settings.maxEvents);
  }

  lemma MaintenanceKeepsLength(data: Data, call: Call, times: Times, settings: Settings)
    requires ValidSettings(settings) && !call.Change? && !call.DecideBy?
    ensures |Performed(data, call, times, settings).grants| == |data.grants|
  {
    hide Prepare, Reconcile, Snapshots, NewEvents;
    PrepareKeepsLength(data, times.first, times.second, settings.reservationTimeout);
    ReconciledGrants(Prepare(data, times.first, times.second, settings.reservationTimeout), Snapshots(data.grants), settings.maxEvents);
    ReconciledGrants(ExpireDue(data, times.first), Snapshots(data.grants), settings.maxEvents);
  }

  lemma StepKeepsCapacity(data: Data, earlier: Time, entry: Entry, settings: Settings)
    requires ValidSettings(settings) && AtRest(data, earlier) && Legal(data, entry, earlier) && WithinCapacity(data.grants, settings)
    ensures WithinCapacity(Step(data, entry, settings).grants, settings)
  {
    hide Kept, RecordsKept, Evolves, Update, Decide, Reconcile, Prepare, ExpireDue, DeadlineMet, WithinCapacity, Admissible, Fresh, ValidCommand;
    if entry.stored {
      match entry.call {
        case Change(command) => UpdateKeepsCapacity(data, earlier, command, settings, entry.times);
        case DecideBy(decision, correlation, check) =>
          PerformedKeeps(data, earlier, entry.call, entry.times, settings);
          DecideKeepsLength(data, decision, correlation, check, settings, entry.times);
          CapacityOnlyFalls(data.grants, Step(data, entry, settings).grants, settings);
        case _ =>
          PerformedKeeps(data, earlier, entry.call, entry.times, settings);
          MaintenanceKeepsLength(data, entry.call, entry.times, settings);
          CapacityOnlyFalls(data.grants, Step(data, entry, settings).grants, settings);
      }
    }
  }

  lemma {:induction false} RunKeepsCapacity(data: Data, run: seq<Entry>, now: Time, settings: Settings)
    requires ValidSettings(settings) && AtRest(data, now) && LegalRun(data, run, now, settings) && WithinCapacity(data.grants, settings)
    ensures WithinCapacity(After(data, run, now, settings).grants, settings)
    decreases |run|
  {
    hide AtRest, Allowed, Step, Fresh, ValidCommand, WithinCapacity;
    if run != [] {
      StepKeeps(data, now, run[0], settings);
      StepKeepsCapacity(data, now, run[0], settings);
      RunKeepsCapacity(Step(data, run[0], settings), run[1..], run[0].times.fourth, settings);
    }
  }

  // In every reachable state no more requests are pending than the store allows, in all and for each client.
  lemma PendingIsBounded(run: seq<Entry>, settings: Settings, client: string)
    requires ValidSettings(settings) && LegalRun(EMPTY, run, 0, settings)
    ensures var grants := After(EMPTY, run, 0, settings).grants;
            PendingCount(grants) <= settings.maxPendingGlobal && PendingOf(grants, client) <= settings.maxPendingPerClient
  {
    hide LegalRun, After, AtRest;
    EmptyIsAtRest();
    RunKeepsCapacity(EMPTY, run, 0, settings);
  }
}
