// How a grant may change from one state of the store to a later one: its status only moves forward,
// its revision and its committed uses only grow, and its authority only narrows.
module GrantEvolution {
  import opened Options
  import opened GrantData
  import opened GrantLifecycle
  import opened GrantOperations
  import opened GrantDecisions

  // The status graph, closed under composition.
  predicate Follows(a: Status, b: Status) {
    || a == b || a == Pending
    || (a == Active && (b == Expired || b == Consumed || b == Revoked))
    || (a == Expired && b == Consumed)
  }

  predicate GrantEvolves(a: Grant, b: Grant) {
    && b.id == a.id && b.subject == a.subject && b.createdAt == a.createdAt && b.pendingExpiresAt == a.pendingExpiresAt
    && b.requestedDuration == a.requestedDuration && b.requestedMaxUses == a.requestedMaxUses
    && b.pendingTimeout == a.pendingTimeout && b.maxUsesDefaulted == a.maxUsesDefaulted
    && a.revision <= b.revision
    && Follows(a.status, b.status)
    && a.usage.used <= b.usage.used && a.reservationRevision <= b.reservationRevision
    && b.duration <= a.duration && (b.maxUses == a.maxUses || Within(b.maxUses, a.maxUses))
    && (a.status != Pending ==> b.duration == a.duration && b.maxUses == a.maxUses)
  }

  predicate Evolves(a: seq<Grant>, b: seq<Grant>) {
    |a| <= |b| && forall i :: 0 <= i < |a| ==> GrantEvolves(a[i], b[i])
  }

  lemma EvolvesTrans(a: seq<Grant>, b: seq<Grant>, c: seq<Grant>)
    requires Evolves(a, b) && Evolves(b, c)
    ensures Evolves(a, c)
  {
    forall i | 0 <= i < |a| ensures GrantEvolves(a[i], c[i]) {
      assert GrantEvolves(a[i], b[i]) && GrantEvolves(b[i], c[i]);
    }
  }

  lemma EvolvesSelf(a: seq<Grant>)
    ensures Evolves(a, a)
  {
  }

  lemma EvolvesAt(a: seq<Grant>, i: nat, grant: Grant)
    requires i < |a| && GrantEvolves(a[i], grant)
    ensures Evolves(a, a[i := grant])
  {
  }

  lemma {:induction false} IndexEvolves(a: seq<Grant>, b: seq<Grant>, id: string)
    requires Evolves(a, b) && GrantIndex(a, id).Some?
    ensures GrantIndex(b, id) == GrantIndex(a, id)
  {
    if a[0].id != id {
      assert forall i :: 0 <= i < |a[1..]| ==> a[1..][i] == a[i + 1] && b[1..][i] == b[i + 1];
      IndexEvolves(a[1..], b[1..], id);
    }
  }

  // --- Preparation.

  lemma ExpireEvolves(grants: seq<Grant>, now: Time)
    ensures Evolves(grants, ExpireGrants(grants, now))
  {
  }

  lemma RetainGrantEvolves(grant: Grant, uses: seq<Use>, grants: seq<Grant>, now: Time, timeout: nat)
    requires GrantKept(grant, uses)
    ensures GrantEvolves(grant, RetainGrant(grant, uses, grants, now, timeout))
  {
    hide Formed, Budgeted, Narrowed, Tally, RevisionTotal, RetainUses, StaleUses;
    TallyOfRetained(grant.id, uses, grants, now, timeout);
  }

  lemma RetainEvolves(data: Data, earlier: Time, now: Time, timeout: nat)
    requires Coherent(data, earlier)
    ensures Evolves(data.grants, RetainStale(data, now, timeout).grants)
  {
    hide GrantKept, GrantEvolves, RetainGrant;
    var after := RetainGrants(data.uses, data.grants, now, timeout);
    forall i | 0 <= i < |data.grants| ensures GrantEvolves(data.grants[i], after[i]) {
      RetainGrantEvolves(data.grants[i], data.uses, data.grants, now, timeout);
    }
  }

  lemma PrepareEvolves(data: Data, earlier: Time, first: Time, second: Time, timeout: nat)
    requires Coherent(data, earlier) && earlier <= first
    ensures Evolves(data.grants, Prepare(data, first, second, timeout).grants)
    ensures |Prepare(data, first, second, timeout).grants| == |data.grants|
  {
    hide Coherent, Evolves, RetainStale, ExpireGrants;
    ExpireDueKeeps(data, earlier, first);
    ExpireEvolves(data.grants, first);
    RetainEvolves(ExpireDue(data, first), first, second, timeout);
    EvolvesTrans(data.grants, ExpireDue(data, first).grants, Prepare(data, first, second, timeout).grants);
    PrepareKeepsLength(data, first, second, timeout);
  }

  lemma PrepareKeepsLength(data: Data, first: Time, second: Time, timeout: nat)
    ensures |Prepare(data, first, second, timeout).grants| == |data.grants|
  {
  }

  // --- Reconciliation.

  // No grant is more than one revision ahead of what it is compared with.
  predicate Revisable(grants: seq<Grant>, before: map<string, Grant>) {
    forall i :: 0 <= i < |grants| ==>
                  grants[i].revision <= if grants[i].id in before then before[grants[i].id].revision + 1 else 1
  }

  lemma ReviseEvolves(grants: seq<Grant>, before: map<string, Grant>)
    requires Revisable(grants, before)
    ensures Evolves(grants, ReviseAll(grants, before))
    ensures Revisable(ReviseAll(grants, before), before)
  {
    hide Kinds;
  }

  lemma SameRevisionsAreRevisable(data: Data, grants: seq<Grant>)
    requires DistinctGrants(data.grants) && Extends(data.grants, grants)
    requires |grants| > |data.grants| ==> grants[|data.grants|].revision <= 1
    ensures Revisable(grants, Snapshots(data.grants))
  {
    hide Snapshots;
    forall i | 0 <= i < |grants|
      ensures grants[i].revision <=
              if grants[i].id in Snapshots(data.grants) then Snapshots(data.grants)[grants[i].id].revision + 1 else 1
    {
      SnapshotOf(data.grants, grants[i].id);
      if i < |data.grants| {
        IndexOfGrant(data.grants, i);
      }
    }
  }

  lemma IdentityExtends(a: seq<Grant>, b: seq<Grant>)
    requires SameIdentity(a, b) && SameRevisions(a, b)
    ensures Extends(a, b)
  {
  }

  // --- Updates.

  lemma ReservingEvolves(grant: Grant, before: seq<Use>, uses: seq<Use>)
    requires GrantKept(grant, before) && Tally(grant.id, uses).used >= grant.usage.used
    ensures GrantEvolves(grant, Reserving(grant, uses))
  {
    hide Formed, Counted, Budgeted, Tally;
  }

  lemma SettlingEvolves(grant: Grant, before: seq<Use>, uses: seq<Use>, target: UseState)
    requires GrantKept(grant, before) && Tally(grant.id, uses).used >= grant.usage.used && Settleable(grant.status)
    ensures GrantEvolves(grant, Settling(grant, uses, target))
  {
    hide Formed, Counted, Budgeted, Tally;
  }

  lemma ReserveEvolves(data: Data, id: string, requestId: string, operation: string, now: Time)
    requires Coherent(data, now)
    ensures Evolves(data.grants, Reserve(data, id, requestId, operation, now).data.grants)
  {
    hide GrantKept, GrantEvolves, Tally, RevisionTotal, Reserving, CanUse;
    EvolvesSelf(data.grants);
    var after := Reserve(data, id, requestId, operation, now).data;
    if after != data {
      var i := GrantIndex(data.grants, id).value;
      KeptIsCounted(data.grants[i], data.uses);
      match UseIndex(data.uses, requestId) {
        case Some(k) => TallyUpdate(id, data.uses, k, after.uses[k]);
        case None => TallyAppend(id, data.uses, after.uses[|data.uses|]);
      }
      ReservingEvolves(data.grants[i], data.uses, after.uses);
      EvolvesAt(data.grants, i, Reserving(data.grants[i], after.uses));
    }
  }

  lemma SettleEvolves(data: Data, id: string, requestId: string, target: UseState, now: Time)
    requires Coherent(data, now)
    ensures Evolves(data.grants, Settle(data, id, requestId, target, now).data.grants)
  {
    hide GrantKept, GrantEvolves, Tally, RevisionTotal, Settling;
    EvolvesSelf(data.grants);
    var after := Settle(data, id, requestId, target, now).data;
    if after != data {
      var i, k := GrantIndex(data.grants, id).value, UseIndex(data.uses, requestId).value;
      KeptIsCounted(data.grants[i], data.uses);
      TallyUpdate(id, data.uses, k, after.uses[k]);
      SettlingEvolves(data.grants[i], data.uses, after.uses, target);
      EvolvesAt(data.grants, i, Settling(data.grants[i], after.uses, target));
    }
  }

  lemma CloseEvolves(data: Data, id: string, status: Status, closer: string, now: Time)
    requires GrantIndex(data.grants, id).Some? && Follows(data.grants[GrantIndex(data.grants, id).value].status, status)
    ensures Evolves(data.grants, CloseGrant(data, id, status, closer, now).grants)
  {
  }

  lemma CreateEvolves(data: Data, request: Request, newId: Option<string>, settings: Settings, times: Times)
    requires Normal(request)
    ensures Evolves(data.grants, CreateGrant(data, request, newId, settings, times).data.grants)
  {
    hide GrantEvolves, ExpireGrants, Normal, FindIdempotent, SameRequest, HasCapacity;
    ExpireEvolves(data.grants, times.third);
  }

  lemma MutateEvolves(data: Data, command: Command, settings: Settings, times: Times)
    requires ValidSettings(settings) && Admissible(command) && Ordered(times)
    requires Coherent(data, times.third)
    ensures Evolves(data.grants, Mutate(data, command, settings, times).data.grants)
  {
    hide Coherent, GrantEvolves, Normal, ValidUseIdentity, CreateGrant, Reserve, Settle, CloseGrant;
    var after := Mutate(data, command, settings, times).data;
    EvolvesSelf(data.grants);
    match command {
      case Create(request, newId) => CreateEvolves(data, request, newId, settings, times);
      case RevokeGrant(id, approver) =>
        if after != data { CloseEvolves(data, id, Revoked, approver, times.third); }
      case CancelForClient(id, client) =>
        if after != data { CloseEvolves(data, id, Canceled, client, times.third); }
      case RevokeForClient(id, client) =>
        if after != data { CloseEvolves(data, id, Revoked, client, times.third); }
      case ReserveUse(id, requestId, operation) => ReserveEvolves(data, id, requestId, operation, times.third);
      case SettleUse(id, requestId, target) => SettleEvolves(data, id, requestId, target, times.third);
      case RecordExecution(id, kind) => assert after.grants == data.grants;
    }
  }

  lemma NewRevisionIsZero(data: Data, command: Command, settings: Settings, times: Times)
    requires ValidSettings(settings) && Admissible(command)
    ensures var after := Mutate(data, command, settings, times).data.grants;
            |after| > |data.grants| ==> after[|data.grants|].revision == 0
  {
    hide Normal, ValidUseIdentity, FindIdempotent, HasCapacity, SameRequest, CanUse, Tally, GrantIndex, UseIndex;
  }

  lemma UpdateEvolves(data: Data, earlier: Time, command: Command, settings: Settings, times: Times)
    requires ValidSettings(settings) && Admissible(command) && Ordered(times)
    requires Kept(data, earlier) && earlier <= times.first
    ensures Evolves(data.grants, Update(data, command, settings, times).data.grants)
  {
    hide Coherent, Evolves, Prepare, Mutate, Reconcile, ReviseAll, Extends, SameRevisions, SameIdentity, Snapshots;
    hide EventsKept, Numbered, Normal, ValidUseIdentity, Revisable;
    var prepared := Prepare(data, times.first, times.second, settings.reservationTimeout);
    PrepareKeeps(data, earlier, times.first, times.second, settings.reservationTimeout);
    PrepareEvolves(data, earlier, times.first, times.second, settings.reservationTimeout);
    CoherentLater(prepared, times.second, times.third);
    MutateEvolves(prepared, command, settings, times);
    var changed := Mutate(prepared, command, settings, times).data;
    EvolvesTrans(data.grants, prepared.grants, changed.grants);
    IdentityExtends(data.grants, prepared.grants);
    MutateExtends(prepared, command, settings, times);
    NewRevisionIsZero(prepared, command, settings, times);
    ExtendsTrans(data.grants, prepared.grants, changed.grants);
    CoherentIsDistinct(data, earlier);
    SameRevisionsAreRevisable(data, changed.grants);
    ReviseEvolves(changed.grants, Snapshots(data.grants));
    ReconciledGrants(changed, Snapshots(data.grants), settings.maxEvents);
    EvolvesTrans(data.grants, changed.grants, ReviseAll(changed.grants, Snapshots(data.grants)));
  }

  lemma ExtendsTrans(a: seq<Grant>, b: seq<Grant>, c: seq<Grant>)
    requires Extends(a, b) && |a| == |b| && Extends(b, c)
    ensures Extends(a, c)
  {
  }

  lemma ReconciledGrants(data: Data, before: map<string, Grant>, limit: nat)
    ensures Reconcile(data, before, limit).grants == ReviseAll(data.grants, before)
    ensures Reconcile(data, before, limit).uses == data.uses
    ensures Reconcile(data, before, limit).records == data.records
  {
  }

  // --- Decisions.

  lemma ApplyDecisionEvolves(grant: Grant, uses: seq<Use>, command: Decision, correlation: string, check: Check, now: Time)
    requires GrantKept(grant, uses)
    ensures GrantEvolves(grant, ApplyDecision(grant, command, correlation, check, now).0)
  {
    hide ValidSubject, ValidFailure, Tally, RevisionTotal;
  }

  lemma PreparedEvolves(data: Data, earlier: Time, settings: Settings, times: Times)
    requires ValidSettings(settings) && Ordered(times) && Kept(data, earlier) && earlier <= times.first
    ensures Evolves(data.grants, Prepared(data, settings, times).grants)
    ensures Revisable(Prepared(data, settings, times).grants, Snapshots(data.grants))
    ensures |Prepared(data, settings, times).grants| == |data.grants|
  {
    hide Coherent, Evolves, Prepare, Extends, SameRevisions, Snapshots, Revise, NewEvents, Append, Revisable;
    var prepared := Prepare(data, times.first, times.second, settings.reservationTimeout);
    PrepareKeeps(data, earlier, times.first, times.second, settings.reservationTimeout);
    PrepareEvolves(data, earlier, times.first, times.second, settings.reservationTimeout);
    IdentityExtends(data.grants, prepared.grants);
    CoherentIsDistinct(data, earlier);
    assert |prepared.grants| == |data.grants|;
    SameRevisionsAreRevisable(data, prepared.grants);
    ReviseEvolves(prepared.grants, Snapshots(data.grants));
    ReconciledGrants(prepared, Snapshots(data.grants), settings.maxEvents);
    EvolvesTrans(data.grants, prepared.grants, ReviseAll(prepared.grants, Snapshots(data.grants)));
    EvolvesSelf(data.grants);
  }
}
