// The grant file as the store works on it: loaded from disk, changed in place, and saved.
module GrantFile {
  import opened Options
  import opened GrantData
  import Life = GrantLifecycle
  import Ops = GrantOperations
  import Choice = GrantDecisions

  // --- Searches and counts over loaded data.

  lemma {:induction false} IndexFrom(grants: seq<Grant>, id: string, i: nat)
    requires i <= |grants| && forall j :: 0 <= j < i ==> grants[j].id != id
    ensures GrantIndex(grants, id) ==
            match GrantIndex(grants[i..], id) case None => None case Some(k) => Some(i + k)
  {
    if i == 0 {
      assert grants[0..] == grants;
    } else {
      IndexFrom(grants[1..], id, i - 1);
      assert grants[1..][i - 1..] == grants[i..];
    }
  }

  method FindGrant(grants: seq<Grant>, id: string) returns (index: Option<nat>)
    ensures index == GrantIndex(grants, id)
  {
    for i := 0 to |grants|
      invariant forall j :: 0 <= j < i ==> grants[j].id != id
    {
      if grants[i].id == id {
        IndexFrom(grants, id, i);
        return Some(i);
      }
    }
    IndexFrom(grants, id, |grants|);
    return None;
  }

  lemma {:induction false} UseIndexFrom(uses: seq<Use>, requestId: string, k: nat)
    requires k <= |uses| && forall j :: 0 <= j < k ==> uses[j].requestId != requestId
    ensures UseIndex(uses, requestId) ==
            match UseIndex(uses[k..], requestId) case None => None case Some(n) => Some(k + n)
  {
    if k == 0 {
      assert uses[0..] == uses;
    } else {
      UseIndexFrom(uses[1..], requestId, k - 1);
      assert uses[1..][k - 1..] == uses[k..];
    }
  }

  method FindUse(uses: seq<Use>, requestId: string) returns (index: Option<nat>)
    ensures index == UseIndex(uses, requestId)
  {
    for k := 0 to |uses|
      invariant forall j :: 0 <= j < k ==> uses[j].requestId != requestId
    {
      if uses[k].requestId == requestId {
        UseIndexFrom(uses, requestId, k);
        return Some(k);
      }
    }
    UseIndexFrom(uses, requestId, |uses|);
    return None;
  }

  method AggregateGrantUses(grant: Grant, uses: seq<Use>) returns (counted: Grant)
    ensures counted == Ops.Recount(grant, uses)
  {
    var usage := UNUSED;
    assert uses[..0] == [];
    hide AddUse;
    for k := 0 to |uses|
      invariant usage == Tally(grant.id, uses[..k])
    {
      assert uses[..k + 1] == uses[..k] + [uses[k]];
      TallyAppend(grant.id, uses[..k], uses[k]);
      if uses[k].grantId == grant.id {
        usage := AddUse(usage, uses[k]);
      }
    }
    assert uses[..|uses|] == uses;
    counted := grant.(usage := usage);
  }

  lemma PendingStep(grants: seq<Grant>, i: nat, client: string)
    requires i < |grants|
    ensures Ops.PendingOf(grants[..i + 1], client)
            == Ops.PendingOf(grants[..i], client) + if grants[i].status == Pending && grants[i].subject.client == client then 1 else 0
    ensures Ops.PendingCount(grants[..i + 1])
            == Ops.PendingCount(grants[..i]) + if grants[i].status == Pending then 1 else 0
  {
    assert grants[..i + 1][..i] == grants[..i];
  }

  method PendingCapacityAvailable(grants: seq<Grant>, client: string, settings: Ops.Settings) returns (available: bool)
    ensures available == Ops.HasCapacity(grants, client, settings)
  {
    var clientPending, globalPending := 0, 0;
    assert grants[..0] == [];
    for i := 0 to |grants|
      invariant clientPending == Ops.PendingOf(grants[..i], client)
      invariant globalPending == Ops.PendingCount(grants[..i])
    {
      PendingStep(grants, i, client);
      if grants[i].status != Pending {
        continue;
      }
      globalPending := globalPending + 1;
      if grants[i].subject.client == client {
        clientPending := clientPending + 1;
      }
    }
    assert grants[..|grants|] == grants;
    available := clientPending < settings.maxPendingPerClient && globalPending < settings.maxPendingGlobal;
  }

  // --- The loader's checks.

  method ValidateLoadedGrants(grants: seq<Grant>) returns (valid: bool)
    ensures valid <==> (forall i :: 0 <= i < |grants| ==> LoadedGrant(grants[i])) && DistinctGrants(grants)
  {
    hide LoadedGrant;
    var seen: set<string> := {};
    for i := 0 to |grants|
      invariant seen == set j | 0 <= j < i :: grants[j].id
      invariant forall j :: 0 <= j < i ==> LoadedGrant(grants[j])
      invariant DistinctGrants(grants[..i])
    {
      if grants[i].id in seen || !LoadedGrant(grants[i]) {
        return false;
      }
      seen := seen + {grants[i].id};
    }
    assert grants[..|grants|] == grants;
    return true;
  }

  method ValidateLoadedUseRecords(grants: seq<Grant>, uses: seq<Use>) returns (valid: bool)
    ensures valid <==> (forall k :: 0 <= k < |uses| ==> LoadedUseAt(uses, k, grants)) && DistinctUses(uses)
  {
    hide LoadedUse;
    var seen: set<string> := {};
    for k := 0 to |uses|
      invariant seen == set j | 0 <= j < k :: uses[j].requestId
      invariant forall j :: 0 <= j < k ==> LoadedUseAt(uses, j, grants)
      invariant DistinctUses(uses[..k])
    {
      var index := FindGrant(grants, uses[k].grantId);
      if index.None? || uses[k].requestId in seen || !LoadedUse(uses[k], grants[index.value].subject.operation) {
        assert uses[k].requestId !in seen ==> !LoadedUseAt(uses, k, grants);
        return false;
      }
      seen := seen + {uses[k].requestId};
    }
    assert uses[..|uses|] == uses;
    return true;
  }

  lemma RevisionStep(id: string, uses: seq<Use>, k: nat)
    requires k < |uses|
    ensures RevisionTotal(id, uses[..k + 1]) == RevisionTotal(id, uses[..k]) + if uses[k].grantId == id then uses[k].revision else 0
  {
    assert uses[..k + 1] == uses[..k] + [uses[k]];
    TallyAppend(id, uses[..k], uses[k]);
  }

  method UseRevisionTotal(id: string, uses: seq<Use>) returns (total: nat)
    ensures total == RevisionTotal(id, uses)
  {
    total := 0;
    for k := 0 to |uses|
      invariant total == RevisionTotal(id, uses[..k])
    {
      RevisionStep(id, uses, k);
      if uses[k].grantId == id {
        total := total + uses[k].revision;
      }
    }
    assert uses[..|uses|] == uses;
  }

  method ValidateLoadedUseAggregates(grants: seq<Grant>, uses: seq<Use>) returns (valid: bool)
    ensures valid <==> forall i :: 0 <= i < |grants| ==> Counted(grants[i], uses)
  {
    for i := 0 to |grants|
      invariant forall j :: 0 <= j < i ==> Counted(grants[j], uses)
    {
      var grant := grants[i];
      var aggregated := AggregateGrantUses(grant, uses);
      var total := UseRevisionTotal(grant.id, uses);
      if grant.usage != aggregated.usage || grant.useRevision != aggregated.usage.used || grant.reservationRevision != total {
        assert !Counted(grant, uses);
        return false;
      }
    }
    return true;
  }

  method NormalizeLoadedEvents(events: seq<Event>, nextEvent: nat) returns (valid: bool)
    ensures valid <==> OrderedEvents(events, nextEvent)
  {
    var previous := 0;
    for i := 0 to |events|
      invariant i == 0 ==> previous == 0
      invariant i > 0 ==> previous == events[i - 1].sequence
      invariant forall j :: 0 <= j < i ==> 0 < events[j].sequence <= previous
      invariant forall j, k :: 0 <= j < k < i ==> events[j].sequence < events[k].sequence
    {
      if events[i].sequence == 0 || events[i].sequence <= previous {
        return false;
      }
      previous := events[i].sequence;
    }
    return nextEvent != 0 && nextEvent > previous;
  }

  method Validate(data: Data) returns (valid: bool)
    ensures valid <==> LoaderAccepts(data)
  {
    hide LoadedGrant, LoadedUseAt, Counted, OrderedEvents, DistinctGrants, DistinctUses;
    valid := ValidateLoadedGrants(data.grants);
    if valid {
      valid := ValidateLoadedUseRecords(data.grants, data.uses);
    }
    if valid {
      valid := ValidateLoadedUseAggregates(data.grants, data.uses);
    }
    if valid {
      valid := NormalizeLoadedEvents(data.events, data.nextEvent);
    }
  }

  // --- Lemmas about partly processed lists.

  lemma NewestOfEnd(events: seq<Event>, cut: nat, limit: nat)
    requires cut <= |events| && (cut == 0 || |events| - cut >= limit)
    ensures Life.Newest(events[cut..], limit) == Life.Newest(events, limit)
  {
    assert cut == 0 ==> events[cut..] == events;
    assert |events| - cut > limit ==> events[cut..][|events| - cut - limit..] == events[|events| - limit..];
  }

  lemma NewestTwice(events: seq<Event>, first: seq<Event>, second: seq<Event>, limit: nat)
    ensures Life.Newest(Life.Newest(events + first, limit) + second, limit) == Life.Newest(events + (first + second), limit)
  {
    var all := events + first + second;
    assert all == events + (first + second);
    var cut := if |events + first| > limit then |events + first| - limit else 0;
    assert Life.Newest(events + first, limit) + second == all[cut..];
    hide Life.Newest;
    NewestOfEnd(all, cut, limit);
  }

  lemma AppendTwice(data: Data, first: seq<Event>, second: seq<Event>, limit: nat)
    ensures Life.Append(Life.Append(data, first, limit), second, limit) == Life.Append(data, first + second, limit)
  {
    if first == [] {
      assert first + second == second;
    } else if second == [] {
      assert first + second == first;
    } else {
      NewestTwice(data.events, first, second, limit);
    }
  }

  // The state after reconciling the first grants.
  ghost function Reconciled(data: Data, before: map<string, Grant>, limit: nat, i: nat): Data
    requires i <= |data.grants|
  {
    Life.Append(data.(grants := Life.ReviseAll(data.grants[..i], before) + data.grants[i..]),
                Life.NewEvents(data.grants[..i], before, data.nextEvent), limit)
  }

  lemma ReconciledNone(data: Data, before: map<string, Grant>, limit: nat)
    ensures Reconciled(data, before, limit, 0) == data
  {
    assert Life.ReviseAll(data.grants[..0], before) + data.grants[0..] == data.grants;
  }

  lemma ReconciledAll(data: Data, before: map<string, Grant>, limit: nat)
    ensures Reconciled(data, before, limit, |data.grants|) == Life.Reconcile(data, before, limit)
  {
    assert data.grants[..|data.grants|] == data.grants;
    assert Life.ReviseAll(data.grants, before) + data.grants[|data.grants|..] == Life.ReviseAll(data.grants, before);
  }

  lemma ReconciledStep(data: Data, before: map<string, Grant>, limit: nat, i: nat)
    requires i < |data.grants|
    ensures var now := Reconciled(data, before, limit, i);
            && i < |now.grants| && now.grants[i] == data.grants[i]
            && Reconciled(data, before, limit, i + 1)
               == Life.Append(now.(grants := now.grants[i := Life.Revise(data.grants[i], before)]),
                              Life.EventsOf(data.grants[i], before, now.nextEvent), limit)
  {
    hide Life.Revise, Life.EventsOf, Life.Newest;
    var earlier := Life.NewEvents(data.grants[..i], before, data.nextEvent);
    assert data.grants[..i + 1][..i] == data.grants[..i];
    var now := Reconciled(data, before, limit, i);
    assert now.grants[i := Life.Revise(data.grants[i], before)]
        == Life.ReviseAll(data.grants[..i + 1], before) + data.grants[i + 1..];
    AppendTwice(data.(grants := now.grants[i := Life.Revise(data.grants[i], before)]), earlier,
                Life.EventsOf(data.grants[i], before, now.nextEvent), limit);
  }

  lemma EventsOfPrefix(grant: Grant, before: map<string, Grant>, next: nat, j: nat)
    requires j < |Life.Kinds(Life.Previous(before, grant.id), grant)|
    ensures var events, kinds := Life.EventsOf(grant, before, next), Life.Kinds(Life.Previous(before, grant.id), grant);
            && |events| == |kinds|
            && events[..j + 1]
               == events[..j] + [Life.EventOf(next + j, kinds[j], Life.Revise(grant, before), Life.Previous(before, grant.id))]
  {
    hide Life.Kinds, Life.Revise;
  }

  lemma StaleStep(id: string, uses: seq<Use>, k: nat, grants: seq<Grant>, now: Time, timeout: nat)
    requires k < |uses|
    ensures Life.StaleUses(id, uses[..k + 1], grants, now, timeout)
            == Life.StaleUses(id, uses[..k], grants, now, timeout)
               + if uses[k].grantId == id && Life.Stale(uses[k], grants, now, timeout) then 1 else 0
  {
    assert uses[..k + 1][..k] == uses[..k];
  }

  // How many uses of each grant became stale, for the grants that have one.
  ghost predicate Counts(stale: map<string, nat>, uses: seq<Use>, grants: seq<Grant>, now: Time, timeout: nat) {
    forall id: string ::
      && (id in stale <==> Life.StaleUses(id, uses, grants, now, timeout) > 0)
      && (id in stale ==> stale[id] == Life.StaleUses(id, uses, grants, now, timeout))
  }

  lemma CountsStep(stale: map<string, nat>, uses: seq<Use>, k: nat, grants: seq<Grant>, now: Time, timeout: nat)
    requires k < |uses| && Counts(stale, uses[..k], grants, now, timeout)
    ensures var id := uses[k].grantId;
            Counts(if Life.Stale(uses[k], grants, now, timeout) then stale[id := (if id in stale then stale[id] else 0) + 1] else stale,
                   uses[..k + 1], grants, now, timeout)
  {
    hide Life.Stale, Life.StaleUses;
    forall id: string
      ensures Life.StaleUses(id, uses[..k + 1], grants, now, timeout)
              == Life.StaleUses(id, uses[..k], grants, now, timeout)
                 + if uses[k].grantId == id && Life.Stale(uses[k], grants, now, timeout) then 1 else 0
    {
      StaleStep(id, uses, k, grants, now, timeout);
    }
  }

  lemma CountsNone(grants: seq<Grant>, now: Time, timeout: nat)
    ensures Counts(map[], [], grants, now, timeout)
  {
  }

  // --- The file.

  class FileData {
    var grants: seq<Grant>
    var uses: seq<Use>
    var events: seq<Event>
    var nextEvent: nat
    var records: seq<Record>

    constructor (data: Data)
      ensures Value() == data
    {
      grants, uses, events, nextEvent, records := data.grants, data.uses, data.events, data.nextEvent, data.records;
    }

    function Value(): Data
      reads this
    {
      Data(grants, uses, events, nextEvent, records)
    }

    method ExpireDue(now: Time) returns (changed: bool)
      modifies this
      ensures Value() == Life.ExpireDue(old(Value()), now)
      ensures changed <==> Value() != old(Value())
    {
      hide Life.ExpireGrant;
      ghost var before := grants;
      changed := false;
      for i := 0 to |grants|
        invariant |grants| == |before|
        invariant forall j :: 0 <= j < i ==> grants[j] == Life.ExpireGrant(before[j], now)
        invariant forall j :: i <= j < |grants| ==> grants[j] == before[j]
        invariant Value() == old(Value()).(grants := grants)
        invariant changed <==> grants != before
      {
        var grant := grants[i];
        ExpiryBranches(grant, now);
        if grant.status == Pending && now >= grant.pendingExpiresAt {
          grant := grant.(expiredFrom := Some(grant.status), status := Expired, decidedAt := now);
        } else if grant.status == Active && now >= grant.expiresAt {
          grant := grant.(expiredFrom := Some(grant.status), status := Expired);
        } else {
          continue;
        }
        grants := grants[i := grant];
        changed := true;
        assert grants[i] != before[i];
      }
      assert grants == Life.ExpireGrants(before, now);
    }

    method RetainStaleReservations(now: Time, timeout: nat) returns (changed: bool)
      requires DistinctGrants(grants)
      modifies this
      ensures Value() == Life.RetainStale(old(Value()), now, timeout)
      ensures changed <==> Value() != old(Value())
    {
      var stale := RetainUses(now, timeout);
      changed := stale != map[];
      ghost var marked := Value();
      RecountGrants(stale);
      StaleMeansChanged(old(Value()), stale, now, timeout);
      RetainedGrants(old(Value()), Value().grants, stale, now, timeout);
    }

    // The first loop: mark the stale uses and count them by grant.
    method RetainUses(now: Time, timeout: nat) returns (stale: map<string, nat>)
      modifies this
      ensures Value() == old(Value()).(uses := Life.RetainUses(old(uses), old(grants), now, timeout))
      ensures Counts(stale, old(uses), old(grants), now, timeout)
    {
      ghost var before := uses;
      stale := map[];
      CountsNone(grants, now, timeout);
      assert before[..0] == [];
      hide Counts, Life.Stale;
      for k := 0 to |uses|
        invariant |uses| == |before|
        invariant forall j :: 0 <= j < k ==> uses[j] == Life.RetainUse(before[j], grants, now, timeout)
        invariant forall j :: k <= j < |uses| ==> uses[j] == before[j]
        invariant Value() == old(Value()).(uses := uses)
        invariant Counts(stale, before[..k], grants, now, timeout)
      {
        CountsStep(stale, before, k, grants, now, timeout);
        var use := uses[k];
        if !Life.Stale(use, grants, now, timeout) {
          continue;
        }
        uses := uses[k := use.(state := Retained, revision := use.revision + 1, updatedAt := now)];
        stale := stale[use.grantId := (if use.grantId in stale then stale[use.grantId] else 0) + 1];
      }
      assert before[..|before|] == before;
      assert uses == Life.RetainUses(before, grants, now, timeout);
    }

    // The second loop: recount the grants concerned, in any order.
    method RecountGrants(stale: map<string, nat>)
      requires DistinctGrants(grants)
      modifies this
      ensures Value() == old(Value()).(grants := grants) && |grants| == |old(grants)|
      ensures forall i :: 0 <= i < |grants| ==> grants[i] == Retaining(old(grants[i]), stale, uses)
    {
      hide GrantIndex, Tally;
      ghost var before := grants;
      var remaining := stale.Keys;
      while remaining != {}
        invariant remaining <= stale.Keys
        invariant |grants| == |before| && Value() == old(Value()).(grants := grants)
        invariant forall i :: 0 <= i < |grants| ==>
                                grants[i] == if before[i].id in remaining then before[i] else Retaining(before[i], stale, uses)
        decreases |remaining|
      {
        var id :| id in remaining;
        assert forall i :: 0 <= i < |grants| ==> grants[i].id == before[i].id;
        var index := FindGrant(grants, id);
        if index.Some? {
          var grant := grants[index.value];
          grant := AggregateGrantUses(grant.(reservationRevision := grant.reservationRevision + stale[id]), uses);
          grants := grants[index.value := grant];
        }
        remaining := remaining - {id};
      }
    }

    method PrepareLifecycle(first: Time, second: Time, timeout: nat) returns (changed: bool)
      requires DistinctGrants(grants)
      modifies this
      ensures Value() == Life.Prepare(old(Value()), first, second, timeout)
      ensures changed <==> Value() != old(Value())
    {
      ghost var start := Value();
      var expired := ExpireDue(first);
      Life.ExpireKeepsIdentity(start.grants, first);
      var retained := RetainStaleReservations(second, timeout);
      changed := expired || retained;
      PrepareChanges(start, first, second, timeout);
    }

    method AppendLifecycleEvent(kind: EventKind, grant: Grant, previous: Option<Grant>, limit: nat)
      modifies this
      ensures Value() == Life.Append(old(Value()), [Life.EventOf(old(nextEvent), kind, grant, previous)], limit)
    {
      var record := Life.EventOf(nextEvent, kind, grant, previous);
      nextEvent := nextEvent + 1;
      events := events + [record];
      if |events| > limit {
        events := events[|events| - limit..];
      }
    }

    // The events of one grant.
    method AppendLifecycleEvents(before: map<string, Grant>, grant: Grant, limit: nat)
      modifies this
      ensures Value() == Life.Append(old(Value()), Life.EventsOf(grant, before, old(nextEvent)), limit)
    {
      ghost var start, all := Value(), Life.EventsOf(grant, before, nextEvent);
      var previous := Life.Previous(before, grant.id);
      var kinds := Life.Kinds(previous, grant);
      var revised := Life.Revise(grant, before);
      AppendNothing(start, limit);
      assert all[..0] == [] && |all| == |kinds|;
      hide Life.Append, Life.Kinds, Life.EventOf, Life.Revise, Life.EventsOf;
      for j := 0 to |kinds|
        invariant |all| == |kinds| && Value() == Life.Append(start, all[..j], limit)
        invariant nextEvent == start.nextEvent + j
      {
        EventsOfPrefix(grant, before, start.nextEvent, j);
        AppendNext(start, all, j, Life.EventOf(nextEvent, kinds[j], revised, previous), limit);
        AppendLifecycleEvent(kinds[j], revised, previous, limit);
      }
      assert all[..|kinds|] == all;
    }

    method ReconcileLifecycle(before: map<string, Grant>, limit: nat) returns (changed: bool)
      modifies this
      ensures Value() == Life.Reconcile(old(Value()), before, limit)
      ensures changed <==> Life.NewEvents(old(grants), before, old(nextEvent)) != []
    {
      ghost var start := Value();
      ReconciledNone(start, before, limit);
      NoNewEvents(start, before);
      hide Reconciled, Life.Kinds, Life.Revise, Life.NewEvents, Life.EventsOf, Life.Append;
      changed := false;
      var n := |grants|;
      for i := 0 to n
        invariant n == |start.grants| && Value() == Reconciled(start, before, limit, i)
        invariant changed <==> Life.NewEvents(start.grants[..i], before, start.nextEvent) != []
      {
        ReconciledStep(start, before, limit, i);
        NewEventsStep(start, before, i);
        var grant := grants[i];
        if Life.Kinds(Life.Previous(before, grant.id), grant) == [] {
          NothingToReconcile(Value(), before, limit, i);
          continue;
        }
        grants := grants[i := Life.Revise(grant, before)];
        AppendLifecycleEvents(before, grant, limit);
        changed := true;
      }
      ReconciledAll(start, before, limit);
      assert start.grants[..n] == start.grants;
    }

    // --- The changes.

    method CreateGrant(request: Ops.Request, id: Option<string>, settings: Ops.Settings, times: Ops.Times)
      returns (error: Option<Ops.Error>, granted: Option<string>)
      requires Ops.Normal(request)
      modifies this
      ensures Ops.Mutation(Value(), error) == Ops.CreateGrant(old(Value()), request, id, settings, times)
      ensures error.None? ==> granted == Ops.Requested(old(Value()), request, id, times) && granted.Some?
    {
      hide Ops.Normal, Ops.SameRequest, Ops.HasCapacity, Ops.FindIdempotent, Life.ExpireGrants;
      var _ := ExpireDue(times.third);
      var existing := FindIdempotentGrant(grants, request.subject);
      if existing.Some? {
        return if Ops.SameRequest(existing.value, request) then None else Some(Ops.IdempotencyConflict), Some(existing.value.id);
      }
      var available := PendingCapacityAvailable(grants, request.subject.client, settings);
      if !available {
        return Some(Ops.Capacity), None;
      }
      if id.None? {
        return Some(Ops.NoIdentity), None;
      }
      grants := grants + [Ops.NewGrant(request, id.value, times.fourth)];
      return None, id;
    }

    method RevokeActive(id: string, approver: string, now: Time) returns (error: Option<Ops.Error>)
      modifies this
      ensures Ops.Mutation(Value(), error) == Ops.RevokeActive(old(Value()), id, approver, now)
    {
      var index := FindGrant(grants, id);
      if index.None? {
        return Some(Ops.NotFound);
      }
      var grant := grants[index.value];
      if grant.status != Active {
        return Some(Ops.NotActive);
      }
      grant := grant.(status := Revoked);
      grant := grant.(decidedAt := now);
      grant := grant.(decidedBy := approver);
      grants := grants[index.value := grant];
      return None;
    }

    method CloseForClient(id: string, client: string, required: Status, next: Status, now: Time) returns (error: Option<Ops.Error>)
      modifies this
      ensures Ops.Mutation(Value(), error) == Ops.CloseOwn(old(Value()), id, client, required, next, now)
    {
      var index := FindGrant(grants, id);
      if index.None? || grants[index.value].subject.client != client {
        return Some(Ops.NotFound);
      }
      var grant := grants[index.value];
      if grant.status != required {
        if required == Pending {
          return Some(Ops.NotPending);
        }
        return Some(Ops.NotActive);
      }
      grant := grant.(status := next);
      grant := grant.(decidedAt := now);
      grant := grant.(decidedBy := client);
      grants := grants[index.value := grant];
      return None;
    }

    method ReserveExistingUse(k: nat, id: string, operation: string, now: Time) returns (error: Option<Ops.Error>)
      requires k < |uses|
      modifies this
      ensures Ops.Mutation(Value(), error) == Ops.ReserveExisting(old(Value()), k, id, operation, now)
    {
      hide Ops.CanUse, Tally;
      var use := uses[k];
      if use.grantId != id || use.operation != operation {
        return Some(Ops.UseIdentityConflict);
      }
      if use.state != Released {
        return None;
      }
      var index := FindGrant(grants, id);
      if index.None? {
        return Some(Ops.NotFound);
      }
      var grant := grants[index.value];
      if !Ops.CanUse(grant, now) {
        return Some(Ops.NotActive);
      }
      uses := uses[k := use.(state := Reserved, revision := use.revision + 1, updatedAt := now, settledAt := 0)];
      grant := AggregateGrantUses(grant.(reservationRevision := grant.reservationRevision + 1), uses);
      grants := grants[index.value := grant];
      return None;
    }

    method ReserveNewUse(id: string, requestId: string, operation: string, now: Time) returns (error: Option<Ops.Error>)
      modifies this
      ensures Ops.Mutation(Value(), error) == Ops.ReserveNew(old(Value()), id, requestId, operation, now)
    {
      hide Ops.CanUse, Tally;
      var index := FindGrant(grants, id);
      if index.None? {
        return Some(Ops.NotFound);
      }
      var grant := grants[index.value];
      if grant.subject.operation != operation {
        return Some(Ops.UseIdentityConflict);
      }
      if !Ops.CanUse(grant, now) {
        return Some(Ops.NotActive);
      }
      uses := uses + [Use(id, requestId, operation, Reserved, 1, now, now, 0)];
      grant := AggregateGrantUses(grant.(reservationRevision := grant.reservationRevision + 1), uses);
      grants := grants[index.value := grant];
      return None;
    }

    method ReserveUse(id: string, requestId: string, operation: string, now: Time) returns (error: Option<Ops.Error>)
      modifies this
      ensures Ops.Mutation(Value(), error) == Ops.Reserve(old(Value()), id, requestId, operation, now)
    {
      var k := FindUse(uses, requestId);
      if k.Some? {
        error := ReserveExistingUse(k.value, id, operation, now);
      } else {
        error := ReserveNewUse(id, requestId, operation, now);
      }
    }

    method SettleStoredUse(id: string, requestId: string, target: UseState, now: Time) returns (error: Option<Ops.Error>)
      modifies this
      ensures Ops.Mutation(Value(), error) == Ops.Settle(old(Value()), id, requestId, target, now)
    {
      hide Tally, Ops.ConsumeSpent;
      var k := FindUse(uses, requestId);
      if k.None? || uses[k.value].grantId != id {
        return Some(Ops.UseIdentityConflict);
      }
      var index := FindGrant(grants, id);
      if index.None? {
        return Some(Ops.NotFound);
      }
      var use, grant := uses[k.value], grants[index.value];
      if use.state == target {
        return None;
      }
      if Settled(use.state) {
        return Some(Ops.UseSettled);
      }
      if !Life.Settleable(grant.status) {
        return Some(Ops.NotActive);
      }
      ApplyUseSettlement(k.value, index.value, target, now);
      return None;
    }

    method ApplyUseSettlement(k: nat, index: nat, target: UseState, now: Time)
      requires k < |uses| && index < |grants|
      modifies this
      ensures var settled := old(uses)[k := Ops.SettledUse(old(uses)[k], target, now)];
              Value() == old(Value()).(uses := settled,
                                       grants := old(grants)[index := Ops.Settling(old(grants)[index], settled, target)])
    {
      hide Tally;
      var use, grant := uses[k], grants[index];
      use := use.(state := target, revision := use.revision + 1, updatedAt := now);
      if Settled(target) {
        use := use.(settledAt := now);
      }
      uses := uses[k := use];
      grant := grant.(reservationRevision := grant.reservationRevision + 1);
      if target == Committed {
        grant := grant.(useRevision := grant.useRevision + 1);
      }
      grant := AggregateGrantUses(grant, uses);
      grants := grants[index := Ops.ConsumeSpent(grant)];
    }

    method RecordExecution(id: string, kind: EventKind, limit: nat) returns (error: Option<Ops.Error>)
      modifies this
      ensures Ops.Mutation(Value(), error) == Ops.Execute(old(Value()), id, kind, limit)
    {
      hide Life.Append, Life.EventOf;
      var index := FindGrant(grants, id);
      if index.None? {
        return Some(Ops.NotFound);
      }
      AppendLifecycleEvent(kind, grants[index.value], Some(grants[index.value]), limit);
      return None;
    }

    method Mutate(command: Ops.Command, settings: Ops.Settings, times: Ops.Times)
      returns (error: Option<Ops.Error>, granted: Option<string>)
      requires Ops.ValidSettings(settings) && Ops.Admissible(command)
      modifies this
      ensures Ops.Mutation(Value(), error) == Ops.Mutate(old(Value()), command, settings, times)
      ensures command.Create? && error.None? ==>
                granted == Ops.Requested(old(Value()), command.request, command.newId, times) && granted.Some?
    {
      hide Ops.CreateGrant, Ops.RevokeActive, Ops.CloseOwn, Ops.Reserve, Ops.Settle, Ops.Execute;
      granted := None;
      match command {
        case Create(request, newId) => error, granted := CreateGrant(request, newId, settings, times);
        case RevokeGrant(id, approver) => error := RevokeActive(id, approver, times.third);
        case CancelForClient(id, client) => error := CloseForClient(id, client, Pending, Canceled, times.third);
        case RevokeForClient(id, client) => error := CloseForClient(id, client, Active, Revoked, times.third);
        case ReserveUse(id, requestId, operation) => error := ReserveUse(id, requestId, operation, times.third);
        case SettleUse(id, requestId, target) => error := SettleStoredUse(id, requestId, target, times.third);
        case RecordExecution(id, kind) => error := RecordExecution(id, kind, settings.maxEvents);
      }
    }
  }

  lemma {:induction false} IdempotentFrom(grants: seq<Grant>, subject: Subject, i: nat)
    requires i <= |grants| && subject.requestId != ""
    requires forall j :: 0 <= j < i ==> !Ops.Repeats(grants[j], subject)
    ensures Ops.FindIdempotent(grants, subject) == Ops.FindIdempotent(grants[i..], subject)
  {
    if i == 0 {
      assert grants[0..] == grants;
    } else {
      IdempotentFrom(grants[1..], subject, i - 1);
      assert grants[1..][i - 1..] == grants[i..];
    }
  }

  method FindIdempotentGrant(grants: seq<Grant>, subject: Subject) returns (found: Option<Grant>)
    ensures found == Ops.FindIdempotent(grants, subject)
  {
    if subject.requestId == "" {
      return None;
    }
    for i := 0 to |grants|
      invariant forall j :: 0 <= j < i ==> !Ops.Repeats(grants[j], subject)
    {
      if Ops.Repeats(grants[i], subject) {
        IdempotentFrom(grants, subject, i);
        return Some(grants[i]);
      }
    }
    IdempotentFrom(grants, subject, |grants|);
    return None;
  }

  // Expiry changes a status and retention does not, so neither undoes the other.
  lemma PrepareChanges(data: Data, first: Time, second: Time, timeout: nat)
    ensures Life.Prepare(data, first, second, timeout) != data
            <==> Life.ExpireDue(data, first) != data
                 || Life.RetainStale(Life.ExpireDue(data, first), second, timeout) != Life.ExpireDue(data, first)
  {
    hide Life.RetainUse, Life.StaleUses, Tally;
    var expired := Life.ExpireDue(data, first);
    var after := Life.RetainStale(expired, second, timeout);
    if expired != data {
      assert (forall i :: 0 <= i < |data.grants| ==> expired.grants[i] == data.grants[i]) ==> expired.grants == data.grants;
      var i :| 0 <= i < |data.grants| && expired.grants[i] != data.grants[i];
      assert after.grants[i].status == expired.grants[i].status != data.grants[i].status;
    }
  }

  lemma AppendNothing(data: Data, limit: nat)
    ensures Life.Append(data, [], limit) == data
  {
  }

  lemma AppendNext(data: Data, events: seq<Event>, j: nat, event: Event, limit: nat)
    requires j < |events| && events[..j + 1] == events[..j] + [event]
    ensures Life.Append(Life.Append(data, events[..j], limit), [event], limit) == Life.Append(data, events[..j + 1], limit)
    ensures Life.Append(data, events[..j + 1], limit).nextEvent == data.nextEvent + j + 1
  {
    AppendTwice(data, events[..j], [event], limit);
  }

  lemma NoNewEvents(data: Data, before: map<string, Grant>)
    ensures Life.NewEvents(data.grants[..0], before, data.nextEvent) == []
  {
  }

  lemma NewEventsStep(data: Data, before: map<string, Grant>, i: nat)
    requires i < |data.grants|
    ensures Life.NewEvents(data.grants[..i + 1], before, data.nextEvent) != []
            <==> Life.NewEvents(data.grants[..i], before, data.nextEvent) != []
                 || Life.Kinds(Life.Previous(before, data.grants[i].id), data.grants[i]) != []
  {
    hide Life.Kinds, Life.Revise;
    assert data.grants[..i + 1][..i] == data.grants[..i];
  }

  lemma NothingToReconcile(data: Data, before: map<string, Grant>, limit: nat, i: nat)
    requires i < |data.grants| && Life.Kinds(Life.Previous(before, data.grants[i].id), data.grants[i]) == []
    ensures Life.Append(data.(grants := data.grants[i := Life.Revise(data.grants[i], before)]),
                        Life.EventsOf(data.grants[i], before, data.nextEvent), limit) == data
  {
    hide Life.Kinds;
    assert data.grants[i := data.grants[i]] == data.grants;
  }

  lemma ExpiryBranches(grant: Grant, now: Time)
    ensures Life.ExpireGrant(grant, now) ==
            if grant.status == Pending && now >= grant.pendingExpiresAt then
              grant.(expiredFrom := Some(grant.status), status := Expired, decidedAt := now)
            else if grant.status == Active && now >= grant.expiresAt then
              grant.(expiredFrom := Some(grant.status), status := Expired)
            else grant
  {
  }

  ghost function Retaining(grant: Grant, stale: map<string, nat>, uses: seq<Use>): Grant {
    if grant.id in stale then
      Ops.Recount(grant.(reservationRevision := grant.reservationRevision + stale[grant.id]), uses)
    else grant
  }

  lemma RetainedGrants(data: Data, grants: seq<Grant>, stale: map<string, nat>, now: Time, timeout: nat)
    requires Counts(stale, data.uses, data.grants, now, timeout) && |grants| == |data.grants|
    requires forall i :: 0 <= i < |grants| ==>
                           grants[i] == Retaining(data.grants[i], stale, Life.RetainUses(data.uses, data.grants, now, timeout))
    ensures grants == Life.RetainGrants(data.uses, data.grants, now, timeout)
  {
    hide Life.StaleUses, Life.RetainUses, Tally;
  }

  lemma {:induction false} StaleAt(id: string, uses: seq<Use>, k: nat, grants: seq<Grant>, now: Time, timeout: nat)
    requires k < |uses| && uses[k].grantId == id && Life.Stale(uses[k], grants, now, timeout)
    ensures Life.StaleUses(id, uses, grants, now, timeout) > 0
  {
    hide Life.Stale;
    if k < |uses| - 1 {
      StaleAt(id, uses[..|uses| - 1], k, grants, now, timeout);
    }
  }

  lemma {:induction false} StaleIsSomewhere(id: string, uses: seq<Use>, grants: seq<Grant>, now: Time, timeout: nat) returns (k: nat)
    requires Life.StaleUses(id, uses, grants, now, timeout) > 0
    ensures k < |uses| && Life.Stale(uses[k], grants, now, timeout)
  {
    hide Life.Stale;
    k := |uses| - 1;
    if !Life.Stale(uses[k], grants, now, timeout) {
      k := StaleIsSomewhere(id, uses[..|uses| - 1], grants, now, timeout);
    }
  }

  lemma StaleMeansChanged(data: Data, stale: map<string, nat>, now: Time, timeout: nat)
    requires Counts(stale, data.uses, data.grants, now, timeout)
    ensures stale != map[] <==> Life.RetainStale(data, now, timeout) != data
  {
    hide Life.Stale, Life.StaleUses, Tally;
    var after := Life.RetainStale(data, now, timeout);
    if stale != map[] {
      var id :| id in stale;
      var k := StaleIsSomewhere(id, data.uses, data.grants, now, timeout);
      assert after.uses[k].revision == data.uses[k].revision + 1;
    } else {
      forall k | 0 <= k < |data.uses| ensures !Life.Stale(data.uses[k], data.grants, now, timeout) {
        if Life.Stale(data.uses[k], data.grants, now, timeout) {
          StaleAt(data.uses[k].grantId, data.uses, k, data.grants, now, timeout);
        }
      }
      assert after.uses == data.uses && after.grants == data.grants;
    }
  }
}
