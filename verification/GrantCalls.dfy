// When each update succeeds, and what it changes, in terms of the state that is at rest before it.
module GrantCalls {
  import opened Options
  import opened GrantData
  import opened GrantLifecycle
  import opened GrantOperations
  import opened GrantDecisions
  import opened GrantEvolution
  import opened GrantRuns
  import GrantRequests

  // --- What preparation does.

  // A deadline that has come is kept at once, and no other status changes.
  predicate Due(grant: Grant, now: Time) {
    (grant.status == Pending && grant.pendingExpiresAt <= now) || (grant.status == Active && grant.expiresAt <= now)
  }

  predicate Expires(grant: Grant, now: Time, after: Grant) {
    if Due(grant, now) then
      && after.status == Expired && after.expiredFrom == Some(grant.status)
      && after.decidedAt == (if grant.status == Pending then now else grant.decidedAt)
    else after.status == grant.status && after.expiredFrom == grant.expiredFrom && after.decidedAt == grant.decidedAt
  }

  // A reservation lapses once its timeout has passed.
  predicate Lapses(use: Use, second: Time, timeout: nat) {
    use.state == Reserved && use.updatedAt + timeout <= second
  }

  lemma PreparedGrant(data: Data, now: Time, times: Times, timeout: nat, i: nat)
    requires Coherent(data, now) && now <= times.first && i < |data.grants|
    ensures var grant, after := data.grants[i], Prepare(data, times.first, times.second, timeout).grants[i];
            && |Prepare(data, times.first, times.second, timeout).grants| == |data.grants|
            && Expires(grant, times.first, after)
            && after == grant.(status := after.status, expiredFrom := after.expiredFrom, decidedAt := after.decidedAt,
                               usage := after.usage, reservationRevision := after.reservationRevision)
            && after.usage.used == grant.usage.used && after.usage.reserved == grant.usage.reserved
  {
    hide UsesKept, RetainUses, Formed, Narrowed, Budgeted, Tally, RevisionTotal, StaleUses;
    var expired := ExpireDue(data, times.first);
    ExpireDueKeeps(data, now, times.first);
    assert GrantKept(expired.grants[i], expired.uses);
    TallyOfRetained(expired.grants[i].id, expired.uses, expired.grants, times.second, timeout);
  }

  lemma PreparedUse(data: Data, now: Time, times: Times, timeout: nat, k: nat)
    requires Coherent(data, now) && now <= times.first && k < |data.uses|
    ensures var use, uses := data.uses[k], Prepare(data, times.first, times.second, timeout).uses;
            && |uses| == |data.uses|
            && uses[k] == if Lapses(use, times.second, timeout)
                          then use.(state := Retained, revision := use.revision + 1, updatedAt := times.second) else use
  {
    hide Coherent;
    var expired := ExpireDue(data, times.first);
    ExpireDueKeeps(data, now, times.first);
    if data.uses[k].state == Reserved {
      HolderIsSettleable(expired, times.first, k);
      UsesAreSet(expired, times.first, k);
    }
  }

  // Only a grant in a state that can still settle it holds an outstanding use.
  lemma HolderIsSettleable(data: Data, now: Time, k: nat)
    requires Coherent(data, now) && k < |data.uses| && !Settled(data.uses[k].state)
    ensures var index := GrantIndex(data.grants, data.uses[k].grantId);
            index.Some? && Settleable(data.grants[index.value].status)
  {
    hide Formed, Narrowed, Tally, RevisionTotal, LoadedUse;
    assert UseKept(data.uses[k], data.grants, now);
    var i := GrantIndex(data.grants, data.uses[k].grantId).value;
    assert GrantKept(data.grants[i], data.uses);
    OutstandingIsCounted(data.uses[k].grantId, data.uses, k);
  }

  lemma UsesAreSet(data: Data, now: Time, k: nat)
    requires Coherent(data, now) && k < |data.uses|
    ensures data.uses[k].updatedAt > 0
  {
    hide GrantsKept;
    assert UseKept(data.uses[k], data.grants, now);
  }

  // Once anything has been prepared, no grant is past its deadline and no reservation past its timeout.
  lemma NothingIsOverdue(data: Data, now: Time, times: Times, timeout: nat)
    requires Coherent(data, now) && Ordered(times) && now <= times.first
    ensures var after := Prepare(data, times.first, times.second, timeout);
            && (forall i :: 0 <= i < |after.grants| ==> !Due(after.grants[i], times.first))
            && forall k :: 0 <= k < |after.uses| ==> !Lapses(after.uses[k], times.second, timeout)
  {
    hide Coherent, Prepare;
    var after := Prepare(data, times.first, times.second, timeout);
    PreparedLength(data, times, timeout);
    forall i | 0 <= i < |after.grants| ensures !Due(after.grants[i], times.first) {
      PreparedGrant(data, now, times, timeout, i);
    }
    forall k | 0 <= k < |after.uses| ensures !Lapses(after.uses[k], times.second, timeout) {
      PreparedUse(data, now, times, timeout, k);
    }
  }

  lemma PreparedLength(data: Data, times: Times, timeout: nat)
    ensures |Prepare(data, times.first, times.second, timeout).uses| == |data.uses|
    ensures |Prepare(data, times.first, times.second, timeout).grants| == |data.grants|
  {
  }

  // --- Uses.

  // The grant can be used: it is active and not expired, and its committed and outstanding uses leave
  // room in a finite budget.
  ghost predicate Reservable(grant: Grant, uses: seq<Use>, now: Time) {
    && grant.status == Active && now < grant.expiresAt
    && (IsFinite(grant.maxUses) ==>
          |UsesIn(grant.id, uses, {Committed})| + |UsesIn(grant.id, uses, {Reserved, Retained})| < grant.maxUses)
  }

  // Every grant but one is as it was, except for the revision that reconciliation gives it.
  ghost predicate OthersRest(before: Data, after: Data, index: nat) {
    && |after.grants| == |before.grants| && index < |before.grants|
    && forall i :: 0 <= i < |before.grants| && i != index ==>
                     after.grants[i] == before.grants[i].(revision := after.grants[i].revision)
  }

  lemma UpdateOf(data: Data, command: Command, settings: Settings, times: Times)
    requires ValidSettings(settings) && Admissible(command)
    ensures var change := Update(data, command, settings, times);
            var mutated := Mutate(Prepare(data, times.first, times.second, settings.reservationTimeout), command, settings, times);
            && change.error == mutated.error && change.data.uses == mutated.data.uses
            && |change.data.grants| == |mutated.data.grants|
            && forall i :: 0 <= i < |mutated.data.grants| ==>
                 change.data.grants[i] == mutated.data.grants[i].(revision := change.data.grants[i].revision)
  {
    hide Prepare, Mutate, Reconcile, Snapshots, Admissible, Revise;
    var mutated := Mutate(Prepare(data, times.first, times.second, settings.reservationTimeout), command, settings, times).data;
    ReconciledGrants(mutated, Snapshots(data.grants), settings.maxEvents);
    forall i | 0 <= i < |mutated.grants|
      ensures Revise(mutated.grants[i], Snapshots(data.grants)) == mutated.grants[i].(revision := Revise(mutated.grants[i], Snapshots(data.grants)).revision)
    {
      RevisedUsage(mutated.grants[i], Snapshots(data.grants));
    }
  }

  // What preparation leaves of a grant that can be used.
  lemma UsableIsPrepared(data: Data, now: Time, times: Times, timeout: nat, i: nat)
    requires Coherent(data, now) && Ordered(times) && now <= times.first && i < |data.grants|
    ensures CanUse(Prepare(data, times.first, times.second, timeout).grants[i], times.third)
            <==> Reservable(data.grants[i], data.uses, times.third)
  {
    hide Coherent, Prepare, UsesIn;
    PreparedGrant(data, now, times, timeout, i);
    KeptUsage(data, now, i);
    TallyCounts(data.grants[i].id, data.uses);
  }

  lemma KeptUsage(data: Data, now: Time, i: nat)
    requires Coherent(data, now) && i < |data.grants|
    ensures data.grants[i].usage == Tally(data.grants[i].id, data.uses) && data.grants[i].maxUses >= 0
    ensures data.grants[i].reservationRevision == RevisionTotal(data.grants[i].id, data.uses)
  {
    hide UsesKept, ValidSubject, ValidFailure, Narrowed, Budgeted, Tally, RevisionTotal;
    assert GrantKept(data.grants[i], data.uses);
  }

  lemma PreparedIndex(data: Data, now: Time, times: Times, timeout: nat, id: string)
    requires Coherent(data, now) && Ordered(times) && now <= times.first
    ensures GrantIndex(Prepare(data, times.first, times.second, timeout).grants, id) == GrantIndex(data.grants, id)
  {
    hide Coherent, Prepare;
    PrepareKeeps(data, now, times.first, times.second, timeout);
    IndexOfIdentity(data.grants, Prepare(data, times.first, times.second, timeout).grants, id);
  }

  lemma PreparedUseIndex(data: Data, times: Times, timeout: nat, requestId: string)
    ensures UseIndex(Prepare(data, times.first, times.second, timeout).uses, requestId) == UseIndex(data.uses, requestId)
  {
    GrantRequests.SameUseIndex(data.uses, Prepare(data, times.first, times.second, timeout).uses, requestId);
  }

  // One more outstanding use of one grant, and no other change of any grant.
  ghost predicate Holds(before: Data, after: Data, index: nat) {
    && OthersRest(before, after, index)
    && var grant, held := before.grants[index], after.grants[index];
       && held == grant.(revision := held.revision, reservationRevision := grant.reservationRevision + 1, usage := held.usage)
       && held.usage.reserved == grant.usage.reserved + 1 && held.usage.used == grant.usage.used
  }

  lemma ReserveNewStep(data: Data, now: Time, id: string, requestId: string, operation: string, later: Time)
    requires Coherent(data, now)
    ensures var change, index := ReserveNew(data, id, requestId, operation, later), GrantIndex(data.grants, id);
            && change.error == (if index.None? then Some(NotFound)
                                else if data.grants[index.value].subject.operation != operation then Some(UseIdentityConflict)
                                else if !CanUse(data.grants[index.value], later) then Some(NotActive)
                                else None)
            && (change.error.Some? ==> change.data == data)
            && (change.error.None? ==>
                  && change.data.uses == data.uses + [Use(id, requestId, operation, Reserved, 1, later, later, 0)]
                  && Holds(data, change.data, index.value))
  {
    hide Coherent, CanUse, Tally, RevisionTotal;
    var index := GrantIndex(data.grants, id);
    if index.Some? {
      KeptUsage(data, now, index.value);
      TallyAppend(id, data.uses, Use(id, requestId, operation, Reserved, 1, later, later, 0));
    }
  }

  lemma ReserveExistingStep(data: Data, now: Time, k: nat, id: string, operation: string, later: Time)
    requires Coherent(data, now) && k < |data.uses|
    ensures var change, index := ReserveExisting(data, k, id, operation, later), GrantIndex(data.grants, id);
            var use := data.uses[k];
            if use.grantId != id || use.operation != operation then change == Mutation(data, Some(UseIdentityConflict))
            else if use.state != Released then change == Mutation(data, None)
            else
              && index.Some?
              && (!CanUse(data.grants[index.value], later) ==> change == Mutation(data, Some(NotActive)))
              && (CanUse(data.grants[index.value], later) ==>
                    && change.error.None?
                    && change.data.uses == data.uses[k := use.(state := Reserved, revision := use.revision + 1, updatedAt := later, settledAt := 0)]
                    && Holds(data, change.data, index.value))
  {
    hide GrantsKept, CanUse, Tally, RevisionTotal, LoadedUse;
    var use := data.uses[k];
    assert UseKept(use, data.grants, now);
    if use.grantId == id && use.state == Released {
      KeptUsage(data, now, GrantIndex(data.grants, id).value);
      TallyUpdate(id, data.uses, k, use.(state := Reserved, revision := use.revision + 1, updatedAt := later, settledAt := 0));
    }
  }

  // The update carries over what its step did to the prepared state.
  lemma UpdateHolds(data: Data, command: Command, index: nat, settings: Settings, times: Times)
    requires ValidSettings(settings) && Admissible(command)
    requires var before := Prepare(data, times.first, times.second, settings.reservationTimeout);
             Holds(before, Mutate(before, command, settings, times).data, index)
    ensures Holds(Prepare(data, times.first, times.second, settings.reservationTimeout),
                  Update(data, command, settings, times).data, index)
  {
    hide Prepare, Mutate, Update, Admissible;
    UpdateOf(data, command, settings, times);
  }

  // A reservation under a new identity succeeds exactly if its grant exists for that operation and can
  // be used; then one use is appended, and nothing else but the counts of its grant changes.
  lemma ReserveExactly(data: Data, now: Time, id: string, requestId: string, operation: string, settings: Settings, times: Times)
    requires ValidSettings(settings) && Ordered(times) && Kept(data, now) && now <= times.first
    requires ValidUseIdentity(id, requestId, operation) && UseIndex(data.uses, requestId).None?
    ensures var change, index := Update(data, ReserveUse(id, requestId, operation), settings, times), GrantIndex(data.grants, id);
            var before := Prepare(data, times.first, times.second, settings.reservationTimeout);
            && change.error == (if index.None? then Some(NotFound)
                                else if data.grants[index.value].subject.operation != operation then Some(UseIdentityConflict)
                                else if !Reservable(data.grants[index.value], data.uses, times.third) then Some(NotActive)
                                else None)
            && change.data.uses == (if change.error.Some? then before.uses
                                    else before.uses + [Use(id, requestId, operation, Reserved, 1, times.third, times.third, 0)])
            && (change.error.None? ==> Holds(before, change.data, index.value))
  {
    hide Coherent, Prepare, CanUse, Reservable, Reconcile, Snapshots, ValidUseIdentity, ReserveNew, Holds, Update;
    var before := Prepare(data, times.first, times.second, settings.reservationTimeout);
    PreparedIndex(data, now, times, settings.reservationTimeout, id);
    PreparedUseIndex(data, times, settings.reservationTimeout, requestId);
    PrepareKeeps(data, now, times.first, times.second, settings.reservationTimeout);
    UpdateOf(data, ReserveUse(id, requestId, operation), settings, times);
    ReserveNewStep(before, times.second, id, requestId, operation, times.third);
    var index := GrantIndex(data.grants, id);
    if index.Some? {
      UsableIsPrepared(data, now, times, settings.reservationTimeout, index.value);
      PreparedGrant(data, now, times, settings.reservationTimeout, index.value);
      if ReserveNew(before, id, requestId, operation, times.third).error.None? {
        UpdateHolds(data, ReserveUse(id, requestId, operation), index.value, settings, times);
      }
    }
  }

  ghost predicate Renews(data: Data, k: nat, id: string, operation: string, settings: Settings, times: Times)
    requires ValidSettings(settings) && k < |data.uses| && ValidUseIdentity(id, data.uses[k].requestId, operation)
  {
    var use, index := data.uses[k], GrantIndex(data.grants, id);
    var before := Prepare(data, times.first, times.second, settings.reservationTimeout);
    var change := Update(data, ReserveUse(id, use.requestId, operation), settings, times);
    if use.grantId != id || use.operation != operation then change.error == Some(UseIdentityConflict) && change.data.uses == before.uses
    else if use.state != Released then change.error == None && change.data.uses == before.uses
    else
      && index.Some? && k < |before.uses|
      && if Reservable(data.grants[index.value], data.uses, times.third) then
           && change.error == None && Holds(before, change.data, index.value)
           && change.data.uses
              == before.uses[k := use.(state := Reserved, revision := use.revision + 1, updatedAt := times.third, settledAt := 0)]
         else change.error == Some(NotActive) && change.data.uses == before.uses
  }

  // A reservation under a known identity repeats an outstanding or committed one without a change, and
  // renews a released one exactly if its grant can be used.
  lemma ReserveAgainExactly(data: Data, now: Time, k: nat, id: string, operation: string, settings: Settings, times: Times)
    requires ValidSettings(settings) && Ordered(times) && Kept(data, now) && now <= times.first
    requires k < |data.uses| && ValidUseIdentity(id, data.uses[k].requestId, operation)
    ensures Renews(data, k, id, operation, settings, times)
  {
    hide Coherent, Prepare, CanUse, Reservable, Reconcile, Snapshots, ValidUseIdentity, ReserveExisting, Holds, Update;
    var before, use := Prepare(data, times.first, times.second, settings.reservationTimeout), data.uses[k];
    PreparedLength(data, times, settings.reservationTimeout);
    PreparedIndex(data, now, times, settings.reservationTimeout, id);
    PreparedUseIndex(data, times, settings.reservationTimeout, use.requestId);
    CoherentIsDistinctUses(data, now);
    UseIndexOf(data.uses, k);
    PrepareKeeps(data, now, times.first, times.second, settings.reservationTimeout);
    PreparedUse(data, now, times, settings.reservationTimeout, k);
    UpdateOf(data, ReserveUse(id, use.requestId, operation), settings, times);
    ReserveExistingStep(before, times.second, k, id, operation, times.third);
    var index := GrantIndex(data.grants, id);
    if index.Some? && use.grantId == id && use.operation == operation && use.state == Released {
      UsableIsPrepared(data, now, times, settings.reservationTimeout, index.value);
      PreparedGrant(data, now, times, settings.reservationTimeout, index.value);
      if Reservable(data.grants[index.value], data.uses, times.third) {
        UpdateHolds(data, ReserveUse(id, use.requestId, operation), index.value, settings, times);
      }
    }
  }

  lemma CoherentIsDistinctUses(data: Data, now: Time)
    requires Coherent(data, now)
    ensures DistinctUses(data.uses)
  {
    hide GrantsKept;
  }

  // One outstanding use less, if it is settled, and one committed use more, if it is committed; the
  // commit that spends a finite budget consumes the grant unless it was revoked.
  ghost predicate Settles(before: Data, after: Data, index: nat, target: UseState) {
    && OthersRest(before, after, index)
    && var grant, settled := before.grants[index], after.grants[index];
       var committed := if target == Committed then 1 else 0;
       var spent := IsFinite(grant.maxUses) && grant.usage.used + committed >= grant.maxUses && grant.status != Revoked;
       && settled.usage.used == grant.usage.used + committed
       && settled.usage.reserved + (if target == Committed || target == Released then 1 else 0) == grant.usage.reserved
       && settled == grant.(revision := settled.revision, reservationRevision := grant.reservationRevision + 1,
                            useRevision := grant.useRevision + committed, usage := settled.usage,
                            status := if spent then Consumed else grant.status,
                            expiredFrom := if spent then None else grant.expiredFrom)
  }

  function SettledAs(use: Use, target: UseState, now: Time): Use {
    use.(state := target, revision := use.revision + 1, updatedAt := now,
    settledAt := if target == Committed || target == Released then now else use.settledAt)
  }

  lemma SettleStep(data: Data, now: Time, id: string, requestId: string, target: UseState, later: Time)
    requires Coherent(data, now) && target != Reserved
    ensures var change := Settle(data, id, requestId, target, later);
            var k, index := UseIndex(data.uses, requestId), GrantIndex(data.grants, id);
            if k.None? || data.uses[k.value].grantId != id then change == Mutation(data, Some(UseIdentityConflict))
            else if data.uses[k.value].state == target then change == Mutation(data, None)
            else if Settled(data.uses[k.value].state) then change == Mutation(data, Some(UseSettled))
            else
              && index.Some? && change.error == None
              && change.data.uses == data.uses[k.value := SettledAs(data.uses[k.value], target, later)]
              && Settles(data, change.data, index.value, target)
  {
    hide Coherent, Tally, RevisionTotal;
    var k := UseIndex(data.uses, requestId);
    if k.Some? && data.uses[k.value].grantId == id {
      UseHasGrant(data, now, k.value);
      var i := GrantIndex(data.grants, id).value;
      KeptUsage(data, now, i);
      TallyUpdate(id, data.uses, k.value, SettledUse(data.uses[k.value], target, later));
      if !Settled(data.uses[k.value].state) {
        HolderIsSettleable(data, now, k.value);
      }
    }
  }

  lemma UseHasGrant(data: Data, now: Time, k: nat)
    requires Coherent(data, now) && k < |data.uses|
    ensures GrantIndex(data.grants, data.uses[k].grantId).Some?
  {
    hide GrantsKept;
    assert UseKept(data.uses[k], data.grants, now);
  }

  lemma UpdateSettles(data: Data, command: Command, index: nat, target: UseState, settings: Settings, times: Times)
    requires ValidSettings(settings) && Admissible(command)
    requires var before := Prepare(data, times.first, times.second, settings.reservationTimeout);
             Settles(before, Mutate(before, command, settings, times).data, index, target)
    ensures Settles(Prepare(data, times.first, times.second, settings.reservationTimeout),
                    Update(data, command, settings, times).data, index, target)
  {
    hide Prepare, Mutate, Update, Admissible;
    UpdateOf(data, command, settings, times);
  }

  ghost predicate SettlesExactly(data: Data, id: string, requestId: string, target: UseState, settings: Settings, times: Times)
    requires ValidSettings(settings) && id != "" && requestId != "" && target != Reserved
  {
    var k, index := UseIndex(data.uses, requestId), GrantIndex(data.grants, id);
    var before := Prepare(data, times.first, times.second, settings.reservationTimeout);
    var change := Update(data, SettleUse(id, requestId, target), settings, times);
    if k.None? || data.uses[k.value].grantId != id then change.error == Some(UseIdentityConflict) && change.data.uses == before.uses
    else
      && k.value < |before.uses| && index.Some?
      && var use := before.uses[k.value];
         if use.state == target then change.error == None && change.data.uses == before.uses
         else if use.state == Committed || use.state == Released then change.error == Some(UseSettled) && change.data.uses == before.uses
         else
           && change.error == None && change.data.uses == before.uses[k.value := SettledAs(use, target, times.third)]
           && Settles(before, change.data, index.value, target)
  }

  // Settling an outstanding use always succeeds, repeating a settlement changes nothing, and the other
  // settlement is refused.
  lemma SettleExactly(data: Data, now: Time, id: string, requestId: string, target: UseState, settings: Settings, times: Times)
    requires ValidSettings(settings) && Ordered(times) && Kept(data, now) && now <= times.first
    requires id != "" && requestId != "" && target != Reserved
    ensures SettlesExactly(data, id, requestId, target, settings, times)
  {
    hide Coherent, Prepare, Reconcile, Snapshots, Settle, Settles, Update;
    var before := Prepare(data, times.first, times.second, settings.reservationTimeout);
    PreparedLength(data, times, settings.reservationTimeout);
    PreparedIndex(data, now, times, settings.reservationTimeout, id);
    PreparedUseIndex(data, times, settings.reservationTimeout, requestId);
    PrepareKeeps(data, now, times.first, times.second, settings.reservationTimeout);
    UpdateOf(data, SettleUse(id, requestId, target), settings, times);
    SettleStep(before, times.second, id, requestId, target, times.third);
    var k, index := UseIndex(data.uses, requestId), GrantIndex(data.grants, id);
    if k.Some? {
      PreparedUse(data, now, times, settings.reservationTimeout, k.value);
      UseHasGrant(data, now, k.value);
    }
    if k.Some? && data.uses[k.value].grantId == id {
      if !Settled(before.uses[k.value].state) && before.uses[k.value].state != target {
        UpdateSettles(data, SettleUse(id, requestId, target), index.value, target, settings, times);
      }
    }
  }

  // --- Closing.

  // The state a grant must be in, the state it is brought to, and by whom.
  datatype Closing = Closing(id: string, owner: Option<string>, required: Status, status: Status, closer: string)

  function ClosingOf(command: Command): Option<Closing> {
    match command
    case RevokeGrant(id, approver) => Some(Closing(id, None, Active, Revoked, approver))
    case CancelForClient(id, client) => Some(Closing(id, Some(client), Pending, Canceled, client))
    case RevokeForClient(id, client) => Some(Closing(id, Some(client), Active, Revoked, client))
    case _ => None
  }

  ghost predicate Closes(before: Data, after: Data, index: nat, closing: Closing, now: Time) {
    && OthersRest(before, after, index) && after.uses == before.uses
    && after.grants[index] == before.grants[index].(revision := after.grants[index].revision, status := closing.status,
                                                    decidedAt := now, decidedBy := closing.closer)
  }

  // A grant of the caller that is in the required state and not due is closed; every other command is
  // refused without a change.
  ghost predicate ClosesExactly(data: Data, command: Command, closing: Closing, settings: Settings, times: Times)
    requires ValidSettings(settings) && Admissible(command)
  {
    var index := GrantIndex(data.grants, closing.id);
    var before := Prepare(data, times.first, times.second, settings.reservationTimeout);
    var change := Update(data, command, settings, times);
    if index.None? || (closing.owner.Some? && data.grants[index.value].subject.client != closing.owner.value) then
      change.error == Some(NotFound) && change.data.uses == before.uses
    else if data.grants[index.value].status != closing.required || Due(data.grants[index.value], times.first) then
      && change.error == Some(if closing.required == Pending then NotPending else NotActive)
      && change.data.uses == before.uses
    else change.error == None && Closes(before, change.data, index.value, closing, times.third)
  }

  lemma CloseStep(data: Data, command: Command, closing: Closing, settings: Settings, times: Times)
    requires ValidSettings(settings) && Admissible(command) && ClosingOf(command) == Some(closing)
    ensures var change, index := Mutate(data, command, settings, times), GrantIndex(data.grants, closing.id);
            if index.None? || (closing.owner.Some? && data.grants[index.value].subject.client != closing.owner.value) then
              change == Mutation(data, Some(NotFound))
            else if data.grants[index.value].status != closing.required then
              change == Mutation(data, Some(if closing.required == Pending then NotPending else NotActive))
            else change.error == None && Closes(data, change.data, index.value, closing, times.third)
  {
  }

  lemma UpdateCloses(data: Data, command: Command, index: nat, closing: Closing, settings: Settings, times: Times)
    requires ValidSettings(settings) && Admissible(command)
    requires var before := Prepare(data, times.first, times.second, settings.reservationTimeout);
             Closes(before, Mutate(before, command, settings, times).data, index, closing, times.third)
    ensures Closes(Prepare(data, times.first, times.second, settings.reservationTimeout),
                   Update(data, command, settings, times).data, index, closing, times.third)
  {
    hide Prepare, Mutate, Update, Admissible;
    UpdateOf(data, command, settings, times);
  }

  lemma CloseExactly(data: Data, now: Time, command: Command, closing: Closing, settings: Settings, times: Times)
    requires ValidSettings(settings) && Ordered(times) && Kept(data, now) && now <= times.first
    requires Admissible(command) && ClosingOf(command) == Some(closing)
    ensures ClosesExactly(data, command, closing, settings, times)
  {
    hide Coherent, Prepare, Reconcile, Snapshots, Mutate, Closes, Update, Admissible;
    var before := Prepare(data, times.first, times.second, settings.reservationTimeout);
    PreparedIndex(data, now, times, settings.reservationTimeout, closing.id);
    UpdateOf(data, command, settings, times);
    CloseStep(before, command, closing, settings, times);
    var index := GrantIndex(data.grants, closing.id);
    if index.Some? {
      PreparedGrant(data, now, times, settings.reservationTimeout, index.value);
      if Mutate(before, command, settings, times).error.None? {
        UpdateCloses(data, command, index.value, closing, settings, times);
      }
    }
  }

  // --- Requests.

  // The requests that still wait for a decision at some time, of one client or of all.
  predicate Waits(grant: Grant, now: Time, client: Option<string>) {
    grant.status == Pending && now < grant.pendingExpiresAt && (client.Some? ==> grant.subject.client == client.value)
  }

  ghost function Waiting(grants: seq<Grant>, now: Time, client: Option<string>): set<nat> {
    set j: nat | j < |grants| && Waits(grants[j], now, client)
  }

  lemma OneMoreWaits(grants: seq<Grant>, now: Time, client: Option<string>)
    requires grants != []
    ensures var last := |grants| - 1;
            |Waiting(grants, now, client)| == |Waiting(grants[..last], now, client)| + if Waits(grants[last], now, client) then 1 else 0
  {
    hide Waits;
    var last := |grants| - 1;
    var earlier, all := Waiting(grants[..last], now, client), Waiting(grants, now, client);
    if Waits(grants[last], now, client) {
      assert all == earlier + {last};
      assert last !in earlier;
    } else {
      assert all == earlier;
    }
  }

  lemma {:induction false} CountsAreSizes(grants: seq<Grant>, now: Time, client: string)
    ensures PendingCount(ExpireGrants(grants, now)) == |Waiting(grants, now, None)|
    ensures PendingOf(ExpireGrants(grants, now), client) == |Waiting(grants, now, Some(client))|
  {
    if grants == [] {
      assert Waiting(grants, now, None) == {} && Waiting(grants, now, Some(client)) == {};
    } else {
      hide Waiting;
      var last := |grants| - 1;
      CountsAreSizes(grants[..last], now, client);
      assert ExpireGrants(grants, now)[..last] == ExpireGrants(grants[..last], now);
      OneMoreWaits(grants, now, None);
      OneMoreWaits(grants, now, Some(client));
    }
  }

  lemma {:induction false} NoneRepeats(grants: seq<Grant>, subject: Subject)
    requires forall j :: 0 <= j < |grants| ==> !Repeats(grants[j], subject)
    ensures FindIdempotent(grants, subject).None?
  {
    if grants != [] {
      NoneRepeats(grants[1..], subject);
    }
  }

  // No grant in the store answers the request already.
  ghost predicate New(data: Data, request: Request) {
    request.subject.requestId == ""
    || forall j :: 0 <= j < |data.grants| ==>
         !(data.grants[j].subject.client == request.subject.client
           && data.grants[j].subject.requestId == request.subject.requestId && data.grants[j].status != Canceled)
  }

  lemma NewIsNotFound(data: Data, now: Time, request: Request, times: Times, timeout: nat)
    requires Coherent(data, now) && Ordered(times) && now <= times.first && New(data, request)
    ensures FindIdempotent(ExpireDue(Prepare(data, times.first, times.second, timeout), times.third).grants, request.subject).None?
  {
    hide Coherent, Prepare;
    var before := Prepare(data, times.first, times.second, timeout);
    var expired := ExpireDue(before, times.third).grants;
    PreparedLength(data, times, timeout);
    if request.subject.requestId != "" {
      forall j | 0 <= j < |expired| ensures !Repeats(expired[j], request.subject) {
        PreparedGrant(data, now, times, timeout, j);
      }
      NoneRepeats(expired, request.subject);
    }
  }

  lemma PreparedWaits(data: Data, now: Time, times: Times, timeout: nat, client: Option<string>)
    requires Coherent(data, now) && Ordered(times) && now <= times.first
    ensures Waiting(Prepare(data, times.first, times.second, timeout).grants, times.third, client)
            == Waiting(data.grants, times.third, client)
  {
    hide Coherent, Prepare;
    PreparedLength(data, times, timeout);
    forall j | 0 <= j < |data.grants|
      ensures Waits(Prepare(data, times.first, times.second, timeout).grants[j], times.third, client)
              <==> Waits(data.grants[j], times.third, client)
    {
      PreparedGrant(data, now, times, timeout, j);
    }
  }

  // The new grant carries what was asked for, waits for as long as was asked, and has no history.
  predicate Opens(request: Request, id: string, now: Time, grant: Grant) {
    && grant.id == id && grant.subject == request.subject && grant.status == Pending && grant.revision == 1
    && grant.createdAt == now && grant.pendingExpiresAt == now + request.pendingTimeout && grant.pendingTimeout == request.pendingTimeout
    && grant.duration == grant.requestedDuration == request.duration
    && grant.maxUses == grant.requestedMaxUses == request.maxUses && grant.maxUsesDefaulted == request.maxUsesDefaulted
    && grant.usage == UNUSED && grant.useRevision == 0 && grant.reservationRevision == 0
    && grant.decidedAt == 0 && grant.decidedBy == "" && grant.onBehalfOf == "" && grant.expiresAt == 0 && grant.expiredFrom == None
    && grant.failureCode == None && grant.failureReference == "" && grant.failedAt == 0
  }

  // A request that no grant answers yet is granted a place exactly if fewer requests wait than the
  // limits allow, of its client and of all, and an identity is available.
  ghost predicate CreatesExactly(data: Data, request: Request, id: Option<string>, settings: Settings, times: Times)
    requires ValidSettings(settings) && Normal(request)
  {
    var change := Update(data, Create(request, id), settings, times);
    var room := && |Waiting(data.grants, times.third, Some(request.subject.client))| < settings.maxPendingPerClient
                && |Waiting(data.grants, times.third, None)| < settings.maxPendingGlobal;
    && change.error == (if !room then Some(Capacity) else if id.None? then Some(NoIdentity) else None)
    && |change.data.grants| == |data.grants| + (if change.error == None then 1 else 0)
    && (change.error == None ==> Opens(request, id.value, times.fourth, change.data.grants[|data.grants|]))
  }

  lemma CreateExactly(data: Data, now: Time, request: Request, id: Option<string>, settings: Settings, times: Times)
    requires ValidSettings(settings) && Ordered(times) && Kept(data, now) && now <= times.first
    requires Normal(request) && Fresh(data, Create(request, id)) && New(data, request)
    ensures CreatesExactly(data, request, id, settings, times)
  {
    hide Coherent, Prepare, Reconcile, Snapshots, Normal, FindIdempotent, SameRequest, PendingCount, PendingOf, Waiting, Update, New;
    var before := Prepare(data, times.first, times.second, settings.reservationTimeout);
    PreparedLength(data, times, settings.reservationTimeout);
    NewIsNotFound(data, now, request, times, settings.reservationTimeout);
    CountsAreSizes(before.grants, times.third, request.subject.client);
    PreparedWaits(data, now, times, settings.reservationTimeout, None);
    PreparedWaits(data, now, times, settings.reservationTimeout, Some(request.subject.client));
    UpdateOf(data, Create(request, id), settings, times);
    if Update(data, Create(request, id), settings, times).error == None {
      CreatedIsNumbered(data, now, request, id, settings, times);
    }
  }

  // The step has appended the new grant.
  ghost predicate Appends(data: Data, request: Request, id: Option<string>, settings: Settings, times: Times)
    requires ValidSettings(settings) && Normal(request)
  {
    var mutated := Mutate(Prepare(data, times.first, times.second, settings.reservationTimeout), Create(request, id), settings, times).data;
    id.Some? && |mutated.grants| == |data.grants| + 1 && mutated.grants[|data.grants|].id == id.value
  }

  ghost predicate Numbers(data: Data, after: Data) {
    |after.grants| == |data.grants| + 1 && after.grants[|data.grants|].revision == 1
  }

  lemma CreatedIsNumbered(data: Data, now: Time, request: Request, id: Option<string>, settings: Settings, times: Times)
    requires ValidSettings(settings) && Normal(request) && Appends(data, request, id, settings, times)
    requires Fresh(data, Create(request, id)) && Kept(data, now)
    ensures Numbers(data, Update(data, Create(request, id), settings, times).data)
  {
    hide Coherent, Prepare, Mutate, Reconcile, Snapshots, Normal;
    var mutated := Mutate(Prepare(data, times.first, times.second, settings.reservationTimeout), Create(request, id), settings, times).data;
    ReconciledGrants(mutated, Snapshots(data.grants), settings.maxEvents);
    CoherentIsDistinct(data, now);
    SnapshotOf(data.grants, id.value);
  }
}
