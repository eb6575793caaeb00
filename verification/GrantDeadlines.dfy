// When the passing of time will next change the store.
module GrantDeadlines {
  import opened Options
  import opened GrantData
  import opened GrantLifecycle
  import opened GrantOperations

  datatype Wait = Unreadable | Forever | For(delay: nat)

  function EarlierDeadline(current: Time, candidate: Time): Time {
    if candidate == 0 || (current != 0 && candidate >= current) then current else candidate
  }

  function GrantDeadline(grant: Grant): Time {
    match grant.status
    case Pending => grant.pendingExpiresAt
    case Active => grant.expiresAt
    case _ => 0
  }

  function UseDeadline(use: Use, grants: seq<Grant>, now: Time, timeout: nat): Time {
    var index := GrantIndex(grants, use.grantId);
    if index.None? || use.state != Reserved || !Settleable(grants[index.value].status) then 0
    else if Stale(use, grants, now, timeout) || use.updatedAt == 0 then now
    else use.updatedAt + timeout
  }

  function EarliestGrant(grants: seq<Grant>): Time {
    if grants == [] then 0
    else EarlierDeadline(EarliestGrant(grants[..|grants| - 1]), GrantDeadline(grants[|grants| - 1]))
  }

  function EarliestUse(uses: seq<Use>, grants: seq<Grant>, now: Time, timeout: nat, earliest: Time): Time {
    if uses == [] then earliest
    else
      EarlierDeadline(EarliestUse(uses[..|uses| - 1], grants, now, timeout, earliest),
                      UseDeadline(uses[|uses| - 1], grants, now, timeout))
  }

  function Earliest(data: Data, now: Time, timeout: nat): Time {
    EarliestUse(data.uses, data.grants, now, timeout, EarliestGrant(data.grants))
  }

  function NextDelay(data: Data, now: Time, timeout: nat): Wait {
    var earliest := Earliest(data, now, timeout);
    if exists k :: 0 <= k < |data.uses| && GrantIndex(data.grants, data.uses[k].grantId).None? then Unreadable
    else if earliest == 0 then Forever
    else For(if earliest > now then earliest - now else 0)
  }

  lemma EarliestGrantStep(grants: seq<Grant>, i: nat)
    requires i < |grants|
    ensures EarliestGrant(grants[..i + 1]) == EarlierDeadline(EarliestGrant(grants[..i]), GrantDeadline(grants[i]))
  {
    assert grants[..i + 1][..i] == grants[..i];
  }

  lemma EarliestUseStep(uses: seq<Use>, k: nat, grants: seq<Grant>, now: Time, timeout: nat, earliest: Time)
    requires k < |uses|
    ensures EarliestUse(uses[..k + 1], grants, now, timeout, earliest)
            == EarlierDeadline(EarliestUse(uses[..k], grants, now, timeout, earliest), UseDeadline(uses[k], grants, now, timeout))
  {
    assert uses[..k + 1][..k] == uses[..k];
  }

  method EarliestGrantDeadline(grants: seq<Grant>) returns (earliest: Time)
    ensures earliest == EarliestGrant(grants)
  {
    hide EarlierDeadline, GrantDeadline;
    earliest := 0;
    for i := 0 to |grants|
      invariant earliest == EarliestGrant(grants[..i])
    {
      EarliestGrantStep(grants, i);
      earliest := EarlierDeadline(earliest, GrantDeadline(grants[i]));
    }
    assert grants[..|grants|] == grants;
  }

  // A use without a grant is an error.
  method EarliestUseDeadline(data: Data, now: Time, timeout: nat, start: Time) returns (earliest: Option<Time>)
    ensures earliest == if exists k :: 0 <= k < |data.uses| && GrantIndex(data.grants, data.uses[k].grantId).None? then None
                        else Some(EarliestUse(data.uses, data.grants, now, timeout, start))
  {
    hide EarlierDeadline, UseDeadline, GrantIndex;
    var time := start;
    EarliestUseStart(data, now, timeout, start);
    hide EarliestUse;
    for k := 0 to |data.uses|
      invariant forall j :: 0 <= j < k ==> GrantIndex(data.grants, data.uses[j].grantId).Some?
      invariant time == EarliestUse(data.uses[..k], data.grants, now, timeout, start)
    {
      if GrantIndex(data.grants, data.uses[k].grantId).None? {
        return None;
      }
      EarliestUseStep(data.uses, k, data.grants, now, timeout, start);
      time := EarlierDeadline(time, UseDeadline(data.uses[k], data.grants, now, timeout));
    }
    assert data.uses[..|data.uses|] == data.uses;
    return Some(time);
  }

  lemma EarliestUseStart(data: Data, now: Time, timeout: nat, start: Time)
    ensures EarliestUse(data.uses[..0], data.grants, now, timeout, start) == start
  {
  }

  method NextLifecycleDelay(data: Data, now: Time, timeout: nat) returns (wait: Wait)
    ensures wait == NextDelay(data, now, timeout)
  {
    hide EarliestUse, EarliestGrant, GrantIndex;
    var earliest := EarliestGrantDeadline(data.grants);
    var deadline := EarliestUseDeadline(data, now, timeout, earliest);
    match deadline
    case None => return Unreadable;
    case Some(0) => return Forever;
    case Some(time) => return For(if time > now then time - now else 0);
  }

  // --- What the deadlines mean.

  predicate Reached(deadline: Time, t: Time) { deadline != 0 && deadline <= t }

  lemma EarlierIsReached(a: Time, b: Time, t: Time)
    ensures Reached(EarlierDeadline(a, b), t) <==> Reached(a, t) || Reached(b, t)
  {
  }

  ghost predicate GrantReached(grants: seq<Grant>, t: Time) {
    exists i :: 0 <= i < |grants| && Reached(GrantDeadline(grants[i]), t)
  }

  ghost predicate UseReached(uses: seq<Use>, grants: seq<Grant>, now: Time, timeout: nat, t: Time) {
    exists k :: 0 <= k < |uses| && Reached(UseDeadline(uses[k], grants, now, timeout), t)
  }

  lemma {:induction false} EarliestGrantIsReached(grants: seq<Grant>, t: Time)
    ensures Reached(EarliestGrant(grants), t) <==> GrantReached(grants, t)
  {
    hide EarlierDeadline, Reached;
    if grants == [] {
      assert !Reached(0, t) by { ZeroIsNotReached(t); }
    } else {
      var last := |grants| - 1;
      EarlierIsReached(EarliestGrant(grants[..last]), GrantDeadline(grants[last]), t);
      EarliestGrantIsReached(grants[..last], t);
      if GrantReached(grants, t) {
        var i :| 0 <= i < |grants| && Reached(GrantDeadline(grants[i]), t);
        assert i < last ==> Reached(GrantDeadline(grants[..last][i]), t);
      }
    }
  }

  lemma ZeroIsNotReached(t: Time)
    ensures !Reached(0, t)
  {
  }

  lemma {:induction false} EarliestUseIsReached(uses: seq<Use>, grants: seq<Grant>, now: Time, timeout: nat, earliest: Time, t: Time)
    ensures Reached(EarliestUse(uses, grants, now, timeout, earliest), t)
            <==> Reached(earliest, t) || UseReached(uses, grants, now, timeout, t)
  {
    hide EarlierDeadline, Reached, UseDeadline;
    if uses != [] {
      var last := |uses| - 1;
      EarlierIsReached(EarliestUse(uses[..last], grants, now, timeout, earliest), UseDeadline(uses[last], grants, now, timeout), t);
      EarliestUseIsReached(uses[..last], grants, now, timeout, earliest, t);
      if UseReached(uses, grants, now, timeout, t) {
        var k :| 0 <= k < |uses| && Reached(UseDeadline(uses[k], grants, now, timeout), t);
        assert k < last ==> Reached(UseDeadline(uses[..last][k], grants, now, timeout), t);
      }
    }
  }

  // --- What changes the store.

  lemma GrantDueAtDeadline(grant: Grant, uses: seq<Use>, t: Time)
    requires GrantKept(grant, uses)
    ensures ExpireGrant(grant, t) != grant <==> Reached(GrantDeadline(grant), t)
  {
    hide ValidSubject, ValidFailure, Tally, RevisionTotal;
  }

  lemma UseDueAtDeadline(use: Use, grants: seq<Grant>, now: Time, timeout: nat, t: Time)
    requires UseKept(use, grants, t) && now > 0 && now <= t
    ensures Stale(use, grants, t, timeout) <==> Reached(UseDeadline(use, grants, now, timeout), t)
  {
  }

  // A reserved use belongs to no pending grant, so expiry makes no use stale.
  lemma StaleDespiteExpiry(data: Data, now: Time, k: nat, t: Time, timeout: nat)
    requires Coherent(data, now) && k < |data.uses|
    ensures Stale(data.uses[k], ExpireGrants(data.grants, t), t, timeout) <==> Stale(data.uses[k], data.grants, t, timeout)
  {
    hide LoadedUse, Formed, Narrowed, Counted, Tally;
    var use := data.uses[k];
    assert UseKept(use, data.grants, now);
    ExpireKeepsIdentity(data.grants, t);
    IndexOfIdentity(data.grants, ExpireGrants(data.grants, t), use.grantId);
    var i := GrantIndex(data.grants, use.grantId).value;
    assert GrantKept(data.grants[i], data.uses);
    if use.state == Reserved {
      OutstandingIsCounted(use.grantId, data.uses, k);
      KeptIsCounted(data.grants[i], data.uses);
    }
  }

  ghost predicate SomeStale(data: Data, t: Time, timeout: nat) {
    exists k :: 0 <= k < |data.uses| && Stale(data.uses[k], data.grants, t, timeout)
  }

  ghost predicate SomeDue(grants: seq<Grant>, t: Time) {
    exists i :: 0 <= i < |grants| && ExpireGrant(grants[i], t) != grants[i]
  }

  lemma {:induction false} NoStaleUses(id: string, uses: seq<Use>, grants: seq<Grant>, t: Time, timeout: nat)
    requires forall k :: 0 <= k < |uses| ==> !Stale(uses[k], grants, t, timeout)
    ensures StaleUses(id, uses, grants, t, timeout) == 0
  {
    hide Stale;
    if uses != [] {
      NoStaleUses(id, uses[..|uses| - 1], grants, t, timeout);
    }
  }

  lemma RetainChanges(data: Data, t: Time, timeout: nat)
    ensures RetainStale(data, t, timeout) != data <==> SomeStale(data, t, timeout)
  {
    hide Stale, Tally;
    var uses := RetainUses(data.uses, data.grants, t, timeout);
    if SomeStale(data, t, timeout) {
      var k :| 0 <= k < |data.uses| && Stale(data.uses[k], data.grants, t, timeout);
      assert uses[k].revision == data.uses[k].revision + 1;
    } else {
      forall i | 0 <= i < |data.grants|
        ensures RetainGrant(data.grants[i], data.uses, data.grants, t, timeout) == data.grants[i]
      {
        NoStaleUses(data.grants[i].id, data.uses, data.grants, t, timeout);
      }
      assert uses == data.uses;
      assert RetainGrants(data.uses, data.grants, t, timeout) == data.grants;
    }
  }

  lemma RetainKeepsStatus(data: Data, t: Time, timeout: nat)
    ensures |RetainStale(data, t, timeout).grants| == |data.grants|
    ensures forall i :: 0 <= i < |data.grants| ==> RetainStale(data, t, timeout).grants[i].status == data.grants[i].status
  {
    hide StaleUses, Tally;
  }

  lemma PrepareChanges(data: Data, now: Time, t: Time, timeout: nat)
    requires Coherent(data, now)
    ensures Prepare(data, t, t, timeout) != data <==> SomeDue(data.grants, t) || SomeStale(data, t, timeout)
  {
    hide Coherent, Stale, RetainGrants, RetainUses;
    var expired := ExpireDue(data, t);
    RetainChanges(expired, t, timeout);
    RetainKeepsStatus(expired, t, timeout);
    forall k | 0 <= k < |data.uses|
      ensures Stale(expired.uses[k], expired.grants, t, timeout) <==> Stale(data.uses[k], data.grants, t, timeout)
    {
      StaleDespiteExpiry(data, now, k, t, timeout);
    }
    if SomeDue(data.grants, t) {
      var i :| 0 <= i < |data.grants| && ExpireGrant(data.grants[i], t) != data.grants[i];
      assert Prepare(data, t, t, timeout).grants[i].status != data.grants[i].status;
    } else {
      assert expired.grants == data.grants;
    }
  }

  // The wait is exact: while the data stays as it is, preparation changes nothing before now + delay
  // and does change something from then on; and without a deadline it never changes anything.
  lemma DelayIsExact(data: Data, now: Time, timeout: nat, t: Time)
    requires Coherent(data, now) && 0 < now <= t
    ensures var wait := NextDelay(data, now, timeout);
            && !wait.Unreadable?
            && (Prepare(data, t, t, timeout) != data <==> wait.For? && t >= now + wait.delay)
  {
    hide GrantKept, LoadedUse, ExpireGrant, GrantDeadline, UseDeadline, Stale, Prepare;
    PrepareChanges(data, now, t, timeout);
    EarliestGrantIsReached(data.grants, t);
    EarliestUseIsReached(data.uses, data.grants, now, timeout, EarliestGrant(data.grants), t);
    forall i | 0 <= i < |data.grants|
      ensures ExpireGrant(data.grants[i], t) != data.grants[i] <==> Reached(GrantDeadline(data.grants[i]), t)
    {
      GrantDueAtDeadline(data.grants[i], data.uses, t);
    }
    forall k | 0 <= k < |data.uses|
      ensures Stale(data.uses[k], data.grants, t, timeout) <==> Reached(UseDeadline(data.uses[k], data.grants, now, timeout), t)
      ensures GrantIndex(data.grants, data.uses[k].grantId).Some?
    {
      assert UseKept(data.uses[k], data.grants, now);
      LaterUsesKept(data.grants, data.uses, now, t);
      assert UseKept(data.uses[k], data.grants, t);
      UseDueAtDeadline(data.uses[k], data.grants, now, timeout, t);
    }
  }
}
