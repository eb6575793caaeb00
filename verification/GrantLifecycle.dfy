// What time does to the grant store: expiry, retention of stale reservations, and the reconciliation
// that numbers every change and records it in the event log.
module GrantLifecycle {
  import opened Options
  import opened GrantData

  // --- Expiry.

  function ExpireGrant(grant: Grant, now: Time): Grant {
    match grant.status
    case Pending =>
      if now < grant.pendingExpiresAt then grant
      else grant.(status := Expired, expiredFrom := Some(Pending), decidedAt := now)
    case Active =>
      if now < grant.expiresAt then grant else grant.(status := Expired, expiredFrom := Some(Active))
    case _ => grant
  }

  function ExpireGrants(grants: seq<Grant>, now: Time): (r: seq<Grant>) {
    seq(|grants|, i requires 0 <= i < |grants| => ExpireGrant(grants[i], now))
  }

  function ExpireDue(data: Data, now: Time): Data { data.(grants := ExpireGrants(data.grants, now)) }

  // --- Retention.

  predicate Settleable(status: Status) { status == Active || status == Expired || status == Revoked }

  predicate Stale(use: Use, grants: seq<Grant>, now: Time, timeout: nat) {
    var index := GrantIndex(grants, use.grantId);
    && index.Some? && use.state == Reserved && Settleable(grants[index.value].status)
    && (use.updatedAt == 0 || now >= use.updatedAt + timeout)
  }

  function RetainUse(use: Use, grants: seq<Grant>, now: Time, timeout: nat): Use {
    if Stale(use, grants, now, timeout) then
      use.(state := Retained, revision := use.revision + 1, updatedAt := now)
    else use
  }

  function RetainUses(uses: seq<Use>, grants: seq<Grant>, now: Time, timeout: nat): (r: seq<Use>) {
    seq(|uses|, k requires 0 <= k < |uses| => RetainUse(uses[k], grants, now, timeout))
  }

  function StaleUses(id: string, uses: seq<Use>, grants: seq<Grant>, now: Time, timeout: nat): nat {
    if uses == [] then 0
    else
      var last := uses[|uses| - 1];
      StaleUses(id, uses[..|uses| - 1], grants, now, timeout)
      + if last.grantId == id && Stale(last, grants, now, timeout) then 1 else 0
  }

  function RetainGrant(grant: Grant, uses: seq<Use>, grants: seq<Grant>, now: Time, timeout: nat): Grant {
    var stale := StaleUses(grant.id, uses, grants, now, timeout);
    if stale == 0 then grant
    else
      grant.(reservationRevision := grant.reservationRevision + stale,
      usage := Tally(grant.id, RetainUses(uses, grants, now, timeout)))
  }

  function RetainGrants(uses: seq<Use>, grants: seq<Grant>, now: Time, timeout: nat): (r: seq<Grant>) {
    seq(|grants|, i requires 0 <= i < |grants| => RetainGrant(grants[i], uses, grants, now, timeout))
  }

  function RetainStale(data: Data, now: Time, timeout: nat): Data {
    data.(
    grants := RetainGrants(data.uses, data.grants, now, timeout),
    uses := RetainUses(data.uses, data.grants, now, timeout))
  }

  // What every operation does first; the two steps read the clock one after the other.
  function Prepare(data: Data, first: Time, second: Time, timeout: nat): Data {
    RetainStale(ExpireDue(data, first), second, timeout)
  }

  // --- Reconciliation.

  function Snapshots(grants: seq<Grant>): map<string, Grant> {
    if grants == [] then map[]
    else
      var last := grants[|grants| - 1];
      Snapshots(grants[..|grants| - 1])[last.id := last]
  }

  function Previous(before: map<string, Grant>, id: string): Option<Grant> {
    if id in before then Some(before[id]) else None
  }

  function StatusKinds(before: Grant, after: Grant): seq<EventKind> {
    if before.status == after.status then []
    else
      match after.status
      case Active => [RequestApproved]
      case Denied => [RequestDenied]
      case Failed => [RequestFailed]
      case Canceled => [RequestCanceled]
      case Expired => [RequestExpired]
      case Revoked => [GrantRevoked]
      case _ => []
  }

  function UsageKinds(before: Usage, after: Usage): seq<EventKind> {
    (if after.used > before.used then [GrantConsumed]
     else if after.reserved < before.reserved then [GrantReleased] else [])
    + (if after.reserved > before.reserved then [GrantReserved] else [])
    + (if !before.retained && after.retained then [ExecutionAmbiguous] else [])
  }

  function Kinds(previous: Option<Grant>, grant: Grant): seq<EventKind> {
    match previous
    case None => [RequestCreated]
    case Some(before) => StatusKinds(before, grant) + UsageKinds(before.usage, grant.usage)
  }

  function Revise(grant: Grant, before: map<string, Grant>): Grant {
    var previous := Previous(before, grant.id);
    if Kinds(previous, grant) == [] then grant
    else grant.(revision := match previous case None => 1 case Some(p) => p.revision + 1)
  }

  function ReviseAll(grants: seq<Grant>, before: map<string, Grant>): (r: seq<Grant>) {
    seq(|grants|, i requires 0 <= i < |grants| => Revise(grants[i], before))
  }

  function EventOf(sequence: nat, kind: EventKind, grant: Grant, previous: Option<Grant>): Event {
    Event(sequence, kind, grant.id, grant.status, grant.usage.used, grant.usage.reserved, grant.revision, grant.decidedBy,
          match previous case None => None case Some(p) => Some(p.status),
          match previous case None => 0 case Some(p) => p.revision,
          match previous case None => 0 case Some(p) => if grant.decidedBy != "" then p.revision else 0)
  }

  function EventsOf(grant: Grant, before: map<string, Grant>, next: nat): (r: seq<Event>) {
    var previous := Previous(before, grant.id);
    var kinds := Kinds(previous, grant);
    seq(|kinds|, i requires 0 <= i < |kinds| => EventOf(next + i, kinds[i], Revise(grant, before), previous))
  }

  // One event for every change of every grant, in the order of the grants.
  function NewEvents(grants: seq<Grant>, before: map<string, Grant>, next: nat): seq<Event> {
    if grants == [] then []
    else
      var earlier := NewEvents(grants[..|grants| - 1], before, next);
      earlier + EventsOf(grants[|grants| - 1], before, next + |earlier|)
  }

  // The newest events, as many as the log retains.
  function Newest(events: seq<Event>, limit: nat): seq<Event> {
    if |events| <= limit then events else events[|events| - limit..]
  }

  function Append(data: Data, events: seq<Event>, limit: nat): Data {
    if events == [] then data
    else data.(events := Newest(data.events + events, limit), nextEvent := data.nextEvent + |events|)
  }

  function Reconcile(data: Data, before: map<string, Grant>, limit: nat): Data {
    Append(data.(grants := ReviseAll(data.grants, before)), NewEvents(data.grants, before, data.nextEvent), limit)
  }

  // --- Grants keep their identity.

  predicate SameIdentity(a: seq<Grant>, b: seq<Grant>) {
    |a| == |b| && forall i :: 0 <= i < |a| ==> a[i].id == b[i].id && a[i].subject == b[i].subject
  }

  lemma {:induction false} IndexOfIdentity(a: seq<Grant>, b: seq<Grant>, id: string)
    requires SameIdentity(a, b)
    ensures GrantIndex(a, id) == GrantIndex(b, id)
  {
    if a != [] && a[0].id != id {
      IndexOfIdentity(a[1..], b[1..], id);
    }
  }

  lemma UsesKeptByIdentity(a: seq<Grant>, b: seq<Grant>, uses: seq<Use>, now: Time)
    requires SameIdentity(a, b) && UsesKept(a, uses, now)
    ensures UsesKept(b, uses, now)
  {
    forall k | 0 <= k < |uses| ensures UseKept(uses[k], b, now) {
      assert UseKept(uses[k], a, now);
      IndexOfIdentity(a, b, uses[k].grantId);
    }
  }

  lemma IndexOfGrant(grants: seq<Grant>, i: nat)
    requires DistinctGrants(grants) && i < |grants|
    ensures GrantIndex(grants, grants[i].id) == Some(i)
  {
  }

  lemma LaterUsesKept(grants: seq<Grant>, uses: seq<Use>, earlier: Time, now: Time)
    requires UsesKept(grants, uses, earlier) && earlier <= now
    ensures UsesKept(grants, uses, now)
  {
    forall k | 0 <= k < |uses| ensures UseKept(uses[k], grants, now) {
      assert UseKept(uses[k], grants, earlier);
      hide LoadedUse;
    }
  }

  // --- Expiry and retention keep the invariant.

  lemma ExpireGrantKeeps(grant: Grant, uses: seq<Use>, now: Time)
    requires GrantKept(grant, uses)
    ensures GrantKept(ExpireGrant(grant, now), uses)
  {
    hide ValidSubject, SafeIdentity, Tally, RevisionTotal;
  }

  lemma ExpireKeepsIdentity(grants: seq<Grant>, now: Time)
    ensures SameIdentity(grants, ExpireGrants(grants, now))
  {
  }

  lemma SameIdentityIsDistinct(a: seq<Grant>, b: seq<Grant>)
    requires SameIdentity(a, b) && DistinctGrants(a)
    ensures DistinctGrants(b)
  {
  }

  lemma ExpireGrantsKeeps(grants: seq<Grant>, uses: seq<Use>, now: Time)
    requires GrantsKept(grants, uses)
    ensures GrantsKept(ExpireGrants(grants, now), uses)
  {
    hide GrantKept, ExpireGrant;
    var after := ExpireGrants(grants, now);
    forall i | 0 <= i < |after| ensures GrantKept(after[i], uses) {
      ExpireGrantKeeps(grants[i], uses, now);
    }
    SameIdentityIsDistinct(grants, after) by {
      ExpireKeepsIdentity(grants, now);
    }
  }

  lemma ExpireDueKeeps(data: Data, earlier: Time, now: Time)
    requires Coherent(data, earlier) && earlier <= now
    ensures Coherent(ExpireDue(data, now), now)
    ensures SameIdentity(data.grants, ExpireGrants(data.grants, now))
  {
    hide GrantsKept, UsesKept;
    ExpireGrantsKeeps(data.grants, data.uses, now);
    UsesKeptByIdentity(data.grants, ExpireGrants(data.grants, now), data.uses, earlier);
    LaterUsesKept(ExpireGrants(data.grants, now), data.uses, earlier, now);
  }

  lemma {:induction false} TallyOfRetained(id: string, uses: seq<Use>, grants: seq<Grant>, now: Time, timeout: nat)
    ensures var after, stale := RetainUses(uses, grants, now, timeout), StaleUses(id, uses, grants, now, timeout);
            && Tally(id, after).used == Tally(id, uses).used
            && Tally(id, after).reserved == Tally(id, uses).reserved
            && RevisionTotal(id, after) == RevisionTotal(id, uses) + stale
            && (stale == 0 ==> Tally(id, after) == Tally(id, uses))
            && (stale > 0 ==> Tally(id, uses).reserved > 0)
  {
    if uses != [] {
      var prefix := uses[..|uses| - 1];
      TallyOfRetained(id, prefix, grants, now, timeout);
      assert RetainUses(uses, grants, now, timeout)[..|uses| - 1] == RetainUses(prefix, grants, now, timeout);
    }
  }

  lemma RetainUseKeeps(use: Use, grants: seq<Grant>, earlier: Time, now: Time, timeout: nat)
    requires UseKept(use, grants, earlier) && earlier <= now
    ensures UseKept(RetainUse(use, grants, now, timeout), grants, now)
  {
  }

  lemma RetainGrantKeeps(grant: Grant, uses: seq<Use>, grants: seq<Grant>, now: Time, timeout: nat)
    requires GrantKept(grant, uses)
    requires Dated(RetainUses(uses, grants, now, timeout))
    ensures GrantKept(RetainGrant(grant, uses, grants, now, timeout), RetainUses(uses, grants, now, timeout))
  {
    hide ValidSubject, SafeIdentity, Tally, RevisionTotal, RetainUses, StaleUses, Dated;
    TallyOfRetained(grant.id, uses, grants, now, timeout);
    TallyIsDated(grant.id, RetainUses(uses, grants, now, timeout));
  }

  lemma RetainUsesKeeps(grants: seq<Grant>, uses: seq<Use>, earlier: Time, now: Time, timeout: nat)
    requires UsesKept(grants, uses, earlier) && earlier <= now
    ensures UsesKept(grants, RetainUses(uses, grants, now, timeout), now)
  {
    var after := RetainUses(uses, grants, now, timeout);
    forall k | 0 <= k < |uses| ensures UseKept(after[k], grants, now) {
      RetainUseKeeps(uses[k], grants, earlier, now, timeout);
    }
    hide UseKept;
  }

  lemma RetainGrantsKeeps(grants: seq<Grant>, uses: seq<Use>, now: Time, timeout: nat)
    requires GrantsKept(grants, uses) && Dated(RetainUses(uses, grants, now, timeout))
    ensures GrantsKept(RetainGrants(uses, grants, now, timeout), RetainUses(uses, grants, now, timeout))
  {
    var after := RetainGrants(uses, grants, now, timeout);
    forall i | 0 <= i < |grants| ensures GrantKept(after[i], RetainUses(uses, grants, now, timeout)) {
      RetainGrantKeeps(grants[i], uses, grants, now, timeout);
    }
    hide GrantKept;
  }

  lemma RetainStaleKeeps(data: Data, earlier: Time, now: Time, timeout: nat)
    requires Coherent(data, earlier) && earlier <= now
    ensures Coherent(RetainStale(data, now, timeout), now)
    ensures SameIdentity(data.grants, RetainStale(data, now, timeout).grants)
  {
    hide GrantsKept, UsesKept, RetainUses, Dated;
    RetainUsesKeeps(data.grants, data.uses, earlier, now, timeout);
    UsesAreDated(data.grants, RetainUses(data.uses, data.grants, now, timeout), now);
    RetainGrantsKeeps(data.grants, data.uses, now, timeout);
    UsesKeptByIdentity(data.grants, RetainGrants(data.uses, data.grants, now, timeout),
                       RetainUses(data.uses, data.grants, now, timeout), now);
  }

  predicate SameRevisions(a: seq<Grant>, b: seq<Grant>) {
    |a| == |b| && forall i :: 0 <= i < |a| ==> a[i].revision == b[i].revision
  }

  lemma PrepareKeeps(data: Data, earlier: Time, first: Time, second: Time, timeout: nat)
    requires Coherent(data, earlier) && earlier <= first <= second
    ensures Coherent(Prepare(data, first, second, timeout), second)
    ensures SameIdentity(data.grants, Prepare(data, first, second, timeout).grants)
    ensures SameRevisions(data.grants, Prepare(data, first, second, timeout).grants)
  {
    hide Coherent, RetainUses, StaleUses, Tally;
    ExpireDueKeeps(data, earlier, first);
    RetainStaleKeeps(ExpireDue(data, first), first, second, timeout);
  }

  // --- Reconciliation keeps the invariant and completes it.

  lemma {:induction false} SnapshotOf(grants: seq<Grant>, id: string)
    requires DistinctGrants(grants)
    ensures var index := GrantIndex(grants, id);
            Previous(Snapshots(grants), id) == match index case None => None case Some(i) => Some(grants[i])
  {
    if grants != [] {
      var last := |grants| - 1;
      SnapshotOf(grants[..last], id);
      var shorter, index := GrantIndex(grants[..last], id), GrantIndex(grants, id);
      if shorter.Some? {
        IndexOfGrant(grants, shorter.value);
      } else if grants[last].id == id {
        IndexOfGrant(grants, last);
      }
    }
  }

  lemma ReviseGrantKeeps(grant: Grant, before: map<string, Grant>, uses: seq<Use>)
    requires GrantKept(grant, uses)
    ensures GrantKept(Revise(grant, before), uses)
  {
    hide Kinds, ValidSubject, SafeIdentity, Tally, RevisionTotal;
  }

  lemma ReviseKeepsIdentity(grants: seq<Grant>, before: map<string, Grant>)
    ensures SameIdentity(grants, ReviseAll(grants, before))
  {
  }

  lemma ReviseKeeps(data: Data, before: map<string, Grant>, now: Time)
    requires Coherent(data, now)
    ensures Coherent(data.(grants := ReviseAll(data.grants, before)), now)
  {
    hide GrantKept, UseKept, Revise;
    var revised := ReviseAll(data.grants, before);
    forall i | 0 <= i < |revised| ensures GrantKept(revised[i], data.uses) {
      ReviseGrantKeeps(data.grants[i], before, data.uses);
    }
    ReviseKeepsIdentity(data.grants, before);
    SameIdentityIsDistinct(data.grants, revised);
    UsesKeptByIdentity(data.grants, revised, data.uses, now);
  }

  predicate Consecutive(events: seq<Event>, next: nat) {
    forall i :: 0 <= i < |events| ==> events[i].sequence == next + i
  }

  lemma ConsecutiveJoin(a: seq<Event>, b: seq<Event>, next: nat)
    requires Consecutive(a, next) && Consecutive(b, next + |a|)
    ensures Consecutive(a + b, next)
  {
  }

  lemma EventsOfAreConsecutive(grant: Grant, before: map<string, Grant>, next: nat)
    ensures Consecutive(EventsOf(grant, before, next), next)
  {
    hide Kinds, Revise;
  }

  lemma {:induction false} NewEventsAreConsecutive(grants: seq<Grant>, before: map<string, Grant>, next: nat)
    ensures Consecutive(NewEvents(grants, before, next), next)
  {
    hide Consecutive, EventsOf;
    if grants == [] {
      ConsecutiveNone(next);
    } else {
      var earlier := NewEvents(grants[..|grants| - 1], before, next);
      NewEventsAreConsecutive(grants[..|grants| - 1], before, next);
      EventsOfAreConsecutive(grants[|grants| - 1], before, next + |earlier|);
      ConsecutiveJoin(earlier, EventsOf(grants[|grants| - 1], before, next + |earlier|), next);
    }
  }

  lemma ConsecutiveNone(next: nat)
    ensures Consecutive([], next)
  {
  }

  // Every event that was ever appended, oldest first, and the part of it that is retained.
  ghost predicate Remembers(data: Data, history: seq<Event>) {
    && data.nextEvent == |history| + 1
    && (forall i :: 0 <= i < |history| ==> history[i].sequence == i + 1)
    && |data.events| <= |history|
    && data.events == history[|history| - |data.events|..]
  }

  lemma AppendRemembers(data: Data, history: seq<Event>, events: seq<Event>, limit: nat)
    requires Remembers(data, history)
    requires Consecutive(events, data.nextEvent)
    ensures Remembers(Append(data, events, limit), history + events)
  {
    var longer, kept := history + events, data.events + events;
    assert kept == longer[|longer| - |kept|..];
    if |kept| > limit {
      assert kept[|kept| - limit..] == longer[|longer| - limit..];
    }
  }

  lemma AppendKeepsOrder(data: Data, events: seq<Event>, limit: nat)
    requires limit > 0
    requires EventsKept(data.events, data.nextEvent)
    requires Consecutive(events, data.nextEvent)
    ensures EventsKept(Append(data, events, limit).events, Append(data, events, limit).nextEvent)
    ensures |data.events| <= limit ==> |Append(data, events, limit).events| <= limit
  {
  }

  // A grant that has no revision yet is new.
  predicate NumberedSince(grants: seq<Grant>, before: map<string, Grant>) {
    forall i :: 0 <= i < |grants| ==> grants[i].revision >= 1 || grants[i].id !in before
  }

  lemma ReviseNumbers(grants: seq<Grant>, before: map<string, Grant>)
    requires NumberedSince(grants, before)
    ensures Numbered(ReviseAll(grants, before))
  {
  }

  lemma ReconcileKeeps(data: Data, before: map<string, Grant>, limit: nat, now: Time)
    requires Coherent(data, now) && EventsKept(data.events, data.nextEvent) && NumberedSince(data.grants, before)
    requires limit > 0
    ensures Kept(Reconcile(data, before, limit), now)
  {
    hide GrantsKept, UsesKept, Kinds, NewEvents, Newest;
    ReviseKeeps(data, before, now);
    ReviseNumbers(data.grants, before);
    NewEventsAreConsecutive(data.grants, before, data.nextEvent);
    AppendKeepsOrder(data, NewEvents(data.grants, before, data.nextEvent), limit);
  }

  lemma ReconcileRemembers(data: Data, history: seq<Event>, before: map<string, Grant>, limit: nat)
    requires Remembers(data, history)
    ensures Remembers(Reconcile(data, before, limit), history + NewEvents(data.grants, before, data.nextEvent))
  {
    NewEventsAreConsecutive(data.grants, before, data.nextEvent);
    AppendRemembers(data.(grants := ReviseAll(data.grants, before)), history, NewEvents(data.grants, before, data.nextEvent), limit);
  }

  // --- Events and changes.

  lemma {:induction false} NoEventsNoKinds(grants: seq<Grant>, before: map<string, Grant>, next: nat, i: nat)
    requires NewEvents(grants, before, next) == [] && i < |grants|
    ensures Kinds(Previous(before, grants[i].id), grants[i]) == []
  {
    hide Kinds;
    if i < |grants| - 1 {
      NoEventsNoKinds(grants[..|grants| - 1], before, next, i);
    } else {
      assert |EventsOf(grants[i], before, next)| == |Kinds(Previous(before, grants[i].id), grants[i])|;
    }
  }

  lemma {:induction false} UnchangedHasNoEvents(grants: seq<Grant>, before: map<string, Grant>, next: nat)
    requires forall i :: 0 <= i < |grants| ==> Previous(before, grants[i].id) == Some(grants[i])
    ensures NewEvents(grants, before, next) == []
    ensures ReviseAll(grants, before) == grants
  {
    if grants != [] {
      var last := |grants| - 1;
      UnchangedHasNoEvents(grants[..last], before, next);
      assert Kinds(Some(grants[last]), grants[last]) == [];
    }
    assert forall i :: 0 <= i < |grants| ==> Kinds(Some(grants[i]), grants[i]) == [];
  }

  lemma SnapshotsOfSelf(grants: seq<Grant>)
    requires DistinctGrants(grants)
    ensures forall i :: 0 <= i < |grants| ==> Previous(Snapshots(grants), grants[i].id) == Some(grants[i])
  {
    hide Snapshots;
    forall i | 0 <= i < |grants| ensures Previous(Snapshots(grants), grants[i].id) == Some(grants[i]) {
      SnapshotOf(grants, grants[i].id);
      IndexOfGrant(grants, i);
    }
  }

  // What an event of each kind says about its grant.
  predicate Describes(kind: EventKind, previous: Option<Grant>, grant: Grant) {
    if previous.None? then kind == RequestCreated
    else
      var before := previous.value;
      match kind
      case RequestCreated => false
      case RequestApproved => before.status != Active && grant.status == Active
      case RequestDenied => before.status != Denied && grant.status == Denied
      case RequestFailed => before.status != Failed && grant.status == Failed
      case RequestCanceled => before.status != Canceled && grant.status == Canceled
      case RequestExpired => before.status != Expired && grant.status == Expired
      case GrantRevoked => before.status != Revoked && grant.status == Revoked
      case GrantConsumed => grant.usage.used > before.usage.used
      case GrantReleased => grant.usage.used <= before.usage.used && grant.usage.reserved < before.usage.reserved
      case GrantReserved => grant.usage.reserved > before.usage.reserved
      case ExecutionAmbiguous => !before.usage.retained && grant.usage.retained
      case _ => false
  }

  lemma KindsMean(previous: Option<Grant>, grant: Grant, kind: EventKind)
    ensures kind in Kinds(previous, grant) <==> Describes(kind, previous, grant)
  {
    if previous.Some? {
      assert kind in Kinds(previous, grant) <==>
             kind in StatusKinds(previous.value, grant) || kind in UsageKinds(previous.value.usage, grant.usage);
    }
  }

  // An event shows the grant after the change, and the state that a decision on it was bound to.
  predicate Tells(event: Event, kind: EventKind, grant: Grant, previous: Option<Grant>) {
    && event.kind == kind && event.grantId == grant.id && event.status == grant.status && event.revision == grant.revision
    && event.used == grant.usage.used && event.reserved == grant.usage.reserved && event.approver == grant.decidedBy
    && (previous.None? ==> event.previousStatus == None && event.previousRevision == 0 && event.expectedRevision == 0)
    && (previous.Some? ==>
          && event.previousStatus == Some(previous.value.status) && event.previousRevision == previous.value.revision
          && event.expectedRevision == if grant.decidedBy == "" then 0 else previous.value.revision)
  }

  lemma EventsOfTell(grant: Grant, before: map<string, Grant>, next: nat, kind: EventKind)
    ensures (exists k :: 0 <= k < |EventsOf(grant, before, next)| && Tells(EventsOf(grant, before, next)[k], kind, Revise(grant, before), Previous(before, grant.id)))
            <==> Describes(kind, Previous(before, grant.id), grant)
  {
    hide Describes, Kinds, Revise;
    KindsMean(Previous(before, grant.id), grant, kind);
    var kinds, events := Kinds(Previous(before, grant.id), grant), EventsOf(grant, before, next);
    RevisedUsage(grant, before);
    if kind in kinds {
      var k :| 0 <= k < |kinds| && kinds[k] == kind;
      assert Tells(events[k], kind, Revise(grant, before), Previous(before, grant.id));
    }
  }

  lemma RevisedUsage(grant: Grant, before: map<string, Grant>)
    ensures var revised := Revise(grant, before);
            revised == grant.(revision := revised.revision)
  {
    hide Kinds;
  }

  ghost predicate Told(events: seq<Event>, kind: EventKind, grant: Grant, previous: Option<Grant>) {
    exists k :: 0 <= k < |events| && Tells(events[k], kind, grant, previous)
  }

  // Reconciliation records a change of a grant exactly if there is one, with the state it led to.
  lemma {:induction false} ChangesAreTold(grants: seq<Grant>, before: map<string, Grant>, next: nat, i: nat, kind: EventKind)
    requires DistinctGrants(grants) && i < |grants|
    ensures Told(NewEvents(grants, before, next), kind, Revise(grants[i], before), Previous(before, grants[i].id))
            <==> Describes(kind, Previous(before, grants[i].id), grants[i])
  {
    hide Describes, Revise, Tells, EventsOf;
    var last := |grants| - 1;
    var earlier := NewEvents(grants[..last], before, next);
    var own := EventsOf(grants[last], before, next + |earlier|);
    ToldJoin(earlier, own, kind, Revise(grants[i], before), Previous(before, grants[i].id));
    RevisedUsage(grants[i], before);
    if i == last {
      EventsOfTell(grants[last], before, next + |earlier|, kind);
      OnlyOwnEvents(grants[..last], before, next, kind, Revise(grants[i], before), Previous(before, grants[i].id));
    } else {
      ChangesAreTold(grants[..last], before, next, i, kind);
      OnlyOwnEvent(grants[last], before, next + |earlier|, kind, Revise(grants[i], before), Previous(before, grants[i].id));
    }
  }

  lemma ToldJoin(a: seq<Event>, b: seq<Event>, kind: EventKind, grant: Grant, previous: Option<Grant>)
    ensures Told(a + b, kind, grant, previous) <==> Told(a, kind, grant, previous) || Told(b, kind, grant, previous)
  {
    hide Tells;
    if Told(a, kind, grant, previous) {
      var k :| 0 <= k < |a| && Tells(a[k], kind, grant, previous);
      assert (a + b)[k] == a[k];
    }
    if Told(b, kind, grant, previous) {
      var k :| 0 <= k < |b| && Tells(b[k], kind, grant, previous);
      assert (a + b)[|a| + k] == b[k];
    }
  }

  lemma OnlyOwnEvent(grant: Grant, before: map<string, Grant>, next: nat, kind: EventKind, other: Grant, previous: Option<Grant>)
    requires other.id != grant.id
    ensures !Told(EventsOf(grant, before, next), kind, other, previous)
  {
    hide Kinds;
  }

  lemma {:induction false} OnlyOwnEvents(grants: seq<Grant>, before: map<string, Grant>, next: nat, kind: EventKind, other: Grant, previous: Option<Grant>)
    requires forall i :: 0 <= i < |grants| ==> grants[i].id != other.id
    ensures !Told(NewEvents(grants, before, next), kind, other, previous)
  {
    hide Tells, EventsOf;
    if grants != [] {
      var last := |grants| - 1;
      var earlier := NewEvents(grants[..last], before, next);
      OnlyOwnEvents(grants[..last], before, next, kind, other, previous);
      OnlyOwnEvent(grants[last], before, next + |earlier|, kind, other, previous);
      ToldJoin(earlier, EventsOf(grants[last], before, next + |earlier|), kind, other, previous);
    }
  }
}
