// The durable records of the grant store, the checks its loader makes on them, and the invariant
// that every operation keeps.
module GrantData {
  import opened Options
  import opened Text

  // A point in time; 0 is the zero time, which marks a field as unset.
  type Time = nat

  datatype Status = Pending | Active | Denied | Failed | Expired | Consumed | Revoked | Canceled

  datatype UseState = Reserved | Committed | Released | Retained

  datatype FailureCode =
    | PlanUnavailable
    | PlanMismatch
    | CredentialChanged
    | CredentialInsufficient
    | ConstraintExceeded
    | StorageUnavailable
    | TemporarilyUnavailable
    | InternalError

  // What a client asked for; no operation changes it once the grant exists.
  datatype Subject = Subject(
    client: string,
    requestId: string,
    operation: string,
    kind: string,
    fields: map<string, seq<string>>,
    attrs: map<string, seq<string>>,
    metadata: map<string, string>,
    reason: string
  )

  // The part of a grant that is recomputed from the use list.
  datatype Usage = Usage(used: nat, reserved: nat, usedAt: Time, reservedAt: Time, retained: bool)

  datatype Grant = Grant(
    id: string,
    subject: Subject,
    status: Status,
    revision: nat,
    createdAt: Time,
    pendingExpiresAt: Time,
    expiresAt: Time,
    duration: nat,
    requestedDuration: nat,
    pendingTimeout: nat,
    decidedAt: Time,
    decidedBy: string,
    onBehalfOf: string,
    failureCode: Option<FailureCode>,
    failureReference: string,
    failedAt: Time,
    usage: Usage,
    useRevision: nat,
    reservationRevision: nat,
    maxUses: int,
    requestedMaxUses: int,
    maxUsesDefaulted: bool,
    expiredFrom: Option<Status>
  )

  datatype Use = Use(
    grantId: string,
    requestId: string,
    operation: string,
    state: UseState,
    revision: nat,
    createdAt: Time,
    updatedAt: Time,
    settledAt: Time
  )

  datatype EventKind =
    | RequestCreated
    | RequestApproved
    | RequestDenied
    | RequestFailed
    | RequestCanceled
    | RequestExpired
    | GrantRevoked
    | GrantReserved
    | GrantConsumed
    | GrantReleased
    | ExecutionSucceeded
    | ExecutionFailed
    | ExecutionAmbiguous

  datatype Event = Event(
    sequence: nat,
    kind: EventKind,
    grantId: string,
    status: Status,
    used: nat,
    reserved: nat,
    revision: nat,
    approver: string,
    previousStatus: Option<Status>,
    previousRevision: nat,
    expectedRevision: nat
  )

  datatype Action = Approve | Deny | Revoke

  // A normalized operator command. The correlation identity is not part of what a replay must repeat.
  datatype Decision = Decision(
    id: string,
    action: Action,
    approver: string,
    onBehalfOf: string,
    expectedRevision: nat,
    key: string,
    duration: int,
    maxUses: int,
    maxUsesSpecified: bool
  )

  datatype Record = Record(
    scope: string,
    command: Decision,
    result: Grant,
    previous: Grant,
    cursor: Option<nat>,
    failureCode: Option<FailureCode>,
    failureReference: string
  )

  datatype Data = Data(grants: seq<Grant>, uses: seq<Use>, events: seq<Event>, nextEvent: nat, records: seq<Record>)

  // A state file that does not exist yet.
  const EMPTY := Data([], [], [], 1, [])

  // --- Use budgets: 0 stands for unlimited.

  const SINGLE_USE := 1
  const MAX_FINITE_USES := 1_000_000

  predicate IsUnlimited(limit: int) { limit == 0 }

  predicate IsFinite(limit: int) { limit > 0 }

  predicate Allows(limit: int, used: nat, reserved: nat) { IsUnlimited(limit) || used + reserved < limit }

  predicate Exhausted(limit: int, used: nat) { IsFinite(limit) && used >= limit }

  // The number of further uses, when there is a number.
  function Remaining(limit: int, used: nat, reserved: nat): Option<nat> {
    if IsUnlimited(limit) then None
    else if limit - used - reserved > 0 then Some(limit - used - reserved)
    else Some(0)
  }

  // The order with unlimited on top.
  predicate Within(limit: int, bound: int) { IsUnlimited(bound) || (IsFinite(limit) && limit <= bound) }

  // --- Aggregates.

  const UNUSED := Usage(0, 0, 0, 0, false)

  function AddUse(usage: Usage, use: Use): Usage {
    match use.state
    case Committed =>
      usage.(used := usage.used + 1, usedAt := if usage.usedAt < use.settledAt then use.settledAt else usage.usedAt)
    case Released => usage
    case _ =>
      usage.(reserved := usage.reserved + 1,
      reservedAt := if usage.reservedAt == 0 || use.updatedAt < usage.reservedAt then use.updatedAt else usage.reservedAt,
      retained := usage.retained || use.state == Retained)
  }

  function Tally(id: string, uses: seq<Use>): Usage {
    if uses == [] then UNUSED
    else
      var usage := Tally(id, uses[..|uses| - 1]);
      var last := uses[|uses| - 1];
      if last.grantId == id then AddUse(usage, last) else usage
  }

  function RevisionTotal(id: string, uses: seq<Use>): nat {
    if uses == [] then 0
    else
      var last := uses[|uses| - 1];
      RevisionTotal(id, uses[..|uses| - 1]) + (if last.grantId == id then last.revision else 0)
  }

  // --- What the loader checks.

  predicate Control(c: char) { c < ' ' || '\U{7f}' <= c <= '\U{9f}' }

  predicate SafeIdentity(s: string) {
    ByteLength(s) <= 200 && forall i :: 0 <= i < |s| ==> !Control(s[i])
  }

  predicate ValidValueMap(values: map<string, seq<string>>) {
    forall name :: name in values ==>
      !Blank(name) && values[name] != [] && forall i :: 0 <= i < |values[name]| ==> !Blank(values[name][i])
  }

  const METADATA_MODE := "grant_mode"

  predicate ValidMetadata(metadata: map<string, string>) {
    && METADATA_MODE in metadata
    && metadata[METADATA_MODE] in ["window", "execution"]
    && |metadata| <= 32
    && forall key :: key in metadata ==>
         && key != "" && !IsSpace(key[0]) && !IsSpace(key[|key| - 1]) && ByteLength(key) <= 128
         && !Blank(metadata[key]) && ByteLength(metadata[key]) <= 4096
  }

  predicate ValidSubject(subject: Subject) {
    && subject.client != "" && subject.operation != "" && subject.kind != "" && subject.reason != ""
    && ValidValueMap(subject.fields) && ValidValueMap(subject.attrs) && ValidMetadata(subject.metadata)
  }

  predicate ValidFailure(grant: Grant) {
    if grant.status == Failed then
      && grant.failureCode.Some? && grant.failedAt != 0
      && ByteLength(grant.failureReference) <= 128
      && (grant.failureReference == "" || SafeIdentity(grant.failureReference))
    else grant.failureCode.None? && grant.failureReference == "" && grant.failedAt == 0
  }

  // Everything the loader asks of one grant except that it has been given a revision.
  predicate Formed(grant: Grant) {
    && grant.id != "" && ValidSubject(grant.subject)
    && ValidFailure(grant)
    && grant.createdAt != 0 && grant.pendingExpiresAt != 0
    && grant.duration > 0 && grant.requestedDuration > 0 && grant.pendingTimeout > 0
    && grant.maxUses >= 0 && grant.requestedMaxUses >= 0
    && grant.useRevision >= grant.usage.used
    && (grant.usage.reserved == 0 || (grant.usage.reservedAt != 0 && grant.reservationRevision >= 1))
  }

  predicate LoadedGrant(grant: Grant) { Formed(grant) && grant.revision >= 1 }

  predicate ValidUseIdentity(grantId: string, requestId: string, operation: string) {
    && grantId != "" && ByteLength(grantId) <= 128
    && requestId != "" && ByteLength(requestId) <= 128
    && operation != "" && ByteLength(operation) <= 128
    && forall i :: 0 <= i < |requestId| ==> requestId[i] !in " \t\r\n"
  }

  predicate Settled(state: UseState) { state == Committed || state == Released }

  predicate LoadedUse(use: Use, operation: string) {
    && ValidUseIdentity(use.grantId, use.requestId, use.operation) && operation == use.operation
    && use.revision >= 1
    && use.createdAt != 0 && use.updatedAt >= use.createdAt
    && (Settled(use.state) <==> use.settledAt != 0)
    && (use.settledAt == 0 || use.settledAt >= use.updatedAt)
  }

  ghost predicate DistinctGrants(grants: seq<Grant>) {
    forall i, j :: 0 <= i < j < |grants| ==> grants[i].id != grants[j].id
  }

  ghost predicate DistinctUses(uses: seq<Use>) {
    forall i, j :: 0 <= i < j < |uses| ==> uses[i].requestId != uses[j].requestId
  }

  // The index of a grant, as its first match.
  function GrantIndex(grants: seq<Grant>, id: string): (r: Option<nat>)
    ensures r.Some? ==> r.value < |grants| && grants[r.value].id == id
    ensures r.None? ==> forall i :: 0 <= i < |grants| ==> grants[i].id != id
  {
    if grants == [] then None
    else if grants[0].id == id then Some(0)
    else
      match GrantIndex(grants[1..], id)
      case None => None
      case Some(i) => Some(i + 1)
  }

  function UseIndex(uses: seq<Use>, requestId: string): (r: Option<nat>)
    ensures r.Some? ==> r.value < |uses| && uses[r.value].requestId == requestId
    ensures r.None? ==> forall i :: 0 <= i < |uses| ==> uses[i].requestId != requestId
  {
    if uses == [] then None
    else if uses[0].requestId == requestId then Some(0)
    else
      match UseIndex(uses[1..], requestId)
      case None => None
      case Some(i) => Some(i + 1)
  }

  // The cached aggregates agree with the use list.
  predicate Counted(grant: Grant, uses: seq<Use>) {
    && grant.usage == Tally(grant.id, uses)
    && grant.useRevision == grant.usage.used
    && grant.reservationRevision == RevisionTotal(grant.id, uses)
  }

  ghost predicate LoadedUseAt(uses: seq<Use>, k: nat, grants: seq<Grant>)
    requires k < |uses|
  {
    var index := GrantIndex(grants, uses[k].grantId);
    index.Some? && LoadedUse(uses[k], grants[index.value].subject.operation)
  }

  ghost predicate OrderedEvents(events: seq<Event>, nextEvent: nat) {
    && (forall i :: 0 <= i < |events| ==> 0 < events[i].sequence < nextEvent)
    && (forall i, j :: 0 <= i < j < |events| ==> events[i].sequence < events[j].sequence)
    && nextEvent != 0
  }

  // The loader returns the data instead of an error.
  ghost predicate LoaderAccepts(data: Data) {
    && (forall i :: 0 <= i < |data.grants| ==> LoadedGrant(data.grants[i]))
    && DistinctGrants(data.grants)
    && (forall k :: 0 <= k < |data.uses| ==> LoadedUseAt(data.uses, k, data.grants))
    && DistinctUses(data.uses)
    && (forall i :: 0 <= i < |data.grants| ==> Counted(data.grants[i], data.uses))
    && OrderedEvents(data.events, data.nextEvent)
  }

  // --- What every operation keeps beyond that.

  // A finite budget covers every committed and every outstanding use, and only a grant in a state
  // that can still settle holds an outstanding one.
  predicate Budgeted(grant: Grant) {
    var usage := grant.usage;
    && (IsFinite(grant.maxUses) ==> usage.used + usage.reserved <= grant.maxUses)
    && match grant.status
       case Active => !Exhausted(grant.maxUses, usage.used)
       case Expired => !Exhausted(grant.maxUses, usage.used)
       case Revoked => true
       case Consumed => IsFinite(grant.maxUses) && usage.used == grant.maxUses && usage.reserved == 0
       case _ => usage == UNUSED
  }

  // Approval never widens what was requested.
  predicate Narrowed(grant: Grant) {
    && grant.duration <= grant.requestedDuration
    && Within(grant.maxUses, grant.requestedMaxUses)
    && (grant.status == Pending ==> grant.duration == grant.requestedDuration && grant.maxUses == grant.requestedMaxUses)
    && (grant.status == Active ==> 0 < grant.decidedAt && grant.expiresAt == grant.decidedAt + grant.duration)
  }

  predicate GrantKept(grant: Grant, uses: seq<Use>) {
    Formed(grant) && Counted(grant, uses) && Budgeted(grant) && Narrowed(grant)
  }

  // A use belongs to a grant with the same operation, and no later than now.
  ghost predicate UseKept(use: Use, grants: seq<Grant>, now: Time) {
    var index := GrantIndex(grants, use.grantId);
    && index.Some? && LoadedUse(use, grants[index.value].subject.operation)
    && use.updatedAt <= now
  }

  ghost predicate GrantsKept(grants: seq<Grant>, uses: seq<Use>) {
    DistinctGrants(grants) && forall i :: 0 <= i < |grants| ==> GrantKept(grants[i], uses)
  }

  ghost predicate UsesKept(grants: seq<Grant>, uses: seq<Use>, now: Time) {
    DistinctUses(uses) && forall k :: 0 <= k < |uses| ==> UseKept(uses[k], grants, now)
  }

  // Retained events are consecutive and end just before the next one.
  predicate EventsKept(events: seq<Event>, nextEvent: nat) {
    && |events| < nextEvent && (events == [] ==> nextEvent == 1)
    && forall i :: 0 <= i < |events| ==> events[i].sequence == nextEvent - |events| + i
  }

  predicate Numbered(grants: seq<Grant>) {
    forall i :: 0 <= i < |grants| ==> grants[i].revision >= 1
  }

  // Holds of grants and uses also in the middle of an operation.
  ghost predicate Coherent(data: Data, now: Time) {
    GrantsKept(data.grants, data.uses) && UsesKept(data.grants, data.uses, now)
  }

  // Holds whenever the store is at rest.
  ghost predicate Kept(data: Data, now: Time) {
    && Coherent(data, now)
    && Numbered(data.grants)
    && EventsKept(data.events, data.nextEvent)
  }

  // The store never writes a state that its own loader rejects.
  lemma LoaderAcceptsKept(data: Data, now: Time)
    requires Kept(data, now)
    ensures LoaderAccepts(data)
  {
    forall k | 0 <= k < |data.uses| ensures LoadedUseAt(data.uses, k, data.grants) {
      assert UseKept(data.uses[k], data.grants, now);
    }
  }

  // --- Lemmas about the aggregates.

  function UsedBy(use: Use): nat { if use.state == Committed then 1 else 0 }

  function HeldBy(use: Use): nat { if Settled(use.state) then 0 else 1 }

  lemma TallyAppend(id: string, uses: seq<Use>, use: Use)
    ensures Tally(id, uses + [use]) == if use.grantId == id then AddUse(Tally(id, uses), use) else Tally(id, uses)
    ensures RevisionTotal(id, uses + [use]) == RevisionTotal(id, uses) + if use.grantId == id then use.revision else 0
  {
    assert (uses + [use])[..|uses|] == uses;
  }

  lemma AddUseCounts(usage: Usage, use: Use)
    ensures AddUse(usage, use).used == usage.used + UsedBy(use)
    ensures AddUse(usage, use).reserved == usage.reserved + HeldBy(use)
  {
  }

  lemma {:induction false} TallyUpdate(id: string, uses: seq<Use>, k: nat, use: Use)
    requires k < |uses| && use.grantId == uses[k].grantId
    ensures use.grantId != id ==>
              Tally(id, uses[k := use]) == Tally(id, uses) && RevisionTotal(id, uses[k := use]) == RevisionTotal(id, uses)
    ensures use.grantId == id ==>
              && Tally(id, uses[k := use]).used + UsedBy(uses[k]) == Tally(id, uses).used + UsedBy(use)
              && Tally(id, uses[k := use]).reserved + HeldBy(uses[k]) == Tally(id, uses).reserved + HeldBy(use)
              && RevisionTotal(id, uses[k := use]) + uses[k].revision == RevisionTotal(id, uses) + use.revision
  {
    hide AddUse, UsedBy, HeldBy;
    var last := |uses| - 1;
    AddUseCounts(Tally(id, uses[..last]), uses[last]);
    AddUseCounts(Tally(id, uses[k := use][..last]), uses[k := use][last]);
    if k == last {
      assert uses[k := use][..last] == uses[..last];
    } else {
      TallyUpdate(id, uses[..last], k, use);
      assert uses[k := use][..last] == uses[..last][k := use];
    }
  }

  lemma {:induction false} TallyOfNone(id: string, uses: seq<Use>)
    requires forall k :: 0 <= k < |uses| ==> uses[k].grantId != id
    ensures Tally(id, uses) == UNUSED && RevisionTotal(id, uses) == 0
  {
    if uses != [] {
      TallyOfNone(id, uses[..|uses| - 1]);
    }
  }

  ghost predicate Dated(uses: seq<Use>) {
    forall k :: 0 <= k < |uses| ==> uses[k].updatedAt > 0 && uses[k].revision >= 1
  }

  // An outstanding use gives the aggregate a reservation time and revision.
  lemma {:induction false} TallyIsDated(id: string, uses: seq<Use>)
    requires Dated(uses)
    ensures Tally(id, uses).reserved > 0 ==> Tally(id, uses).reservedAt > 0 && RevisionTotal(id, uses) >= 1
    ensures Tally(id, uses).reserved == 0 ==> Tally(id, uses).reservedAt == 0
  {
    if uses != [] {
      TallyIsDated(id, uses[..|uses| - 1]);
    }
  }

  lemma UsesAreDated(grants: seq<Grant>, uses: seq<Use>, now: Time)
    requires UsesKept(grants, uses, now)
    ensures Dated(uses)
  {
    forall k | 0 <= k < |uses| ensures uses[k].updatedAt > 0 && uses[k].revision >= 1 {
      assert UseKept(uses[k], grants, now);
    }
  }
}
