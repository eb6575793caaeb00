// The operations on grants and uses: what each one changes, and that each one keeps the invariant.
module GrantOperations {
  import opened Options
  import opened Text
  import opened Sorting
  import opened GrantData
  import opened GrantLifecycle

  datatype Settings = Settings(
    pendingTimeout: int,
    defaultDuration: int,
    maxDuration: int,
    reservationTimeout: int,
    maxEvents: int,
    maxPendingPerClient: int,
    maxPendingGlobal: int
  )

  const MINUTE := 60_000_000_000

  function Positive(value: int, default: int): int { if value <= 0 then default else value }

  function WithDefaults(s: Settings): Settings {
    Settings(Positive(s.pendingTimeout, 5 * MINUTE), Positive(s.defaultDuration, 5 * MINUTE),
             Positive(s.maxDuration, 60 * MINUTE), Positive(s.reservationTimeout, 5 * MINUTE),
             Positive(s.maxEvents, 10_000), Positive(s.maxPendingPerClient, 10), Positive(s.maxPendingGlobal, 512))
  }

  // Every setting that is left out is given, and every other one is kept.
  lemma DefaultsAreGiven(s: Settings)
    ensures ValidSettings(WithDefaults(s)) && (ValidSettings(s) ==> WithDefaults(s) == s)
    ensures WithDefaults(Settings(0, 0, 0, 0, 0, 0, 0))
            == Settings(300_000_000_000, 300_000_000_000, 3_600_000_000_000, 300_000_000_000, 10_000, 10, 512)
    ensures WithDefaults(WithDefaults(s)) == WithDefaults(s)
  {
  }

  predicate ValidSettings(s: Settings) {
    && s.pendingTimeout > 0 && s.defaultDuration > 0 && s.maxDuration > 0 && s.reservationTimeout > 0
    && s.maxEvents > 0 && s.maxPendingPerClient > 0 && s.maxPendingGlobal > 0
  }

  datatype Request = Request(
    subject: Subject,
    duration: int,
    pendingTimeout: int,
    maxUses: int,
    maxUsesSpecified: bool,
    maxUsesDefaulted: bool
  )

  datatype Error =
    | InvalidRequest
    | NotFound
    | NotPending
    | NotActive
    | IdempotencyConflict
    | Capacity
    | NoIdentity
    | UseIdentityConflict
    | UseSettled
    | InvalidEventKind

  datatype Command =
    | Create(request: Request, newId: Option<string>)
    | RevokeGrant(id: string, approver: string)
    | CancelForClient(id: string, client: string)
    | RevokeForClient(id: string, client: string)
    | ReserveUse(id: string, requestId: string, operation: string)
    | SettleUse(id: string, requestId: string, target: UseState)
    | RecordExecution(id: string, kind: EventKind)

  // The readings of the clock during one call.
  datatype Times = Times(first: Time, second: Time, third: Time, fourth: Time)

  predicate Ordered(times: Times) {
    0 < times.first <= times.second <= times.third <= times.fourth
  }

  datatype Mutation = Mutation(data: Data, error: Option<Error>)

  // --- Requests.

  function WithMode(metadata: map<string, string>): map<string, string> {
    if METADATA_MODE in metadata then metadata else metadata[METADATA_MODE := "window"]
  }

  // Value lists are kept sorted and without duplicates.
  function CanonicalValues(values: map<string, seq<string>>): (r: map<string, seq<string>>)
    ensures r.Keys == values.Keys
  {
    map name | name in values :: Canonical(values[name])
  }

  // The values of a valid request as they are stored.
  function Tidied(subject: Subject): Subject {
    subject.(metadata := WithMode(subject.metadata), fields := CanonicalValues(subject.fields),
    attrs := CanonicalValues(subject.attrs))
  }

  function Normalize(request: Request, settings: Settings): Option<Request> {
    var duration := if request.duration <= 0 then settings.defaultDuration else request.duration;
    var defaulted := !request.maxUsesSpecified && IsUnlimited(request.maxUses);
    var maxUses := if defaulted then SINGLE_USE else request.maxUses;
    if !ValidSubject(request.subject.(metadata := WithMode(request.subject.metadata)))
       || duration > settings.maxDuration || maxUses < 0 || maxUses > MAX_FINITE_USES then None
    else
      Some(Request(Tidied(request.subject), duration,
                   if request.pendingTimeout <= 0 then settings.pendingTimeout else request.pendingTimeout,
                   maxUses, true, request.maxUsesDefaulted || defaulted))
  }

  predicate Normal(request: Request) {
    && ValidSubject(request.subject) && request.duration > 0 && request.pendingTimeout > 0
    && 0 <= request.maxUses <= MAX_FINITE_USES
  }

  lemma CanonicalIsValid(values: map<string, seq<string>>)
    ensures ValidValueMap(CanonicalValues(values)) <==> ValidValueMap(values)
  {
    hide Canonical, Blank;
    forall name | name in values
      ensures Canonical(values[name]) == [] <==> values[name] == []
      ensures (forall i :: 0 <= i < |values[name]| ==> !Blank(values[name][i]))
              <==> forall i :: 0 <= i < |Canonical(values[name])| ==> !Blank(Canonical(values[name])[i])
    {
      SameCanonicalBlanks(values[name]);
    }
  }

  lemma SameCanonicalBlanks(values: seq<string>)
    ensures Canonical(values) == [] <==> values == []
    ensures (forall i :: 0 <= i < |values| ==> !Blank(values[i]))
            <==> forall i :: 0 <= i < |Canonical(values)| ==> !Blank(Canonical(values)[i])
  {
    hide Canonical, Blank;
    forall x ensures x in Canonical(values) <==> x in values { CanonicalMembers(values, x); }
    if values != [] { assert values[0] in Canonical(values); }
    if Canonical(values) != [] { assert Canonical(values)[0] in values; }
    assert forall i :: 0 <= i < |values| ==> values[i] in Canonical(values);
    assert forall i :: 0 <= i < |Canonical(values)| ==> Canonical(values)[i] in values;
  }

  // What a request asks for it gets; what it leaves open it is given.
  predicate Asks(request: Request, normal: Request, settings: Settings) {
    && normal.subject.client == request.subject.client && normal.subject.requestId == request.subject.requestId
    && normal.subject.operation == request.subject.operation && normal.subject.kind == request.subject.kind
    && normal.subject.reason == request.subject.reason
    && SameValues(normal.subject.fields, request.subject.fields) && SameValues(normal.subject.attrs, request.subject.attrs)
    && normal.subject.metadata == (if "grant_mode" in request.subject.metadata then request.subject.metadata
                                   else request.subject.metadata["grant_mode" := "window"])
    && normal.duration == (if request.duration > 0 then request.duration else settings.defaultDuration)
    && normal.pendingTimeout == (if request.pendingTimeout > 0 then request.pendingTimeout else settings.pendingTimeout)
    && (request.maxUsesSpecified || IsFinite(request.maxUses) ==> normal.maxUses == request.maxUses)
    && (!request.maxUsesSpecified && IsUnlimited(request.maxUses) ==> normal.maxUses == SINGLE_USE && normal.maxUsesDefaulted)
  }

  // A request is accepted if and only if its values are valid and its bounds, completed by the
  // defaults, within the limits; what it then becomes is normal, and normalizing it again changes nothing.
  lemma NormalizeExactly(request: Request, settings: Settings)
    requires ValidSettings(settings)
    ensures var normal := Normalize(request, settings);
            && (normal.Some? <==>
                  && ValidSubject(request.subject.(metadata := WithMode(request.subject.metadata)))
                  && (request.duration <= 0 ==> settings.defaultDuration <= settings.maxDuration)
                  && request.duration <= settings.maxDuration && 0 <= request.maxUses <= MAX_FINITE_USES)
            && (normal.Some? ==>
                  && Normal(normal.value) && normal.value.duration <= settings.maxDuration
                  && Asks(request, normal.value, settings)
                  && Normalize(normal.value, settings) == normal)
  {
    hide ValidMetadata, Canonical, ValidValueMap;
    CanonicalIsValid(request.subject.fields);
    CanonicalIsValid(request.subject.attrs);
    CanonicalValuesAgain(request.subject.fields);
    CanonicalValuesAgain(request.subject.attrs);
    TidiedTwice(request.subject);
  }

  lemma TidiedTwice(subject: Subject)
    ensures Tidied(Tidied(subject)) == Tidied(subject)
  {
    hide Canonical;
    CanonicalValuesAgain(subject.fields);
    CanonicalValuesAgain(subject.attrs);
  }

  lemma CanonicalValuesAgain(values: map<string, seq<string>>)
    ensures CanonicalValues(CanonicalValues(values)) == CanonicalValues(values)
  {
    hide Canonical;
    forall name | name in values ensures Canonical(Canonical(values[name])) == Canonical(values[name]) {
      CanonicalAgain(values[name]);
    }
  }

  predicate Repeats(grant: Grant, subject: Subject) {
    grant.subject.client == subject.client && grant.subject.requestId == subject.requestId && grant.status != Canceled
  }

  // The live grant of the same client with the same request identity.
  function FindIdempotent(grants: seq<Grant>, subject: Subject): Option<Grant> {
    if grants == [] || subject.requestId == "" then None
    else if Repeats(grants[0], subject) then Some(grants[0])
    else FindIdempotent(grants[1..], subject)
  }

  predicate SameValues(a: map<string, seq<string>>, b: map<string, seq<string>>) {
    CanonicalValues(a) == CanonicalValues(b)
  }

  // The same names with the same sets of values, whatever their order and repetitions.
  lemma SameValuesMean(a: map<string, seq<string>>, b: map<string, seq<string>>)
    ensures SameValues(a, b) <==> a.Keys == b.Keys && forall name :: name in a ==> SameElements(a[name], b[name])
  {
    hide Canonical, SameElements;
    forall name | name in a && name in b ensures Canonical(a[name]) == Canonical(b[name]) <==> SameElements(a[name], b[name]) {
      CanonicalAgrees(a[name], b[name]);
    }
    if SameValues(a, b) {
      assert a.Keys == CanonicalValues(a).Keys == b.Keys;
      forall name | name in a ensures SameElements(a[name], b[name]) {
        assert CanonicalValues(a)[name] == CanonicalValues(b)[name];
      }
    }
  }

  predicate SameRequest(grant: Grant, request: Request) {
    && grant.subject.operation == request.subject.operation
    && grant.subject.kind == request.subject.kind && SameValues(grant.subject.fields, request.subject.fields)
    && SameValues(grant.subject.attrs, request.subject.attrs) && grant.subject.metadata == request.subject.metadata
    && grant.subject.reason == request.subject.reason
    && grant.maxUses == request.maxUses && grant.maxUsesDefaulted == request.maxUsesDefaulted
    && grant.duration == request.duration && grant.pendingTimeout == request.pendingTimeout
  }

  function PendingOf(grants: seq<Grant>, client: string): nat {
    if grants == [] then 0
    else
      var last := grants[|grants| - 1];
      PendingOf(grants[..|grants| - 1], client) + if last.status == Pending && last.subject.client == client then 1 else 0
  }

  function PendingCount(grants: seq<Grant>): nat {
    if grants == [] then 0
    else PendingCount(grants[..|grants| - 1]) + if grants[|grants| - 1].status == Pending then 1 else 0
  }

  predicate HasCapacity(grants: seq<Grant>, client: string, settings: Settings) {
    PendingOf(grants, client) < settings.maxPendingPerClient && PendingCount(grants) < settings.maxPendingGlobal
  }

  function NewGrant(request: Request, id: string, now: Time): Grant
    requires Normal(request)
  {
    Grant(id, request.subject, Pending, 0, now, now + request.pendingTimeout, 0,
          request.duration, request.duration, request.pendingTimeout, 0, "", "", None, "", 0,
          UNUSED, 0, 0, request.maxUses, request.maxUses, request.maxUsesDefaulted, None)
  }

  function CreateGrant(data: Data, request: Request, id: Option<string>, settings: Settings, times: Times): Mutation
    requires Normal(request)
  {
    var expired := ExpireDue(data, times.third);
    var existing := FindIdempotent(expired.grants, request.subject);
    if existing.Some? then
      Mutation(expired, if SameRequest(existing.value, request) then None else Some(IdempotencyConflict))
    else if !HasCapacity(expired.grants, request.subject.client, settings) then Mutation(expired, Some(Capacity))
    else if id.None? then Mutation(expired, Some(NoIdentity))
    else Mutation(expired.(grants := expired.grants + [NewGrant(request, id.value, times.fourth)]), None)
  }

  // The grant that a successful creation answers with: the one that the request repeats, or the new one.
  function Requested(data: Data, request: Request, id: Option<string>, times: Times): Option<string> {
    var existing := FindIdempotent(ExpireDue(data, times.third).grants, request.subject);
    if existing.Some? then Some(existing.value.id) else id
  }

  // --- Closing.

  function Close(grant: Grant, status: Status, closer: string, now: Time): Grant {
    grant.(status := status, decidedAt := now, decidedBy := closer)
  }

  function CloseGrant(data: Data, id: string, status: Status, closer: string, now: Time): Data {
    var index := GrantIndex(data.grants, id);
    if index.None? then data
    else data.(grants := data.grants[index.value := Close(data.grants[index.value], status, closer, now)])
  }

  function RevokeActive(data: Data, id: string, approver: string, now: Time): Mutation {
    var index := GrantIndex(data.grants, id);
    if index.None? then Mutation(data, Some(NotFound))
    else if data.grants[index.value].status != Active then Mutation(data, Some(NotActive))
    else Mutation(CloseGrant(data, id, Revoked, approver, now), None)
  }

  function CloseOwn(data: Data, id: string, client: string, required: Status, status: Status, now: Time): Mutation {
    var index := GrantIndex(data.grants, id);
    if index.None? || data.grants[index.value].subject.client != client then Mutation(data, Some(NotFound))
    else if data.grants[index.value].status != required then
      Mutation(data, Some(if required == Pending then NotPending else NotActive))
    else Mutation(CloseGrant(data, id, status, client, now), None)
  }

  // --- Uses.

  predicate CanUse(grant: Grant, now: Time) {
    && grant.status == Active && now < grant.expiresAt
    && Allows(grant.maxUses, grant.usage.used, grant.usage.reserved)
  }

  function Recount(grant: Grant, uses: seq<Use>): Grant { grant.(usage := Tally(grant.id, uses)) }

  function Reserving(grant: Grant, uses: seq<Use>): Grant {
    Recount(grant.(reservationRevision := grant.reservationRevision + 1), uses)
  }

  function ReserveExisting(data: Data, k: nat, id: string, operation: string, now: Time): Mutation
    requires k < |data.uses|
  {
    var use, index := data.uses[k], GrantIndex(data.grants, id);
    if use.grantId != id || use.operation != operation then Mutation(data, Some(UseIdentityConflict))
    else if use.state != Released then Mutation(data, None)
    else if index.None? then Mutation(data, Some(NotFound))
    else if !CanUse(data.grants[index.value], now) then Mutation(data, Some(NotActive))
    else
      var uses := data.uses[k := use.(state := Reserved, revision := use.revision + 1, updatedAt := now, settledAt := 0)];
      Mutation(data.(uses := uses, grants := data.grants[index.value := Reserving(data.grants[index.value], uses)]), None)
  }

  function ReserveNew(data: Data, id: string, requestId: string, operation: string, now: Time): Mutation {
    var index := GrantIndex(data.grants, id);
    if index.None? then Mutation(data, Some(NotFound))
    else if data.grants[index.value].subject.operation != operation then Mutation(data, Some(UseIdentityConflict))
    else if !CanUse(data.grants[index.value], now) then Mutation(data, Some(NotActive))
    else
      var uses := data.uses + [Use(id, requestId, operation, Reserved, 1, now, now, 0)];
      Mutation(data.(uses := uses, grants := data.grants[index.value := Reserving(data.grants[index.value], uses)]), None)
  }

  function Reserve(data: Data, id: string, requestId: string, operation: string, now: Time): Mutation {
    match UseIndex(data.uses, requestId)
    case Some(k) => ReserveExisting(data, k, id, operation, now)
    case None => ReserveNew(data, id, requestId, operation, now)
  }

  function SettledUse(use: Use, target: UseState, now: Time): Use {
    use.(state := target, revision := use.revision + 1, updatedAt := now,
    settledAt := if Settled(target) then now else use.settledAt)
  }

  // A finite budget that has been spent consumes the grant, unless it was revoked.
  function ConsumeSpent(grant: Grant): Grant {
    if Exhausted(grant.maxUses, grant.usage.used) && grant.status != Revoked then
      grant.(status := Consumed, expiredFrom := None)
    else grant
  }

  function Settling(grant: Grant, uses: seq<Use>, target: UseState): Grant {
    ConsumeSpent(Recount(grant.(
                         reservationRevision := grant.reservationRevision + 1,
                         useRevision := if target == Committed then grant.useRevision + 1 else grant.useRevision), uses))
  }

  function Settle(data: Data, id: string, requestId: string, target: UseState, now: Time): Mutation {
    var found, index := UseIndex(data.uses, requestId), GrantIndex(data.grants, id);
    if found.None? || data.uses[found.value].grantId != id then Mutation(data, Some(UseIdentityConflict))
    else if index.None? then Mutation(data, Some(NotFound))
    else
      var use, grant := data.uses[found.value], data.grants[index.value];
      if use.state == target then Mutation(data, None)
      else if Settled(use.state) then Mutation(data, Some(UseSettled))
      else if !Settleable(grant.status) then Mutation(data, Some(NotActive))
      else
        var uses := data.uses[found.value := SettledUse(use, target, now)];
        Mutation(data.(uses := uses, grants := data.grants[index.value := Settling(grant, uses, target)]), None)
  }

  predicate IsExecutionKind(kind: EventKind) {
    kind == ExecutionSucceeded || kind == ExecutionFailed || kind == ExecutionAmbiguous
  }

  function Execute(data: Data, id: string, kind: EventKind, limit: nat): Mutation {
    var index := GrantIndex(data.grants, id);
    if index.None? then Mutation(data, Some(NotFound))
    else
      var grant := data.grants[index.value];
      Mutation(Append(data, [EventOf(data.nextEvent, kind, grant, Some(grant))], limit), None)
  }

  // --- One update.

  // What the caller checks before the store is touched.
  predicate Admissible(command: Command) {
    match command
    case Create(request, id) => Normal(request)
    case ReserveUse(id, requestId, operation) => ValidUseIdentity(id, requestId, operation)
    case SettleUse(id, requestId, target) => id != "" && requestId != "" && target != Reserved
    case RecordExecution(id, kind) => IsExecutionKind(kind)
    case _ => true
  }

  function Mutate(data: Data, command: Command, settings: Settings, times: Times): Mutation
    requires ValidSettings(settings) && Admissible(command)
  {
    match command
    case Create(request, id) => CreateGrant(data, request, id, settings, times)
    case RevokeGrant(id, approver) => RevokeActive(data, id, approver, times.third)
    case CancelForClient(id, client) => CloseOwn(data, id, client, Pending, Canceled, times.third)
    case RevokeForClient(id, client) => CloseOwn(data, id, client, Active, Revoked, times.third)
    case ReserveUse(id, requestId, operation) => Reserve(data, id, requestId, operation, times.third)
    case SettleUse(id, requestId, target) => Settle(data, id, requestId, target, times.third)
    case RecordExecution(id, kind) => Execute(data, id, kind, settings.maxEvents)
  }

  // Prepare, change and reconcile: what is written whether or not the change is refused.
  function Update(data: Data, command: Command, settings: Settings, times: Times): Mutation
    requires ValidSettings(settings) && Admissible(command)
  {
    var change := Mutate(Prepare(data, times.first, times.second, settings.reservationTimeout), command, settings, times);
    change.(data := Reconcile(change.data, Snapshots(data.grants), settings.maxEvents))
  }

  // --- Each change keeps the invariant.

  lemma ReplaceGrantKeeps(data: Data, i: nat, grant: Grant, now: Time)
    requires Coherent(data, now) && i < |data.grants|
    requires grant.id == data.grants[i].id && grant.subject == data.grants[i].subject && GrantKept(grant, data.uses)
    ensures Coherent(data.(grants := data.grants[i := grant]), now)
  {
    hide GrantKept, UseKept;
    var grants := data.grants[i := grant];
    assert SameIdentity(data.grants, grants);
    UsesKeptByIdentity(data.grants, grants, data.uses, now);
    SameIdentityIsDistinct(data.grants, grants);
  }

  lemma OtherGrantKept(grant: Grant, uses: seq<Use>, k: nat, use: Use)
    requires GrantKept(grant, uses) && k < |uses|
    requires use.grantId == uses[k].grantId && grant.id != use.grantId
    ensures GrantKept(grant, uses[k := use])
  {
    hide Formed, Budgeted, Narrowed, Tally, RevisionTotal;
    TallyUpdate(grant.id, uses, k, use);
  }

  lemma OtherGrantKeptWith(grant: Grant, uses: seq<Use>, use: Use)
    requires GrantKept(grant, uses) && grant.id != use.grantId
    ensures GrantKept(grant, uses + [use])
  {
    hide Formed, Budgeted, Narrowed, Tally, RevisionTotal;
    TallyAppend(grant.id, uses, use);
  }

  // Changing one use together with its grant.
  lemma ReplaceUseKeeps(data: Data, k: nat, use: Use, i: nat, grant: Grant, now: Time)
    requires Coherent(data, now) && k < |data.uses| && GrantIndex(data.grants, use.grantId) == Some(i)
    requires use.grantId == data.uses[k].grantId && use.requestId == data.uses[k].requestId
    requires UseKept(use, data.grants, now)
    requires grant.id == data.grants[i].id && grant.subject == data.grants[i].subject
    requires GrantKept(grant, data.uses[k := use])
    ensures Coherent(data.(grants := data.grants[i := grant], uses := data.uses[k := use]), now)
  {
    hide GrantKept, UseKept;
    var uses, grants := data.uses[k := use], data.grants[i := grant];
    forall j | 0 <= j < |grants| ensures GrantKept(grants[j], uses) {
      if j != i {
        OtherGrantKept(data.grants[j], data.uses, k, use);
      }
    }
    assert SameIdentity(data.grants, grants);
    SameIdentityIsDistinct(data.grants, grants);
    assert UsesKept(data.grants, uses, now);
    UsesKeptByIdentity(data.grants, grants, uses, now);
  }

  lemma AddUseKeeps(data: Data, use: Use, i: nat, grant: Grant, now: Time)
    requires Coherent(data, now) && GrantIndex(data.grants, use.grantId) == Some(i)
    requires UseIndex(data.uses, use.requestId).None?
    requires UseKept(use, data.grants, now)
    requires grant.id == data.grants[i].id && grant.subject == data.grants[i].subject
    requires GrantKept(grant, data.uses + [use])
    ensures Coherent(data.(grants := data.grants[i := grant], uses := data.uses + [use]), now)
  {
    hide GrantKept, UseKept;
    var uses, grants := data.uses + [use], data.grants[i := grant];
    forall j | 0 <= j < |grants| ensures GrantKept(grants[j], uses) {
      if j != i {
        OtherGrantKeptWith(data.grants[j], data.uses, use);
      }
    }
    assert SameIdentity(data.grants, grants);
    SameIdentityIsDistinct(data.grants, grants);
    assert UsesKept(data.grants, uses, now);
    UsesKeptByIdentity(data.grants, grants, uses, now);
  }

  lemma {:induction false} IndexAppend(grants: seq<Grant>, grant: Grant, id: string)
    ensures GrantIndex(grants + [grant], id) ==
            if GrantIndex(grants, id).Some? then GrantIndex(grants, id)
            else if grant.id == id then Some(|grants|) else None
  {
    if grants == [] {
    } else {
      assert (grants + [grant])[1..] == grants[1..] + [grant];
      IndexAppend(grants[1..], grant, id);
    }
  }

  // An identity that no grant has is named by no use.
  lemma FreshIsUnused(grants: seq<Grant>, uses: seq<Use>, id: string, now: Time)
    requires UsesKept(grants, uses, now) && GrantIndex(grants, id).None?
    ensures Tally(id, uses) == UNUSED && RevisionTotal(id, uses) == 0
  {
    forall k | 0 <= k < |uses| ensures uses[k].grantId != id {
      assert UseKept(uses[k], grants, now);
    }
    TallyOfNone(id, uses);
  }

  lemma AddGrantKeeps(data: Data, grant: Grant, now: Time)
    requires Coherent(data, now) && GrantIndex(data.grants, grant.id).None?
    requires GrantKept(grant, data.uses)
    ensures Coherent(data.(grants := data.grants + [grant]), now)
  {
    hide GrantKept, LoadedUse;
    var grants := data.grants + [grant];
    forall k | 0 <= k < |data.uses| ensures UseKept(data.uses[k], grants, now) {
      assert UseKept(data.uses[k], data.grants, now);
      IndexAppend(data.grants, grant, data.uses[k].grantId);
    }
  }

  lemma NewGrantIsKept(data: Data, request: Request, id: string, now: Time)
    requires Coherent(data, now) && GrantIndex(data.grants, id).None? && Normal(request) && id != "" && now > 0
    ensures GrantKept(NewGrant(request, id, now), data.uses)
  {
    hide ValidSubject, UseKept;
    FreshIsUnused(data.grants, data.uses, id, now);
  }

  lemma CreateKeeps(data: Data, request: Request, id: Option<string>, settings: Settings, times: Times)
    requires Coherent(data, times.second) && Normal(request) && Ordered(times)
    requires id.Some? ==> id.value != "" && GrantIndex(data.grants, id.value).None?
    ensures Coherent(CreateGrant(data, request, id, settings, times).data, times.fourth)
  {
    hide GrantsKept, UsesKept, GrantKept, FindIdempotent, SameRequest, HasCapacity, Normal;
    ExpireDueKeeps(data, times.second, times.third);
    var expired := ExpireDue(data, times.third);
    CoherentLater(expired, times.third, times.fourth);
    if id.Some? {
      IndexOfIdentity(data.grants, expired.grants, id.value);
      NewGrantIsKept(expired, request, id.value, times.fourth);
      AddGrantKeeps(expired, NewGrant(request, id.value, times.fourth), times.fourth);
    }
  }

  lemma CoherentLater(data: Data, earlier: Time, now: Time)
    requires Coherent(data, earlier) && earlier <= now
    ensures Coherent(data, now)
  {
    hide GrantKept, UsesKept;
    LaterUsesKept(data.grants, data.uses, earlier, now);
  }

  lemma CloseIsKept(grant: Grant, uses: seq<Use>, status: Status, closer: string, now: Time)
    requires GrantKept(grant, uses)
    requires (grant.status == Active && status == Revoked) || (grant.status == Pending && status == Canceled)
    ensures GrantKept(Close(grant, status, closer, now), uses)
  {
    hide ValidSubject, SafeIdentity, Tally, RevisionTotal;
  }

  lemma CloseKeeps(data: Data, id: string, status: Status, closer: string, now: Time)
    requires Coherent(data, now) && GrantIndex(data.grants, id).Some?
    requires var grant := data.grants[GrantIndex(data.grants, id).value];
             (grant.status == Active && status == Revoked) || (grant.status == Pending && status == Canceled)
    ensures Coherent(CloseGrant(data, id, status, closer, now), now)
  {
    hide GrantKept, UsesKept;
    var i := GrantIndex(data.grants, id).value;
    CloseIsKept(data.grants[i], data.uses, status, closer, now);
    ReplaceGrantKeeps(data, i, Close(data.grants[i], status, closer, now), now);
  }

  // A reservation that the budget allows.
  lemma ReservingIsKept(grant: Grant, before: seq<Use>, uses: seq<Use>, now: Time)
    requires GrantKept(grant, before) && CanUse(grant, now) && Dated(uses)
    requires Tally(grant.id, uses).used == grant.usage.used
    requires Tally(grant.id, uses).reserved == grant.usage.reserved + 1
    requires RevisionTotal(grant.id, uses) == grant.reservationRevision + 1
    ensures GrantKept(Reserving(grant, uses), uses)
  {
    hide ValidSubject, SafeIdentity, Tally, RevisionTotal, Dated;
    TallyIsDated(grant.id, uses);
  }

  lemma DatedUpdate(uses: seq<Use>, k: nat, use: Use)
    requires Dated(uses) && k < |uses| && use.updatedAt > 0 && use.revision >= 1
    ensures Dated(uses[k := use])
  {
  }

  lemma ReserveExistingKeeps(data: Data, k: nat, id: string, operation: string, now: Time)
    requires Coherent(data, now) && k < |data.uses| && now > 0
    ensures Coherent(ReserveExisting(data, k, id, operation, now).data, now)
  {
    hide GrantKept, UseKept, Tally, RevisionTotal, Recount, Dated;
    var use, index := data.uses[k], GrantIndex(data.grants, id);
    if use.grantId == id && use.state == Released && index.Some? && CanUse(data.grants[index.value], now) {
      var grant := data.grants[index.value];
      var renewed := use.(state := Reserved, revision := use.revision + 1, updatedAt := now, settledAt := 0);
      var uses := data.uses[k := renewed];
      UsesAreDated(data.grants, data.uses, now);
      DatedUpdate(data.uses, k, renewed);
      TallyUpdate(id, data.uses, k, renewed);
      assert Counted(grant, data.uses) by { KeptIsCounted(grant, data.uses); }
      ReservingIsKept(grant, data.uses, uses, now);
      RenewedIsKept(use, data.grants, now);
      KeepsSubject(grant, uses);
      ReplaceUseKeeps(data, k, renewed, index.value, Reserving(grant, uses), now);
    }
  }

  lemma KeptIsCounted(grant: Grant, uses: seq<Use>)
    requires GrantKept(grant, uses)
    ensures Counted(grant, uses)
  {
  }

  lemma KeepsSubject(grant: Grant, uses: seq<Use>)
    ensures Reserving(grant, uses).id == grant.id && Reserving(grant, uses).subject == grant.subject
  {
  }

  lemma RenewedIsKept(use: Use, grants: seq<Grant>, now: Time)
    requires UseKept(use, grants, now) && use.state == Released
    ensures UseKept(use.(state := Reserved, revision := use.revision + 1, updatedAt := now, settledAt := 0), grants, now)
  {
  }

  lemma ReserveNewKeeps(data: Data, id: string, requestId: string, operation: string, now: Time)
    requires Coherent(data, now) && now > 0
    requires ValidUseIdentity(id, requestId, operation) && UseIndex(data.uses, requestId).None?
    ensures Coherent(ReserveNew(data, id, requestId, operation, now).data, now)
  {
    hide GrantKept, UseKept, Tally, RevisionTotal, Recount, Dated, ValidUseIdentity;
    var index := GrantIndex(data.grants, id);
    if index.Some? && data.grants[index.value].subject.operation == operation && CanUse(data.grants[index.value], now) {
      var grant := data.grants[index.value];
      var use := Use(id, requestId, operation, Reserved, 1, now, now, 0);
      var uses := data.uses + [use];
      UsesAreDated(data.grants, data.uses, now);
      DatedAppend(data.uses, use);
      TallyAppend(id, data.uses, use);
      KeptIsCounted(grant, data.uses);
      ReservingIsKept(grant, data.uses, uses, now);
      NewUseIsKept(data.grants, use, now);
      KeepsSubject(grant, uses);
      AddUseKeeps(data, use, index.value, Reserving(grant, uses), now);
    }
  }

  lemma DatedAppend(uses: seq<Use>, use: Use)
    requires Dated(uses) && use.updatedAt > 0 && use.revision >= 1
    ensures Dated(uses + [use])
  {
  }

  lemma NewUseIsKept(grants: seq<Grant>, use: Use, now: Time)
    requires ValidUseIdentity(use.grantId, use.requestId, use.operation) && GrantIndex(grants, use.grantId).Some?
    requires grants[GrantIndex(grants, use.grantId).value].subject.operation == use.operation
    requires use.state == Reserved && use.revision == 1 && use.createdAt == use.updatedAt == now > 0 && use.settledAt == 0
    ensures UseKept(use, grants, now)
  {
  }

  lemma SettlingIsKept(grant: Grant, before: seq<Use>, uses: seq<Use>, target: UseState)
    requires GrantKept(grant, before) && Settleable(grant.status) && Dated(uses) && target != Reserved
    requires grant.usage.reserved > 0
    requires Tally(grant.id, uses).used == grant.usage.used + (if target == Committed then 1 else 0)
    requires Tally(grant.id, uses).reserved == grant.usage.reserved - (if Settled(target) then 1 else 0)
    requires RevisionTotal(grant.id, uses) == grant.reservationRevision + 1
    ensures GrantKept(Settling(grant, uses, target), uses)
  {
    hide ValidSubject, SafeIdentity, Tally, RevisionTotal, Dated;
    TallyIsDated(grant.id, uses);
  }

  lemma SettledIsKept(use: Use, grants: seq<Grant>, target: UseState, now: Time)
    requires UseKept(use, grants, now) && !Settled(use.state)
    ensures UseKept(SettledUse(use, target, now), grants, now)
  {
  }

  // The outstanding use itself is counted in the reservations of its grant.
  lemma OutstandingIsCounted(id: string, uses: seq<Use>, k: nat)
    requires k < |uses| && uses[k].grantId == id && !Settled(uses[k].state)
    ensures Tally(id, uses).reserved > 0
  {
    hide Tally, RevisionTotal;
    TallyUpdate(id, uses, k, uses[k].(state := Released));
  }

  lemma SettleKeeps(data: Data, id: string, requestId: string, target: UseState, now: Time)
    requires Coherent(data, now) && now > 0 && target != Reserved
    ensures Coherent(Settle(data, id, requestId, target, now).data, now)
  {
    hide GrantKept, UseKept, Tally, RevisionTotal, Settling, Dated;
    var change := Settle(data, id, requestId, target, now);
    if change.data == data {
      return;
    }
    var k, i := UseIndex(data.uses, requestId).value, GrantIndex(data.grants, id).value;
    var use, grant := data.uses[k], data.grants[i];
    var settled := SettledUse(use, target, now);
    var uses := data.uses[k := settled];
    UsesAreDated(data.grants, data.uses, now);
    DatedUpdate(data.uses, k, settled);
    OutstandingIsCounted(id, data.uses, k);
    TallyUpdate(id, data.uses, k, settled);
    KeptIsCounted(grant, data.uses);
    SettlingIsKept(grant, data.uses, uses, target);
    SettledIsKept(use, data.grants, target, now);
    SettlingKeepsSubject(grant, uses, target);
    ReplaceUseKeeps(data, k, settled, i, Settling(grant, uses, target), now);
  }

  lemma SettlingKeepsSubject(grant: Grant, uses: seq<Use>, target: UseState)
    ensures Settling(grant, uses, target).id == grant.id && Settling(grant, uses, target).subject == grant.subject
  {
  }

  // --- One update keeps the invariant.

  // Identities are random; a new one is in use nowhere.
  predicate Fresh(data: Data, command: Command) {
    command.Create? && command.newId.Some? ==> command.newId.value != "" && GrantIndex(data.grants, command.newId.value).None?
  }

  lemma MutateKeeps(data: Data, command: Command, settings: Settings, times: Times)
    requires ValidSettings(settings) && Admissible(command) && Ordered(times) && Fresh(data, command)
    requires Coherent(data, times.second)
    ensures Coherent(Mutate(data, command, settings, times).data, times.fourth)
  {
    hide Coherent, Normal, ValidUseIdentity, CreateGrant, ReserveExisting, ReserveNew, Settle, CloseGrant, Append;
    CoherentLater(data, times.second, times.third);
    var after := Mutate(data, command, settings, times).data;
    match command {
      case Create(request, newId) => CreateKeeps(data, request, newId, settings, times);
      case RevokeGrant(id, approver) =>
        if after != data { CloseKeeps(data, id, Revoked, approver, times.third); }
      case CancelForClient(id, client) =>
        if after != data { CloseKeeps(data, id, Canceled, client, times.third); }
      case RevokeForClient(id, client) =>
        if after != data { CloseKeeps(data, id, Revoked, client, times.third); }
      case ReserveUse(id, requestId, operation) =>
        match UseIndex(data.uses, requestId) {
          case Some(k) => ReserveExistingKeeps(data, k, id, operation, times.third);
          case None => ReserveNewKeeps(data, id, requestId, operation, times.third);
        }
      case SettleUse(id, requestId, target) => SettleKeeps(data, id, requestId, target, times.third);
      case RecordExecution(id, kind) => ExecuteKeeps(data, id, kind, settings.maxEvents, times.third);
    }
    if !command.Create? {
      CoherentLater(after, times.third, times.fourth);
    }
  }

  lemma ExecuteKeeps(data: Data, id: string, kind: EventKind, limit: nat, now: Time)
    requires Coherent(data, now)
    ensures Coherent(Execute(data, id, kind, limit).data, now)
  {
    hide GrantsKept, UsesKept, Newest;
  }

  // Only the creation of a grant adds one, and no change touches a revision.
  predicate Extends(before: seq<Grant>, after: seq<Grant>) {
    && |before| <= |after| <= |before| + 1
    && forall i :: 0 <= i < |before| ==> after[i].id == before[i].id && after[i].revision == before[i].revision
  }

  lemma MutateExtends(data: Data, command: Command, settings: Settings, times: Times)
    requires ValidSettings(settings) && Admissible(command)
    ensures var after := Mutate(data, command, settings, times).data.grants;
            && Extends(data.grants, after)
            && (|after| == |data.grants| + 1 ==>
                  command.Create? && command.newId.Some? && after[|data.grants|].id == command.newId.value)
    ensures Mutate(data, command, settings, times).data.records == data.records
  {
    hide Normal, ValidUseIdentity, FindIdempotent, HasCapacity, SameRequest, CanUse, Tally, GrantIndex, UseIndex;
  }

  lemma MutateKeepsEvents(data: Data, command: Command, settings: Settings, times: Times)
    requires ValidSettings(settings) && Admissible(command) && EventsKept(data.events, data.nextEvent)
    ensures var after := Mutate(data, command, settings, times).data; EventsKept(after.events, after.nextEvent)
  {
    hide Normal, ValidUseIdentity, FindIdempotent, HasCapacity, SameRequest, CanUse, Tally, GrantIndex, UseIndex, Append;
    if command.RecordExecution? {
      var grants := data.grants;
      if GrantIndex(grants, command.id).Some? {
        var grant := grants[GrantIndex(grants, command.id).value];
        AppendKeepsOrder(data, [EventOf(data.nextEvent, command.kind, grant, Some(grant))], settings.maxEvents);
      }
    }
  }

  lemma MutateNumbers(data: Data, prepared: Data, command: Command, settings: Settings, times: Times)
    requires ValidSettings(settings) && Admissible(command) && Fresh(data, command)
    requires DistinctGrants(data.grants) && Numbered(data.grants)
    requires SameIdentity(data.grants, prepared.grants) && SameRevisions(data.grants, prepared.grants)
    ensures NumberedSince(Mutate(prepared, command, settings, times).data.grants, Snapshots(data.grants))
  {
    hide Mutate, Snapshots, Normal, ValidUseIdentity;
    MutateExtends(prepared, command, settings, times);
    var after := Mutate(prepared, command, settings, times).data.grants;
    if |after| == |data.grants| + 1 {
      SnapshotOf(data.grants, command.newId.value);
    }
  }

  lemma UpdateKeeps(data: Data, earlier: Time, command: Command, settings: Settings, times: Times)
    requires ValidSettings(settings) && Admissible(command) && Ordered(times) && Fresh(data, command)
    requires Kept(data, earlier) && earlier <= times.first
    ensures Kept(Update(data, command, settings, times).data, times.fourth)
  {
    hide GrantsKept, UsesKept, Prepare, Mutate, Reconcile, Snapshots, EventsKept, Numbered;
    var prepared := Prepare(data, times.first, times.second, settings.reservationTimeout);
    PrepareKeeps(data, earlier, times.first, times.second, settings.reservationTimeout);
    PrepareKeepsEvents(data, times.first, times.second, settings.reservationTimeout);
    FreshAfter(data, prepared, command);
    MutateKeeps(prepared, command, settings, times);
    MutateKeepsEvents(prepared, command, settings, times);
    assert DistinctGrants(data.grants) by { CoherentIsDistinct(data, earlier); }
    MutateNumbers(data, prepared, command, settings, times);
    ReconcileKeeps(Mutate(prepared, command, settings, times).data, Snapshots(data.grants), settings.maxEvents, times.fourth);
  }

  lemma PrepareKeepsEvents(data: Data, first: Time, second: Time, timeout: nat)
    ensures var after := Prepare(data, first, second, timeout);
            after.events == data.events && after.nextEvent == data.nextEvent && after.records == data.records
  {
  }

  lemma CoherentIsDistinct(data: Data, now: Time)
    requires Coherent(data, now)
    ensures DistinctGrants(data.grants)
  {
  }

  lemma FreshAfter(data: Data, prepared: Data, command: Command)
    requires Fresh(data, command) && SameIdentity(data.grants, prepared.grants)
    ensures Fresh(prepared, command)
  {
    if command.Create? && command.newId.Some? {
      IndexOfIdentity(data.grants, prepared.grants, command.newId.value);
    }
  }
}
