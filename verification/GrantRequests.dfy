// Repeating a request, and what a listed grant still allows.
module GrantRequests {
  import opened Options
  import opened Sorting
  import opened GrantData
  import opened GrantLifecycle
  import opened GrantOperations
  import opened GrantEvolution
  import opened GrantRuns

  lemma {:induction false} FirstRepeat(grants: seq<Grant>, subject: Subject, n: nat)
    requires n < |grants| && subject.requestId != "" && Repeats(grants[n], subject)
    requires forall j :: 0 <= j < n ==> !Repeats(grants[j], subject)
    ensures FindIdempotent(grants, subject) == Some(grants[n])
  {
    if n > 0 {
      assert forall j :: 0 <= j < n - 1 ==> grants[1..][j] == grants[j + 1];
      FirstRepeat(grants[1..], subject, n - 1);
    }
  }

  lemma {:induction false} NoRepeat(grants: seq<Grant>, subject: Subject)
    requires FindIdempotent(grants, subject).None? && subject.requestId != ""
    ensures forall j :: 0 <= j < |grants| ==> !Repeats(grants[j], subject)
  {
    if grants != [] {
      NoRepeat(grants[1..], subject);
      assert forall j :: 0 < j < |grants| ==> grants[j] == grants[1..][j - 1];
    }
  }

  // What a repeated request is compared with.
  predicate SameTerms(a: Grant, b: Grant) {
    && a.id == b.id && a.subject == b.subject && a.maxUses == b.maxUses && a.maxUsesDefaulted == b.maxUsesDefaulted
    && a.duration == b.duration && a.pendingTimeout == b.pendingTimeout
  }

  // Neither expiry nor retention changes the terms of a grant or whether it has been canceled.
  lemma PreparationKeepsTerms(data: Data, times: Times, timeout: nat, j: nat)
    requires j < |data.grants|
    ensures var expired := ExpireDue(Prepare(data, times.first, times.second, timeout), times.third);
            && |expired.grants| == |data.grants| && SameTerms(data.grants[j], expired.grants[j])
            && (expired.grants[j].status == Canceled <==> data.grants[j].status == Canceled)
  {
    hide StaleUses, RetainUses, Tally;
  }

  // What a creation that appends a grant has found, and what it appends.
  lemma CreatedAlone(data: Data, earlier: Time, request: Request, newId: Option<string>, settings: Settings, times: Times)
    requires ValidSettings(settings) && Normal(request) && Ordered(times)
    requires Coherent(data, earlier) && earlier <= times.first && request.subject.requestId != ""
    requires |Update(data, Create(request, newId), settings, times).data.grants| > |data.grants|
    ensures forall j :: 0 <= j < |data.grants| ==> !Repeats(data.grants[j], request.subject)
    ensures var grant := Update(data, Create(request, newId), settings, times).data.grants[|data.grants|];
            && grant.subject == request.subject && grant.pendingTimeout == request.pendingTimeout
            && grant.maxUsesDefaulted == request.maxUsesDefaulted
  {
    hide Coherent, Prepare, Normal, HasCapacity, SameRequest, FindIdempotent, Snapshots, Kinds, NewEvents, Append, Repeats, ExpireGrant;
    hide GrantEvolves;
    var prepared := Prepare(data, times.first, times.second, settings.reservationTimeout);
    PrepareKeepsLength(data, times.first, times.second, settings.reservationTimeout);
    var expired := ExpireDue(prepared, times.third);
    ReconciledGrants(CreateGrant(prepared, request, newId, settings, times).data, Snapshots(data.grants), settings.maxEvents);
    NoRepeat(expired.grants, request.subject);
    forall j | 0 <= j < |data.grants| ensures !Repeats(data.grants[j], request.subject) {
      PreparationKeepsTerms(data, times, settings.reservationTimeout, j);
      SameTermsRepeat(data.grants[j], expired.grants[j], request.subject);
    }
  }

  lemma SameTermsRepeat(a: Grant, b: Grant, subject: Subject)
    requires SameTerms(a, b) && (a.status == Canceled <==> b.status == Canceled)
    ensures Repeats(a, subject) == Repeats(b, subject)
  {
  }

  lemma NeverRepeatsLater(a: Grant, b: Grant, subject: Subject, repeated: Subject)
    requires GrantEvolves(a, b) && !Repeats(a, subject)
    requires repeated.client == subject.client && repeated.requestId == subject.requestId
    ensures !Repeats(b, repeated)
  {
  }

  // The two requests ask for the same thing: lists of values count as sets.
  ghost predicate SameQuestion(a: Request, b: Request) {
    && a.subject.operation == b.subject.operation && a.subject.kind == b.subject.kind
    && a.subject.fields.Keys == b.subject.fields.Keys
    && (forall name :: name in a.subject.fields ==> SameElements(a.subject.fields[name], b.subject.fields[name]))
    && a.subject.attrs.Keys == b.subject.attrs.Keys
    && (forall name :: name in a.subject.attrs ==> SameElements(a.subject.attrs[name], b.subject.attrs[name]))
    && a.subject.metadata == b.subject.metadata && a.subject.reason == b.subject.reason
    && a.maxUsesDefaulted == b.maxUsesDefaulted && a.pendingTimeout == b.pendingTimeout
  }

  lemma SameRequestLater(created: Grant, later: Grant, request: Request, repeated: Request)
    requires GrantEvolves(created, later) && created.subject == request.subject
    requires created.pendingTimeout == request.pendingTimeout && created.maxUsesDefaulted == request.maxUsesDefaulted
    ensures SameRequest(later, repeated)
            <==> SameQuestion(request, repeated) && later.duration == repeated.duration && later.maxUses == repeated.maxUses
  {
    hide SameValues, SameElements;
    SameValuesMean(later.subject.fields, repeated.subject.fields);
    SameValuesMean(later.subject.attrs, repeated.subject.attrs);
  }

  // Answering the same request again on a store that holds its grant.
  lemma RepeatedCreation(data: Data, n: nat, request: Request, newId: Option<string>, settings: Settings, times: Times)
    requires ValidSettings(settings) && Normal(request)
    requires request.subject.requestId != "" && n < |data.grants| && Repeats(data.grants[n], request.subject)
    requires forall j :: 0 <= j < n ==> !Repeats(data.grants[j], request.subject)
    ensures var again := Update(data, Create(request, newId), settings, times);
            && |again.data.grants| == |data.grants|
            && again.error == (if SameRequest(data.grants[n], request) then None else Some(IdempotencyConflict))
            && Requested(Prepare(data, times.first, times.second, settings.reservationTimeout), request, newId, times)
               == Some(data.grants[n].id)
  {
    hide Prepare, Normal, HasCapacity, FindIdempotent, Snapshots, Kinds, NewEvents, Append, Repeats, ExpireGrant;
    var prepared := Prepare(data, times.first, times.second, settings.reservationTimeout);
    var expired := ExpireDue(prepared, times.third);
    PreparationKeepsTerms(data, times, settings.reservationTimeout, n);
    forall j | 0 <= j <= n ensures Repeats(expired.grants[j], request.subject) == Repeats(data.grants[j], request.subject) {
      PreparationKeepsTerms(data, times, settings.reservationTimeout, j);
      SameTermsRepeat(data.grants[j], expired.grants[j], request.subject);
    }
    FirstRepeat(expired.grants, request.subject, n);
    ReconciledGrants(CreateGrant(prepared, request, newId, settings, times).data, Snapshots(data.grants), settings.maxEvents);
  }

  lemma EvolvesOne(a: seq<Grant>, b: seq<Grant>, i: nat)
    requires Evolves(a, b) && i < |a|
    ensures i < |b| && GrantEvolves(a[i], b[i])
  {
  }

  lemma SameSubjectRepeats(created: Grant, later: Grant, request: Request, repeated: Request)
    requires GrantEvolves(created, later) && created.subject == request.subject && later.status != Canceled
    requires repeated.subject.client == request.subject.client && repeated.subject.requestId == request.subject.requestId
    ensures Repeats(later, repeated.subject)
  {
  }

  lemma AtRestIsCoherent(data: Data, now: Time)
    requires AtRest(data, now)
    ensures Coherent(data, now)
  {
  }

  // Whatever has happened since, a request of the same client with the same identity creates no second
  // grant while the first has not been canceled. It is answered with the first grant if and only if it
  // asks for the same and approval has not narrowed that, and is a conflict otherwise.
  lemma RequestIsIdempotent(data: Data, now: Time, request: Request, newId: Option<string>, times: Times, run: seq<Entry>,
                            settings: Settings, repeated: Request, otherId: Option<string>, times': Times)
    requires ValidSettings(settings) && AtRest(data, now) && Legal(data, Entry(Change(Create(request, newId)), times, true), now)
    requires request.subject.requestId != ""
    requires |Update(data, Create(request, newId), settings, times).data.grants| > |data.grants|
    requires LegalRun(Update(data, Create(request, newId), settings, times).data, run, times.fourth, settings)
    requires Normal(repeated)
    requires repeated.subject.client == request.subject.client && repeated.subject.requestId == request.subject.requestId
    ensures var later := After(Update(data, Create(request, newId), settings, times).data, run, times.fourth, settings);
            var n := |data.grants|;
            n < |later.grants| &&
            (later.grants[n].status != Canceled ==>
              var again := Update(later, Create(repeated, otherId), settings, times');
              && |again.data.grants| == |later.grants|
              && again.error == (if && SameQuestion(request, repeated)
                                    && later.grants[n].duration == repeated.duration && later.grants[n].maxUses == repeated.maxUses
                                 then None else Some(IdempotencyConflict))
              && Requested(Prepare(later, times'.first, times'.second, settings.reservationTimeout), repeated, otherId, times')
                 == Some(later.grants[n].id))
  {
    hide LegalRun, After, AtRest, Update, Evolves, GrantEvolves, SameRequest, SameQuestion, Repeats, Normal, Fresh, Requested, Prepare;
    var created := Update(data, Create(request, newId), settings, times).data;
    var n := |data.grants|;
    AtRestIsCoherent(data, now);
    CreatedAlone(data, now, request, newId, settings, times);
    var entry := Entry(Change(Create(request, newId)), times, true);
    StepKeeps(data, now, entry, settings);
    StoredChange(data, entry, settings);
    RunKeeps(created, run, times.fourth, settings);
    var later := After(created, run, times.fourth, settings);
    EvolvesTrans(data.grants, created.grants, later.grants);
    EvolvesOne(created.grants, later.grants, n);
    if later.grants[n].status != Canceled {
      forall j | 0 <= j < n ensures !Repeats(later.grants[j], repeated.subject) {
        EvolvesOne(data.grants, later.grants, j);
        NeverRepeatsLater(data.grants[j], later.grants[j], request.subject, repeated.subject);
      }
      SameSubjectRepeats(created.grants[n], later.grants[n], request, repeated);
      RepeatedCreation(later, n, repeated, otherId, settings, times');
      SameRequestLater(created.grants[n], later.grants[n], request, repeated);
    }
  }

  // --- What a listed grant still allows.

  // Of a finite budget nothing is lost and nothing is spent twice: committed, outstanding and
  // remaining uses add up to it, and a grant that can be used has a use left.
  lemma RemainingAddsUp(data: Data, now: Time, i: nat)
    requires Coherent(data, now) && i < |data.grants|
    ensures var grant := data.grants[i];
            var left := Remaining(grant.maxUses, grant.usage.used, grant.usage.reserved);
            && (left.Some? <==> IsFinite(grant.maxUses))
            && (left.Some? ==> |UsesIn(grant.id, data.uses, {Committed})| + |UsesIn(grant.id, data.uses, {Reserved, Retained})| + left.value
                               == grant.maxUses)
            && (CanUse(grant, now) && left.Some? ==> left.value > 0)
  {
    hide GrantKept, UsesKept, UsesIn, Tally;
    KeptBudget(data.grants[i], data.uses);
    TallyCounts(data.grants[i].id, data.uses);
  }

  lemma KeptBudget(grant: Grant, uses: seq<Use>)
    requires GrantKept(grant, uses)
    ensures grant.maxUses >= 0 && grant.usage == Tally(grant.id, uses)
    ensures IsFinite(grant.maxUses) ==> grant.usage.used + grant.usage.reserved <= grant.maxUses
  {
    hide ValidSubject, ValidFailure, Narrowed, Tally, RevisionTotal;
  }

  // --- Uses.

  // A reservation that succeeded is not charged again under the same identity.
  lemma ReserveIsIdempotent(data: Data, id: string, requestId: string, operation: string, now: Time, later: Time)
    requires Reserve(data, id, requestId, operation, now).error.None?
    ensures var first := Reserve(data, id, requestId, operation, now).data;
            Reserve(first, id, requestId, operation, later) == Mutation(first, None)
  {
    hide Tally, CanUse;
    match UseIndex(data.uses, requestId) {
      case Some(k) =>
        var after := Reserve(data, id, requestId, operation, now).data;
        SameUseIndex(data.uses, after.uses, requestId);
      case None =>
        var after := Reserve(data, id, requestId, operation, now).data;
        UseIndexAppend(data.uses, after.uses[|data.uses|], requestId);
    }
  }

  lemma {:induction false} SameUseIndex(a: seq<Use>, b: seq<Use>, requestId: string)
    requires |a| == |b| && forall k :: 0 <= k < |a| ==> a[k].requestId == b[k].requestId
    ensures UseIndex(a, requestId) == UseIndex(b, requestId)
  {
    if a != [] {
      SameUseIndex(a[1..], b[1..], requestId);
    }
  }

  lemma {:induction false} UseIndexAppend(uses: seq<Use>, use: Use, requestId: string)
    requires UseIndex(uses, requestId).None? && use.requestId == requestId
    ensures UseIndex(uses + [use], requestId) == Some(|uses|)
  {
    if uses != [] {
      assert (uses + [use])[1..] == uses[1..] + [use];
      assert UseIndex(uses[1..], requestId).None?;
      UseIndexAppend(uses[1..], use, requestId);
    }
  }

  // Releasing a new reservation gives the budget back: the grant is as it was before it, but for the
  // two revisions.
  lemma ReleaseUndoesReserve(data: Data, now: Time, id: string, requestId: string, operation: string, later: Time)
    requires Coherent(data, now) && now > 0 && later >= now && ValidUseIdentity(id, requestId, operation)
    requires UseIndex(data.uses, requestId).None? && ReserveNew(data, id, requestId, operation, now).error.None?
    ensures var reserved := ReserveNew(data, id, requestId, operation, now).data;
            var released := Settle(reserved, id, requestId, Released, later);
            && released.error.None? && GrantIndex(data.grants, id).Some?
            && var i := GrantIndex(data.grants, id).value;
               && |released.data.grants| == |data.grants|
               && released.data.grants[i] ==
                  data.grants[i].(reservationRevision := data.grants[i].reservationRevision + 2,
                                  usage := Tally(id, released.data.uses))
               && Tally(id, released.data.uses).used == data.grants[i].usage.used
               && Tally(id, released.data.uses).reserved == data.grants[i].usage.reserved
               && forall j :: 0 <= j < |data.grants| && j != i ==> released.data.grants[j] == data.grants[j]
  {
    hide GrantKept, UseKept, Tally, RevisionTotal, ValidUseIdentity;
    var i := GrantIndex(data.grants, id).value;
    var grant := data.grants[i];
    var reserved := ReserveNew(data, id, requestId, operation, now).data;
    var use := Use(id, requestId, operation, Reserved, 1, now, now, 0);
    UseIndexAppend(data.uses, use, requestId);
    ReservedIndex(data.grants, i, Reserving(grant, reserved.uses), id);
    TallyAppend(id, data.uses, use);
    TallyUpdate(id, reserved.uses, |data.uses|, SettledUse(use, Released, later));
    KeptIsCounted(grant, data.uses);
    KeptAllows(grant, data.uses);
  }

  lemma ReservedIndex(grants: seq<Grant>, i: nat, grant: Grant, id: string)
    requires GrantIndex(grants, id) == Some(i) && grant.id == id
    ensures GrantIndex(grants[i := grant], id) == Some(i)
    decreases i
  {
    if i > 0 {
      assert grants[i := grant][1..] == grants[1..][i - 1 := grant];
      ReservedIndex(grants[1..], i - 1, grant, id);
    }
  }

  lemma KeptAllows(grant: Grant, uses: seq<Use>)
    requires GrantKept(grant, uses) && grant.status == Active
    ensures !Exhausted(grant.maxUses, grant.usage.used)
  {
    hide Formed, Counted, Narrowed;
  }

  // --- Clients.

  // What time alone may do to a grant: it expires and its reservations become stale.
  predicate Aged(a: Grant, b: Grant) {
    && b == a.(status := b.status, decidedAt := b.decidedAt, expiredFrom := b.expiredFrom, revision := b.revision,
               usage := b.usage, reservationRevision := b.reservationRevision)
    && b.usage.used == a.usage.used && b.usage.reserved == a.usage.reserved
    && (b.status == a.status || (b.status == Expired && (a.status == Pending || a.status == Active)))
  }

  predicate OthersAged(client: string, a: seq<Grant>, b: seq<Grant>) {
    |a| <= |b| && forall i :: 0 <= i < |a| && a[i].subject.client != client ==> Aged(a[i], b[i])
  }

  lemma OthersAgedTrans(client: string, a: seq<Grant>, b: seq<Grant>, c: seq<Grant>)
    requires OthersAged(client, a, b) && OthersAged(client, b, c)
    ensures OthersAged(client, a, c)
  {
    forall i | 0 <= i < |a| && a[i].subject.client != client ensures Aged(a[i], c[i]) {
      assert Aged(a[i], b[i]) && Aged(b[i], c[i]);
    }
  }

  lemma PreparedAged(client: string, data: Data, now: Time, times: Times, timeout: nat)
    requires Coherent(data, now) && now <= times.first
    ensures OthersAged(client, data.grants, Prepare(data, times.first, times.second, timeout).grants)
  {
    hide UsesKept, RetainUses, Formed, Narrowed, Budgeted, Tally, RevisionTotal, StaleUses, Aged;
    var expired := ExpireDue(data, times.first);
    ExpireDueKeeps(data, now, times.first);
    ExpiredAged(client, data.grants, times.first);
    forall i | 0 <= i < |expired.grants|
      ensures Aged(expired.grants[i], RetainStale(expired, times.second, timeout).grants[i])
    {
      assert GrantKept(expired.grants[i], expired.uses);
      RetainedAged(expired.grants[i], expired, times.second, timeout);
    }
    OthersAgedTrans(client, data.grants, expired.grants, Prepare(data, times.first, times.second, timeout).grants);
  }

  lemma ExpiredAged(client: string, grants: seq<Grant>, now: Time)
    ensures OthersAged(client, grants, ExpireGrants(grants, now))
  {
  }

  lemma RetainedAged(grant: Grant, data: Data, now: Time, timeout: nat)
    requires GrantKept(grant, data.uses)
    ensures Aged(grant, RetainGrant(grant, data.uses, data.grants, now, timeout))
  {
    hide RetainUses, Formed, Narrowed, Budgeted, Tally, RevisionTotal, StaleUses;
    TallyOfRetained(grant.id, data.uses, data.grants, now, timeout);
  }

  // The commands that a client gives in its own name, and what anyone may read.
  predicate CallOf(client: string, call: Call) {
    match call
    case Change(Create(request, id)) => request.subject.client == client
    case Change(CancelForClient(id, owner)) => owner == client
    case Change(RevokeForClient(id, owner)) => owner == client
    case Change(_) => false
    case DecideBy(_, _, _) => false
    case _ => true
  }

  lemma MutateAged(client: string, data: Data, command: Command, settings: Settings, times: Times)
    requires ValidSettings(settings) && Admissible(command) && CallOf(client, Change(command))
    ensures OthersAged(client, data.grants, Mutate(data, command, settings, times).data.grants)
  {
    hide Normal, FindIdempotent, SameRequest, HasCapacity, ExpireGrants;
    ExpiredAged(client, data.grants, times.third);
  }

  lemma ReconciledAged(client: string, data: Data, before: map<string, Grant>, limit: nat)
    ensures OthersAged(client, data.grants, Reconcile(data, before, limit).grants)
  {
    hide NewEvents, Append, Kinds;
    ReconciledGrants(data, before, limit);
    hide Reconcile;
  }

  lemma StepAged(client: string, data: Data, now: Time, entry: Entry, settings: Settings)
    requires ValidSettings(settings) && AtRest(data, now) && Legal(data, entry, now) && CallOf(client, entry.call)
    ensures OthersAged(client, data.grants, Step(data, entry, settings).grants)
  {
    hide Coherent, EventsKept, Admissible, Fresh, Prepare, Mutate, Reconcile, Snapshots, NewEvents, Aged;
    var times := entry.times;
    var prepared := Prepare(data, times.first, times.second, settings.reservationTimeout);
    var before := Snapshots(data.grants);
    NothingAged(client, data.grants);
    PreparedAged(client, data, now, times, settings.reservationTimeout);
    ReconciledAged(client, prepared, before, settings.maxEvents);
    OthersAgedTrans(client, data.grants, prepared.grants, Reconcile(prepared, before, settings.maxEvents).grants);
    match entry.call {
      case Change(command) =>
        var changed := Mutate(prepared, command, settings, times).data;
        MutateAged(client, prepared, command, settings, times);
        OthersAgedTrans(client, data.grants, prepared.grants, changed.grants);
        ReconciledAged(client, changed, before, settings.maxEvents);
        OthersAgedTrans(client, data.grants, changed.grants, Reconcile(changed, before, settings.maxEvents).grants);
      case Read =>
        var expired := ExpireDue(data, times.first);
        ExpiredAged(client, data.grants, times.first);
        ReconciledAged(client, expired, before, settings.maxEvents);
        OthersAgedTrans(client, data.grants, expired.grants, Reconcile(expired, before, settings.maxEvents).grants);
      case _ =>
    }
  }

  lemma NothingAged(client: string, grants: seq<Grant>)
    ensures OthersAged(client, grants, grants)
  {
  }

  // Over any run of one client's own calls and of reads, time is all that changes the grants of the
  // other clients.
  lemma {:induction false} ClientsAreIsolated(client: string, data: Data, run: seq<Entry>, now: Time, settings: Settings)
    requires ValidSettings(settings) && AtRest(data, now) && LegalRun(data, run, now, settings)
    requires forall i :: 0 <= i < |run| ==> CallOf(client, run[i].call)
    ensures OthersAged(client, data.grants, After(data, run, now, settings).grants)
    decreases |run|
  {
    hide AtRest, Allowed, Step, Fresh, Aged, CallOf, Evolves;
    if run == [] {
      NothingAged(client, data.grants);
    } else {
      var next := Step(data, run[0], settings);
      StepKeeps(data, now, run[0], settings);
      StepAged(client, data, now, run[0], settings);
      ClientsAreIsolated(client, next, run[1..], run[0].times.fourth, settings);
      OthersAgedTrans(client, data.grants, next.grants, After(data, run, now, settings).grants);
    }
  }
}
