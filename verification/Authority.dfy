// The bounds on a grant, from the policy rule through the coordinator and the store to approval.
module Authority {
  import opened Options
  import Rules
  import opened GrantData
  import opened GrantLifecycle
  import opened GrantOperations
  import opened GrantEvolution
  import opened GrantRecords
  import opened GrantRuns

  const DEFAULT_MINUTES := 5
  const DEFAULT_MAX_MINUTES := 60
  const ABSOLUTE_MAX_MINUTES := 7 * 24 * 60
  const DEFAULT_TTL := 5

  // What the registry says about one operation of a rule.
  datatype OperationSpec = OperationSpec(
    grantable: bool,
    grantMode: string,
    grantModes: seq<string>,
    maxGrantMinutes: int,
    maxGrantUses: int,
    disallowUnlimited: bool
  )

  // The grant policy as written in a request rule.
  datatype RawPolicy = RawPolicy(
    mode: string,
    defaultMinutes: int,
    maxMinutes: int,
    requestTTLMinutes: int,
    defaultMaxUses: int,
    defaultUsesSpecified: bool,
    maxUses: int,
    maxUsesSpecified: bool
  )

  function SpecMode(spec: OperationSpec): string { if spec.grantMode == "" then "window" else spec.grantMode }

  predicate AllowsMode(spec: OperationSpec, mode: string) {
    if spec.grantModes == [] then SpecMode(spec) == mode else mode in spec.grantModes
  }

  function MinutesCap(spec: OperationSpec): int {
    if spec.maxGrantMinutes > 0 then spec.maxGrantMinutes else DEFAULT_MAX_MINUTES
  }

  function UsesCap(spec: OperationSpec): int {
    if SpecMode(spec) == "execution" then 1
    else if spec.maxGrantUses > 0 then spec.maxGrantUses
    else MAX_FINITE_USES
  }

  // --- What an accepted policy means.

  predicate Bounded(policy: Rules.GrantPolicy, spec: OperationSpec) {
    && spec.grantable && AllowsMode(spec, policy.mode)
    && policy.maxMinutes <= MinutesCap(spec)
    && if IsUnlimited(policy.maxUses) then !spec.disallowUnlimited && SpecMode(spec) != "execution"
       else policy.maxUses <= UsesCap(spec)
  }

  predicate Consistent(policy: Rules.GrantPolicy) {
    && policy.mode in ["window", "execution"]
    && 1 <= policy.defaultMinutes <= policy.maxMinutes <= ABSOLUTE_MAX_MINUTES
    && 1 <= policy.requestTTLMinutes <= DEFAULT_MAX_MINUTES
    && 1 <= policy.defaultMaxUses <= MAX_FINITE_USES
    && (IsUnlimited(policy.maxUses) || policy.defaultMaxUses <= policy.maxUses <= MAX_FINITE_USES)
    && (policy.mode == "execution" ==> policy.defaultMaxUses == 1 && policy.maxUses == 1)
  }

  predicate Accepted(policy: Rules.GrantPolicy, specs: seq<OperationSpec>) {
    Consistent(policy) && forall i :: 0 <= i < |specs| ==> Bounded(policy, specs[i])
  }

  // What was written is kept; what was left out is filled in.
  predicate Fills(raw: RawPolicy, policy: Rules.GrantPolicy, specs: seq<OperationSpec>) {
    && (raw.mode != "" ==> policy.mode == raw.mode)
    && (raw.mode == "" ==> forall i :: 0 <= i < |specs| ==> policy.mode == SpecMode(specs[i]))
    && policy.defaultMinutes == (if raw.defaultMinutes == 0 then DEFAULT_MINUTES else raw.defaultMinutes)
    && policy.requestTTLMinutes == (if raw.requestTTLMinutes == 0 then DEFAULT_TTL else raw.requestTTLMinutes)
    && (raw.maxMinutes != 0 ==> policy.maxMinutes == raw.maxMinutes)
    && (raw.maxMinutes == 0 ==> policy.maxMinutes == LeastMinutes(specs, DEFAULT_MAX_MINUTES))
    && policy.maxUses == (if raw.maxUsesSpecified then raw.maxUses else DefaultUses(policy.mode, specs))
    && policy.defaultMaxUses == (
         if raw.defaultUsesSpecified then raw.defaultMaxUses
         else if IsUnlimited(policy.maxUses) then DefaultUses(policy.mode, specs)
         else policy.maxUses)
  }

  function Min(a: int, b: int): int { if a <= b then a else b }

  function LeastMinutes(specs: seq<OperationSpec>, start: int): int {
    if specs == [] then start else Min(LeastMinutes(specs[..|specs| - 1], start), MinutesCap(specs[|specs| - 1]))
  }

  function LeastUses(specs: seq<OperationSpec>): int {
    if specs == [] then MAX_FINITE_USES else Min(LeastUses(specs[..|specs| - 1]), UsesCap(specs[|specs| - 1]))
  }

  function DefaultUses(mode: string, specs: seq<OperationSpec>): int {
    if mode == "execution" then SINGLE_USE else LeastUses(specs)
  }

  // The one mode that all operations default to; with no operation there is none.
  function CommonMode(specs: seq<OperationSpec>): Option<string> {
    if specs == [] then Some("")
    else
      match CommonMode(specs[..|specs| - 1])
      case None => None
      case Some(mode) =>
        var next := SpecMode(specs[|specs| - 1]);
        if mode != "" && next != mode then None else Some(next)
  }

  lemma {:induction false} CommonModeIsShared(specs: seq<OperationSpec>, i: nat)
    requires i < |specs| && CommonMode(specs).Some?
    ensures SpecMode(specs[i]) == CommonMode(specs).value
  {
    var last := |specs| - 1;
    NamedMode(specs[last]);
    if i < last {
      CommonModeIsShared(specs[..last], i);
      NamedMode(specs[i]);
    }
  }

  lemma NamedMode(spec: OperationSpec)
    ensures SpecMode(spec) != ""
  {
  }

  lemma {:induction false} NoCommonMode(specs: seq<OperationSpec>) returns (i: nat, j: nat)
    requires CommonMode(specs).None?
    ensures i < j < |specs| && SpecMode(specs[i]) != SpecMode(specs[j])
  {
    hide SpecMode;
    var last := |specs| - 1;
    if CommonMode(specs[..last]).None? {
      i, j := NoCommonMode(specs[..last]);
    } else {
      i, j := 0, last;
      if last > 0 {
        CommonModeIsShared(specs[..last], 0);
      }
    }
  }

  method OperationGrantMode(specs: seq<OperationSpec>) returns (mode: Option<string>)
    ensures mode == CommonMode(specs)
  {
    hide SpecMode;
    var common := "";
    for i := 0 to |specs|
      invariant CommonMode(specs[..i]) == Some(common)
    {
      assert specs[..i + 1][..i] == specs[..i];
      var candidate := SpecMode(specs[i]);
      if common != "" && candidate != common {
        NoModeEver(specs, i + 1);
        return None;
      }
      common := candidate;
    }
    assert specs[..|specs|] == specs;
    return Some(common);
  }

  lemma {:induction false} NoModeEver(specs: seq<OperationSpec>, i: nat)
    requires i <= |specs| && CommonMode(specs[..i]).None?
    ensures CommonMode(specs).None?
    decreases |specs| - i
  {
    if i < |specs| {
      assert specs[..i + 1][..i] == specs[..i];
      NoModeEver(specs, i + 1);
    } else {
      assert specs[..i] == specs;
    }
  }

  method MaximumGrantMinutes(specs: seq<OperationSpec>) returns (maximum: int)
    ensures maximum == LeastMinutes(specs, ABSOLUTE_MAX_MINUTES)
  {
    maximum := ABSOLUTE_MAX_MINUTES;
    for i := 0 to |specs|
      invariant maximum == LeastMinutes(specs[..i], ABSOLUTE_MAX_MINUTES)
    {
      assert specs[..i + 1][..i] == specs[..i];
      maximum := Min(maximum, MinutesCap(specs[i]));
    }
    assert specs[..|specs|] == specs;
  }

  method MaximumFiniteGrantUses(specs: seq<OperationSpec>) returns (maximum: int)
    ensures maximum == LeastUses(specs)
  {
    maximum := MAX_FINITE_USES;
    for i := 0 to |specs|
      invariant maximum == LeastUses(specs[..i])
    {
      assert specs[..i + 1][..i] == specs[..i];
      maximum := Min(maximum, UsesCap(specs[i]));
    }
    assert specs[..|specs|] == specs;
  }

  lemma {:induction false} LeastWithStart(specs: seq<OperationSpec>, a: int, b: int)
    requires b <= a
    ensures Min(b, LeastMinutes(specs, a)) == LeastMinutes(specs, b)
  {
    if specs != [] {
      LeastWithStart(specs[..|specs| - 1], a, b);
    }
  }

  method ValidateOperationBounds(policy: Rules.GrantPolicy, specs: seq<OperationSpec>) returns (valid: bool)
    ensures valid <==> forall i :: 0 <= i < |specs| ==>
                                     && policy.maxMinutes <= MinutesCap(specs[i])
                                     && if IsUnlimited(policy.maxUses) then !specs[i].disallowUnlimited && SpecMode(specs[i]) != "execution"
                                        else policy.maxUses <= UsesCap(specs[i])
  {
    hide SpecMode, MinutesCap, UsesCap;
    for i := 0 to |specs|
      invariant forall j :: 0 <= j < i ==>
                              && policy.maxMinutes <= MinutesCap(specs[j])
                              && if IsUnlimited(policy.maxUses) then !specs[j].disallowUnlimited && SpecMode(specs[j]) != "execution"
                                 else policy.maxUses <= UsesCap(specs[j])
    {
      if policy.maxMinutes > MinutesCap(specs[i]) {
        return false;
      }
      if IsUnlimited(policy.maxUses) {
        if specs[i].disallowUnlimited || SpecMode(specs[i]) == "execution" {
          return false;
        }
        continue;
      }
      if policy.maxUses > UsesCap(specs[i]) {
        return false;
      }
    }
    return true;
  }

  predicate Usable(specs: seq<OperationSpec>, mode: string) {
    forall i :: 0 <= i < |specs| ==> specs[i].grantable && AllowsMode(specs[i], mode)
  }

  // A request rule's policy is accepted exactly when the values it writes, completed by the defaults,
  // are consistent and within the bounds of each of its operations.
  method NormalizeGrantPolicy(raw: RawPolicy, specs: seq<OperationSpec>) returns (policy: Option<Rules.GrantPolicy>)
    requires specs != []
    ensures policy.Some? ==> Fills(raw, policy.value, specs) && Accepted(policy.value, specs)
    ensures policy.None? ==> forall p :: Fills(raw, p, specs) ==> !Accepted(p, specs)
  {
    hide SpecMode, MinutesCap, UsesCap, AllowsMode, LeastMinutes, LeastUses, CommonMode;
    var mode := raw.mode;
    if mode == "" {
      var common := OperationGrantMode(specs);
      if common.None? {
        ghost var i, j := NoCommonMode(specs);
        return None;
      }
      forall i | 0 <= i < |specs| ensures SpecMode(specs[i]) == common.value { CommonModeIsShared(specs, i); }
      mode := common.value;
    }
    var maxMinutes := raw.maxMinutes;
    if maxMinutes == 0 {
      var cap := MaximumGrantMinutes(specs);
      LeastWithStart(specs, ABSOLUTE_MAX_MINUTES, DEFAULT_MAX_MINUTES);
      maxMinutes := Min(DEFAULT_MAX_MINUTES, cap);
    }
    var maximumUses := MaximumFiniteGrantUses(specs);
    if mode == "execution" {
      maximumUses := SINGLE_USE;
    }
    var maxUses := if raw.maxUsesSpecified then raw.maxUses else maximumUses;
    var defaultMaxUses := raw.defaultMaxUses;
    if !raw.defaultUsesSpecified {
      defaultMaxUses := maxUses;
      if IsUnlimited(defaultMaxUses) {
        defaultMaxUses := maximumUses;
      }
    }
    var filled := Rules.GrantPolicy(mode, if raw.defaultMinutes == 0 then DEFAULT_MINUTES else raw.defaultMinutes, maxMinutes,
                                    if raw.requestTTLMinutes == 0 then DEFAULT_TTL else raw.requestTTLMinutes,
                                    defaultMaxUses, maxUses);
    OneFilling(raw, filled, specs);
    var bounded := ValidateOperationBounds(filled, specs);
    AcceptedMeans(filled, specs);
    if !Usable(specs, mode) || !Consistent(filled) || !bounded {
      return None;
    }
    return Some(filled);
  }

  lemma OneFilling(raw: RawPolicy, policy: Rules.GrantPolicy, specs: seq<OperationSpec>)
    requires specs != [] && Fills(raw, policy, specs)
    ensures forall p :: Fills(raw, p, specs) ==> p == policy
  {
    hide SpecMode, LeastMinutes, LeastUses;
    forall p | Fills(raw, p, specs) ensures p == policy {
      assert raw.mode == "" ==> p.mode == SpecMode(specs[0]) == policy.mode;
    }
  }

  lemma AcceptedMeans(policy: Rules.GrantPolicy, specs: seq<OperationSpec>)
    ensures Accepted(policy, specs) <==>
            && Consistent(policy) && Usable(specs, policy.mode)
            && forall i :: 0 <= i < |specs| ==>
                 && policy.maxMinutes <= MinutesCap(specs[i])
                 && if IsUnlimited(policy.maxUses) then !specs[i].disallowUnlimited && SpecMode(specs[i]) != "execution"
                    else policy.maxUses <= UsesCap(specs[i])
  {
    hide SpecMode, MinutesCap, UsesCap, AllowsMode, Consistent;
    if Accepted(policy, specs) {
      forall i | 0 <= i < |specs| ensures Bounded(policy, specs[i]) {}
    }
  }

  // An accepted policy for single executions allows one use, one for a window stays within 60 minutes
  // where an operation sets no bound, and a rule's mode is one that each of its operations allows.
  lemma AcceptedExactly(policy: Rules.GrantPolicy, specs: seq<OperationSpec>)
    ensures Accepted(policy, specs) <==>
            && (policy.mode == "window" || (policy.mode == "execution" && policy.defaultMaxUses == policy.maxUses == 1))
            && 1 <= policy.defaultMinutes <= policy.maxMinutes <= 10_080 && 1 <= policy.requestTTLMinutes <= 60
            && 1 <= policy.defaultMaxUses <= 1_000_000
            && (policy.maxUses == 0 || policy.defaultMaxUses <= policy.maxUses <= 1_000_000)
            && forall i :: 0 <= i < |specs| ==>
                 var spec := specs[i];
                 var single := spec.grantMode == "execution";
                 && spec.grantable
                 && (if spec.grantModes != [] then policy.mode in spec.grantModes
                     else policy.mode == (if spec.grantMode == "" then "window" else spec.grantMode))
                 && policy.maxMinutes <= (if spec.maxGrantMinutes > 0 then spec.maxGrantMinutes else 60)
                 && (policy.maxUses == 0 ==> !spec.disallowUnlimited && !single)
                 && policy.maxUses <= (if single then 1 else if spec.maxGrantUses > 0 then spec.maxGrantUses else 1_000_000)
  {
    if Accepted(policy, specs) {
      forall i | 0 <= i < |specs| ensures Bounded(policy, specs[i]) {}
    }
  }

  // A rule that writes nothing, for an operation that bounds nothing, gets these values.
  lemma DefaultsAreFilled(policy: Rules.GrantPolicy)
    ensures Fills(RawPolicy("", 0, 0, 0, 0, false, 0, false), policy, [OperationSpec(true, "", [], 0, 0, false)])
            <==> policy == Rules.GrantPolicy("window", 5, 60, 5, 1_000_000, 1_000_000)
  {
    var specs := [OperationSpec(true, "", [], 0, 0, false)];
    assert specs[..0] == [];
    assert SpecMode(specs[0]) == "window";
    assert LeastMinutes(specs, 60) == 60 && LeastUses(specs) == 1_000_000;
  }

  // --- The use bound of a registered operation.

  // What the registry accepts as the grant settings of an operation.
  predicate Registered(spec: OperationSpec) {
    if !spec.grantable then
      && spec.grantMode == "" && spec.grantModes == []
      && spec.maxGrantMinutes == 0 && spec.maxGrantUses == 0 && !spec.disallowUnlimited
    else
      && SpecMode(spec) in ["window", "execution"]
      && (forall mode :: mode in spec.grantModes ==> mode in ["window", "execution"])
      && AllowsMode(spec, SpecMode(spec))
      && 0 <= spec.maxGrantMinutes <= ABSOLUTE_MAX_MINUTES && 0 <= spec.maxGrantUses <= MAX_FINITE_USES
      && (SpecMode(spec) == "execution" ==> spec.maxGrantUses <= 1)
  }

  // Every policy that a rule for the operation can be given stays within the operation's use bound.
  ghost predicate UseCapHolds(spec: OperationSpec) {
    forall raw, policy, specs :: Fills(raw, policy, specs) ==>
                                   spec in specs && Accepted(policy, specs) ==> Within(policy.maxUses, UsesCap(spec))
  }

  // That is so if and only if the operation cannot be granted, forbids unlimited use, or is single-use:
  // an unlimited policy passes a finite use bound.
  lemma UseCapHoldsExactly(spec: OperationSpec)
    requires Registered(spec)
    ensures UseCapHolds(spec) <==> !spec.grantable || spec.disallowUnlimited || SpecMode(spec) == "execution"
  {
    if !spec.grantable || spec.disallowUnlimited || SpecMode(spec) == "execution" {
      forall raw, policy, specs | Fills(raw, policy, specs) && spec in specs && Accepted(policy, specs)
        ensures Within(policy.maxUses, UsesCap(spec))
      {
        assert Bounded(policy, spec);
      }
    } else {
      var raw := RawPolicy("window", 1, 1, 1, 1, true, 0, true);
      var policy := Rules.GrantPolicy("window", 1, 1, 1, 1, 0);
      assert Fills(raw, policy, [spec]) && Bounded(policy, spec) && Accepted(policy, [spec]);
      assert !Within(policy.maxUses, UsesCap(spec));
    }
  }

  // --- The coordinator.

  datatype Intent = Intent(mode: string, request: Request)

  predicate WithinMinutes(value: int, minutes: int) { 0 < value <= minutes * MINUTE }

  predicate IntentAllowed(intent: Intent, bounds: Rules.GrantPolicy) {
    && bounds.mode == intent.mode
    && WithinMinutes(intent.request.duration, bounds.maxMinutes)
    && WithinMinutes(intent.request.pendingTimeout, bounds.requestTTLMinutes)
    && intent.request.maxUses >= 0
    && (IsFinite(bounds.maxUses) ==> IsFinite(intent.request.maxUses) && intent.request.maxUses <= bounds.maxUses)
    && (intent.mode == "execution" ==> intent.request.maxUses == 1)
  }

  // The whole of what an accepted policy offers may be asked for, and nothing beyond it: not a longer
  // time or wait, not more uses, not another mode.
  lemma OfferIsExact(policy: Rules.GrantPolicy, specs: seq<OperationSpec>, subject: Subject, duration: int, pendingTimeout: int, maxUses: int)
    requires Accepted(policy, specs)
    ensures IntentAllowed(Intent(policy.mode, Request(subject, policy.maxMinutes * MINUTE, policy.requestTTLMinutes * MINUTE,
                                                      if policy.mode == "execution" then 1 else policy.maxUses, true, false)), policy)
    ensures forall mode :: IntentAllowed(Intent(mode, Request(subject, duration, pendingTimeout, maxUses, true, false)), policy)
                           <==> && mode == policy.mode
                                && 0 < duration <= policy.maxMinutes * 60_000_000_000
                                && 0 < pendingTimeout <= policy.requestTTLMinutes * 60_000_000_000
                                && maxUses >= 0 && Within(maxUses, policy.maxUses) && (mode == "execution" ==> maxUses == 1)
  {
  }

  // --- The store.

  // The grant that a successful creation appended carries the requested bounds.
  lemma CreatedGrant(data: Data, request: Request, id: Option<string>, settings: Settings, times: Times)
    requires ValidSettings(settings) && Normal(request)
    requires |Update(data, Create(request, id), settings, times).data.grants| > |data.grants|
    ensures var grant := Update(data, Create(request, id), settings, times).data.grants[|data.grants|];
            grant.requestedDuration == request.duration && grant.requestedMaxUses == request.maxUses
  {
    hide Prepare, Normal, Kinds, Snapshots, FindIdempotent, HasCapacity, SameRequest, NewEvents, ExpireGrant;
    PrepareKeepsLength(data, times.first, times.second, settings.reservationTimeout);
    var prepared := Prepare(data, times.first, times.second, settings.reservationTimeout);
    ReconciledGrants(CreateGrant(prepared, request, id, settings, times).data, Snapshots(data.grants), settings.maxEvents);
    hide Append;
  }

  // Through every later state of the store, a grant that the coordinator let through stays within the
  // rule that allowed it and within the minutes of each of the rule's operations, and a grant for one
  // execution never has more than one committed use.
  lemma AuthorityOnlyNarrows(policy: Rules.GrantPolicy, specs: seq<OperationSpec>, intent: Intent, normal: Request,
                             data: Data, now: Time, id: Option<string>, times: Times, run: seq<Entry>, settings: Settings)
    requires Accepted(policy, specs) && IntentAllowed(intent, policy)
    requires ValidSettings(settings) && Normalize(intent.request, settings) == Some(normal)
    requires AtRest(data, now) && Legal(data, Entry(Change(Create(normal, id)), times, true), now)
    requires |Update(data, Create(normal, id), settings, times).data.grants| > |data.grants|
    requires LegalRun(Update(data, Create(normal, id), settings, times).data, run, times.fourth, settings)
    ensures var created := Update(data, Create(normal, id), settings, times).data;
            var later := After(created, run, times.fourth, settings);
            && |data.grants| < |later.grants|
            && var grant := later.grants[|data.grants|];
               && grant.duration <= policy.maxMinutes * MINUTE
               && (forall i :: 0 <= i < |specs| ==> grant.duration <= MinutesCap(specs[i]) * MINUTE)
               && Within(grant.maxUses, policy.maxUses)
               && (intent.mode == "execution" ==> |UsesIn(grant.id, later.uses, {Committed})| <= 1)
  {
    hide LegalRun, After, AtRest, Update, Legal, Evolves, UsesIn, MinutesCap, AllowsMode;
    var entry := Entry(Change(Create(normal, id)), times, true);
    NormalizedBounds(intent.request, settings);
    CreatedGrant(data, normal, id, settings, times);
    var created := Update(data, Create(normal, id), settings, times).data;
    StepKeeps(data, now, entry, settings);
    StoredChange(data, entry, settings);
    RunKeeps(created, run, times.fourth, settings);
    var later := After(created, run, times.fourth, settings);
    LaterGrant(created, later, LastTime(run, times.fourth), |data.grants|);
    forall i | 0 <= i < |specs| ensures policy.maxMinutes <= MinutesCap(specs[i]) {
      assert Bounded(policy, specs[i]);
    }
  }

  lemma NormalizedBounds(request: Request, settings: Settings)
    requires ValidSettings(settings) && Normalize(request, settings).Some? && request.duration > 0
    ensures var normal := Normalize(request, settings).value;
            && Normal(normal) && normal.duration == request.duration
            && (normal.maxUses == request.maxUses || (IsUnlimited(request.maxUses) && normal.maxUses == SINGLE_USE))
  {
    NormalizeExactly(request, settings);
    hide ValidSubject;
  }

  lemma LaterGrant(created: Data, later: Data, now: Time, i: nat)
    requires Evolves(created.grants, later.grants) && AtRest(later, now) && i < |created.grants|
    ensures i < |later.grants|
    ensures var grant := later.grants[i];
            && grant.requestedDuration == created.grants[i].requestedDuration
            && grant.requestedMaxUses == created.grants[i].requestedMaxUses
            && grant.duration <= grant.requestedDuration && Within(grant.maxUses, grant.requestedMaxUses)
            && (IsFinite(grant.maxUses) ==> |UsesIn(grant.id, later.uses, {Committed})| <= grant.maxUses)
  {
    hide UsesKept, RecordsKept, Formed, UsesIn, Tally, RevisionTotal;
    assert GrantEvolves(created.grants[i], later.grants[i]);
    assert GrantKept(later.grants[i], later.uses);
    TallyCounts(later.grants[i].id, later.uses);
  }
}
