// The whole decision on a classified request: deny rules first, then active grants for managed
// credentials, then the static rules (authorization/policy/decide.go and match.go).
module ManagedDecision {
  import opened Options
  import opened Text
  import opened Sorting
  import opened Rules
  import RuleMatching
  import Ambiguity
  import RequestDecision

  datatype ActiveGrant = ActiveGrant(
    id: string, client: string, operation: string, target: Target, attrs: Values,
    expiresAt: nat, usesLeft: nat, unlimited: bool)

  datatype Outcome = Outcome(effect: Effect, allowed: bool, grantId: Option<string>, ruleIds: seq<string>, grantPolicy: Option<GrantPolicy>)

  function GrantAttrOf(registry: Registry, name: string): GrantAttrSpec {
    if name in registry.grantAttrs then registry.grantAttrs[name] else GrantAttrSpec(Unset, false)
  }

  // --- What it means for a grant to cover a request.

  ghost predicate Covers(spec: GrantAttrSpec, allowed: seq<string>, values: seq<string>) {
    if spec.match_.Unset? then SameElements(allowed, values) else AllValuesMatch(spec.match_, allowed, values)
  }

  ghost predicate AttrsCovered(registry: Registry, constraints: Values, attrs: Values) {
    && (forall name :: name in constraints ==> name in attrs && Covers(GrantAttrOf(registry, name), constraints[name], attrs[name]))
    && (forall name :: name in attrs && name !in constraints ==> GrantAttrOf(registry, name).mayOmit)
  }

  ghost predicate TargetCovered(registry: Registry, constraint: Target, target: Target) {
    && constraint.kind == target.kind && target.kind in registry.targets
    && var fields := registry.targets[target.kind];
       && (forall name :: name in fields && fields[name].required ==> ValuesOf(constraint.fields, name) != [])
       && (forall name :: name in constraint.fields ==>
             name in fields && AllValuesMatch(fields[name].match_, constraint.fields[name], ValuesOf(target.fields, name)))
  }

  ghost predicate GrantCovers(registry: Registry, grant: ActiveGrant, request: Request) {
    && grant.client == request.client && grant.operation == request.operation
    && TargetCovered(registry, grant.target, request.target)
    && AttrsCovered(registry, grant.attrs, request.attrs)
    && (grant.unlimited || grant.usesLeft > 0)
  }

  ghost predicate Usable(registry: Registry, grant: ActiveGrant, request: Request, now: nat) {
    grant.expiresAt != 0 && now < grant.expiresAt && GrantCovers(registry, grant, request)
  }

  // --- The loops.

  // More constraints than attributes cannot all be met; the program asks that first.
  lemma CoveredAreFewer(registry: Registry, constraints: Values, attrs: Values)
    ensures AttrsCovered(registry, constraints, attrs) ==> |constraints| <= |attrs|
  {
    hide Covers;
    if AttrsCovered(registry, constraints, attrs) {
      assert constraints.Keys <= attrs.Keys;
      SmallerKeys(constraints.Keys, attrs.Keys);
      assert |constraints.Keys| == |constraints| && |attrs.Keys| == |attrs|;
    }
  }

  lemma {:induction false} SmallerKeys(a: set<string>, b: set<string>)
    requires a <= b
    ensures |a| <= |b|
  {
    if a != {} {
      var x :| x in a;
      SmallerKeys(a - {x}, b - {x});
    }
  }

  method GrantAttrsMatch(registry: Registry, constraints: Values, attrs: Values) returns (matched: bool)
    ensures matched <==> AttrsCovered(registry, constraints, attrs)
  {
    hide AllValuesMatch, Canonical, SameElements;
    CoveredAreFewer(registry, constraints, attrs);
    if |constraints| > |attrs| {
      return false;
    }
    var remaining := constraints.Keys;
    while remaining != {}
      invariant remaining <= constraints.Keys
      invariant forall name :: name in constraints && name !in remaining ==>
                                 name in attrs && Covers(GrantAttrOf(registry, name), constraints[name], attrs[name])
      decreases |remaining|
    {
      var name :| name in remaining;
      if name !in attrs {
        return false;
      }
      var spec := GrantAttrOf(registry, name);
      if spec.match_.Unset? {
        CanonicalAgrees(constraints[name], attrs[name]);
        matched := Canonical(constraints[name]) == Canonical(attrs[name]);
      } else {
        matched := RuleMatching.AllValues(spec.match_, constraints[name], attrs[name]);
      }
      if !matched {
        return;
      }
      remaining := remaining - {name};
    }
    remaining := attrs.Keys;
    while remaining != {}
      invariant remaining <= attrs.Keys
      invariant forall name :: name in attrs && name !in remaining && name !in constraints ==> GrantAttrOf(registry, name).mayOmit
      decreases |remaining|
    {
      var name :| name in remaining;
      if name !in constraints && !GrantAttrOf(registry, name).mayOmit {
        return false;
      }
      remaining := remaining - {name};
    }
    return true;
  }

  method RequiredFieldsPresent(fields: map<string, FieldSpec>, values: Values) returns (present: bool)
    ensures present <==> forall name :: name in fields && fields[name].required ==> ValuesOf(values, name) != []
  {
    var remaining := fields.Keys;
    while remaining != {}
      invariant remaining <= fields.Keys
      invariant forall name :: name in fields && name !in remaining && fields[name].required ==> ValuesOf(values, name) != []
      decreases |remaining|
    {
      var name :| name in remaining;
      if fields[name].required && |ValuesOf(values, name)| == 0 {
        return false;
      }
      remaining := remaining - {name};
    }
    return true;
  }

  method GrantTargetMatches(registry: Registry, constraint: Target, target: Target) returns (matched: bool)
    ensures matched <==> TargetCovered(registry, constraint, target)
  {
    hide AllValuesMatch;
    if constraint.kind != target.kind || target.kind !in registry.targets {
      return false;
    }
    var fields := registry.targets[target.kind];
    matched := RequiredFieldsPresent(fields, constraint.fields);
    if !matched {
      return;
    }
    var remaining := constraint.fields.Keys;
    while remaining != {}
      invariant remaining <= constraint.fields.Keys
      invariant forall name :: name in constraint.fields && name !in remaining ==>
                                 name in fields && AllValuesMatch(fields[name].match_, constraint.fields[name], ValuesOf(target.fields, name))
      decreases |remaining|
    {
      var name :| name in remaining;
      if name !in fields {
        return false;
      }
      matched := RuleMatching.AllValues(fields[name].match_, constraint.fields[name], ValuesOf(target.fields, name));
      if !matched {
        return;
      }
      remaining := remaining - {name};
    }
    return true;
  }

  method GrantMatches(registry: Registry, grant: ActiveGrant, request: Request) returns (matched: bool)
    ensures matched <==> GrantCovers(registry, grant, request)
  {
    hide TargetCovered, AttrsCovered;
    if grant.client != request.client || grant.operation != request.operation {
      return false;
    }
    matched := GrantTargetMatches(registry, grant.target, request.target);
    if !matched {
      return;
    }
    matched := GrantAttrsMatch(registry, grant.attrs, request.attrs);
    if !matched {
      return;
    }
    return grant.unlimited || grant.usesLeft > 0;
  }

  // The first usable grant, if any.
  ghost predicate First(grants: seq<ActiveGrant>, registry: Registry, request: Request, now: nat, found: Option<nat>) {
    match found
    case None => forall i :: 0 <= i < |grants| ==> !Usable(registry, grants[i], request, now)
    case Some(k) => k < |grants| && Usable(registry, grants[k], request, now) && forall i :: 0 <= i < k ==> !Usable(registry, grants[i], request, now)
  }

  method FirstMatchingGrant(grants: seq<ActiveGrant>, registry: Registry, request: Request, now: nat) returns (found: Option<nat>)
    ensures First(grants, registry, request, now, found)
  {
    hide GrantCovers;
    for i := 0 to |grants|
      invariant forall j :: 0 <= j < i ==> !Usable(registry, grants[j], request, now)
    {
      if grants[i].expiresAt == 0 || now >= grants[i].expiresAt {
        continue;
      }
      var matched := GrantMatches(registry, grants[i], request);
      if matched {
        return Some(i);
      }
    }
    return None;
  }

  // What a decision must be, given the first usable grant.
  ghost function Decided(rules: seq<Rule>, registry: Registry, request: Request, grants: seq<ActiveGrant>, found: Option<nat>,
                         grantRequest: bool, use: CredentialUse): Outcome
    requires found.Some? ==> found.value < |grants|
  {
    var denies := MatchingRuleIds(rules, registry, request, Deny, use);
    if denies != [] then Outcome(Deny, false, None, denies, None)
    else if use.Managed? && found.Some? then Outcome(Allow, true, Some(grants[found.value].id), [], None)
    else
      var decision := StaticRuleDecision(rules, registry, request, grantRequest, use);
      Outcome(decision.effect, decision.allowed, None, decision.ruleIds, decision.grantPolicy)
  }

  method DecideValidRequest(rules: seq<Rule>, registry: Registry, request: Request, grants: seq<ActiveGrant>, now: nat,
                            grantRequest: bool, use: CredentialUse) returns (outcome: Outcome)
    ensures exists found: Option<nat> :: First(grants, registry, request, now, found) && (found.Some? ==> found.value < |grants|)
                            && outcome == Decided(rules, registry, request, grants, found, grantRequest, use)
  {
    hide MatchingRuleIds, StaticRuleDecision, Usable;
    var grant := FirstMatchingGrant(grants, registry, request, now);
    var denies := RuleMatching.MatchingIds(rules, registry, request, Deny, use);
    if |denies| > 0 {
      return Outcome(Deny, false, None, denies, None);
    }
    if use.Managed? && grant.Some? {
      return Outcome(Allow, true, Some(grants[grant.value].id), [], None);
    }
    var decision := RuleMatching.Decide(rules, registry, request, grantRequest, use);
    outcome := Outcome(decision.effect, decision.allowed, None, decision.ruleIds, decision.grantPolicy);
  }

  // --- What the decision guarantees.

  ghost predicate SomeRuleMatches(rules: seq<Rule>, registry: Registry, request: Request, effect: Effect, use: CredentialUse) {
    exists i :: 0 <= i < |rules| && rules[i].effect == effect && RuleMatches(registry, rules[i], request, use)
  }

  lemma {:induction false} IdsMean(rules: seq<Rule>, registry: Registry, request: Request, effect: Effect, use: CredentialUse)
    ensures MatchingRuleIds(rules, registry, request, effect, use) != [] <==> SomeRuleMatches(rules, registry, request, effect, use)
  {
    RequestDecision.MatchingIdsExist(rules, registry, request, effect, use);
  }

  // A request is allowed exactly if no deny rule matches it, and an allow rule matches it or, for
  // managed credentials, some active grant covers it.
  lemma AllowedExactly(rules: seq<Rule>, registry: Registry, request: Request, grants: seq<ActiveGrant>, now: nat,
                       found: Option<nat>, grantRequest: bool, use: CredentialUse)
    requires First(grants, registry, request, now, found) && (found.Some? ==> found.value < |grants|)
    ensures Decided(rules, registry, request, grants, found, grantRequest, use).allowed
            <==> && !SomeRuleMatches(rules, registry, request, Deny, use)
                 && (SomeRuleMatches(rules, registry, request, Allow, use)
                     || (use.Managed? && exists k :: 0 <= k < |grants| && Usable(registry, grants[k], request, now)))
  {
    hide MatchingRuleIds, SomeRuleMatches, Usable, FirstGrantPolicy;
    IdsMean(rules, registry, request, Deny, use);
    IdsMean(rules, registry, request, Allow, use);
  }

  // Which request is denied, asked about, allowed or unmatched, and what it is told: a grant that covers
  // it only if no deny rule matches, and a grant policy exactly when it may ask for a grant.
  lemma OutcomeExactly(rules: seq<Rule>, registry: Registry, request: Request, grants: seq<ActiveGrant>, now: nat,
                       found: Option<nat>, grantRequest: bool, use: CredentialUse)
    requires First(grants, registry, request, now, found) && (found.Some? ==> found.value < |grants|)
    ensures var outcome := Decided(rules, registry, request, grants, found, grantRequest, use);
            var denied := SomeRuleMatches(rules, registry, request, Deny, use);
            var covered := use.Managed? && exists k :: 0 <= k < |grants| && Usable(registry, grants[k], request, now);
            var allowed, asked := SomeRuleMatches(rules, registry, request, Allow, use), SomeRuleMatches(rules, registry, request, Ask, use);
            && (outcome.effect == Deny <==> denied || (!covered && !allowed && asked && !grantRequest))
            && (outcome.effect == Ask <==> !denied && !covered && !allowed && asked && grantRequest)
            && (outcome.effect == NoMatch <==> !denied && !covered && !allowed && !asked)
            && (outcome.effect == Allow <==> !denied && (covered || allowed))
            && (outcome.allowed <==> outcome.effect == Allow)
            && (outcome.grantId.Some? <==> !denied && covered)
            && (outcome.grantId.Some? ==> exists k :: 0 <= k < |grants| && Usable(registry, grants[k], request, now) && outcome.grantId.value == grants[k].id)
            && outcome.ruleIds == (if denied then MatchingRuleIds(rules, registry, request, Deny, use)
                                   else if covered then []
                                   else MatchingRuleIds(rules, registry, request, if allowed then Allow else Ask, use))
            && (outcome.grantPolicy.Some? ==> outcome.effect == Ask)
            && (NormalizedRules(rules, registry) && outcome.effect == Ask ==>
                  exists k :: FirstMatch(rules, registry, request, Ask, use, k)
                              && outcome.grantPolicy.Some? && outcome.grantPolicy == rules[k].grantPolicy)
  {
    hide MatchingRuleIds, SomeRuleMatches, Usable, NormalizedRules, FirstGrantPolicy, FirstMatch;
    IdsMean(rules, registry, request, Deny, use);
    IdsMean(rules, registry, request, Allow, use);
    IdsMean(rules, registry, request, Ask, use);
    if NormalizedRules(rules, registry) && MatchingRuleIds(rules, registry, request, Ask, use) != [] {
      var k := FirstPolicy(rules, registry, request, use);
    }
  }

  ghost predicate FirstMatch(rules: seq<Rule>, registry: Registry, request: Request, effect: Effect, use: CredentialUse, k: int) {
    && 0 <= k < |rules| && rules[k].effect == effect && RuleMatches(registry, rules[k], request, use)
    && forall j :: 0 <= j < k ==> !(rules[j].effect == effect && RuleMatches(registry, rules[j], request, use))
  }

  lemma FirstPolicy(rules: seq<Rule>, registry: Registry, request: Request, use: CredentialUse) returns (k: nat)
    requires NormalizedRules(rules, registry) && MatchingRuleIds(rules, registry, request, Ask, use) != []
    ensures FirstMatch(rules, registry, request, Ask, use, k) && rules[k].grantPolicy.Some?
    ensures FirstGrantPolicy(rules, MatchingRuleIds(rules, registry, request, Ask, use)[0]) == rules[k].grantPolicy
  {
    hide RuleMatches, FirstGrantPolicy, NormalizedTarget, NormalizedOperation, NormalizedUses, Listed, ValidGlob, ValidMatchValues;
    k := RequestDecision.FirstPolicyIsOfAMatch(rules, registry, request, use);
  }

  // The decision names exactly the rules of one effect that match.
  lemma {:induction false} NamedRules(rules: seq<Rule>, registry: Registry, request: Request, effect: Effect, use: CredentialUse, id: string)
    ensures id in MatchingRuleIds(rules, registry, request, effect, use)
            <==> exists i :: 0 <= i < |rules| && rules[i].id == id && rules[i].effect == effect && RuleMatches(registry, rules[i], request, use)
  {
    hide RuleMatches;
    if rules != [] {
      NamedRules(rules[1..], registry, request, effect, use, id);
      assert forall i :: 0 < i < |rules| ==> rules[i] == rules[1..][i - 1];
    }
  }

  // Neither the order of accepted rules nor the order of the grants changes what is decided, except
  // which of several grants is named.
  lemma DecisionIgnoresOrder(rules: seq<Rule>, rules': seq<Rule>, registry: Registry, request: Request,
                             grants: seq<ActiveGrant>, grants': seq<ActiveGrant>, now: nat,
                             found: Option<nat>, found': Option<nat>, grantRequest: bool, use: CredentialUse)
    requires multiset(rules) == multiset(rules') && multiset(grants) == multiset(grants')
    requires NormalizedRules(rules, registry) && NormalizedRules(rules', registry) && Ambiguity.Unambiguous(rules, registry)
    requires Ambiguity.LiteralNames(registry.operations.Keys) && ValidRequest(registry, request)
    requires First(grants, registry, request, now, found) && (found.Some? ==> found.value < |grants|)
    requires First(grants', registry, request, now, found') && (found'.Some? ==> found'.value < |grants'|)
    ensures var a, b := Decided(rules, registry, request, grants, found, grantRequest, use),
                        Decided(rules', registry, request, grants', found', grantRequest, use);
            a.effect == b.effect && a.allowed == b.allowed && a.grantPolicy == b.grantPolicy && (a.grantId.Some? <==> b.grantId.Some?)
  {
    hide MatchingRuleIds, StaticRuleDecision, SomeRuleMatches, Usable, NormalizedRules, Ambiguity.Unambiguous, ValidRequest;
    RequestDecision.OrderDoesNotMatter(rules, rules', registry, request, grantRequest, use);
    SameDenials(rules, rules', registry, request, use);
    SameGrants(grants, grants', registry, request, now, found, found');
    SameGrants(grants', grants, registry, request, now, found', found);
  }

  lemma SameDenials(rules: seq<Rule>, rules': seq<Rule>, registry: Registry, request: Request, use: CredentialUse)
    requires multiset(rules) == multiset(rules')
    ensures MatchingRuleIds(rules, registry, request, Deny, use) != [] <==> MatchingRuleIds(rules', registry, request, Deny, use) != []
  {
    hide MatchingRuleIds, RuleMatches;
    IdsMean(rules, registry, request, Deny, use);
    IdsMean(rules', registry, request, Deny, use);
    MatchesMove(rules, rules', registry, request, Deny, use);
    MatchesMove(rules', rules, registry, request, Deny, use);
  }

  lemma MatchesMove(rules: seq<Rule>, rules': seq<Rule>, registry: Registry, request: Request, effect: Effect, use: CredentialUse)
    requires multiset(rules) == multiset(rules')
    ensures SomeRuleMatches(rules, registry, request, effect, use) ==> SomeRuleMatches(rules', registry, request, effect, use)
  {
    hide RuleMatches;
    if SomeRuleMatches(rules, registry, request, effect, use) {
      var i :| 0 <= i < |rules| && rules[i].effect == effect && RuleMatches(registry, rules[i], request, use);
      assert rules[i] in multiset(rules');
      var j :| 0 <= j < |rules'| && rules'[j] == rules[i];
    }
  }

  lemma SameGrants(grants: seq<ActiveGrant>, grants': seq<ActiveGrant>, registry: Registry, request: Request, now: nat,
                   found: Option<nat>, found': Option<nat>)
    requires multiset(grants) == multiset(grants')
    requires First(grants, registry, request, now, found) && First(grants', registry, request, now, found')
    ensures found.Some? ==> found'.Some?
  {
    hide Usable;
    if found.Some? {
      assert grants[found.value] in multiset(grants');
      var j :| 0 <= j < |grants'| && grants'[j] == grants[found.value];
    }
  }
}
