// The loops that match rules against a classified request (authorization/policy/match.go and
// decide.go), proved against the predicates of Rules.
module RuleMatching {
  import opened Options
  import opened Rules
  import PathPatterns

  method ValuesMatch(mode: MatchMode, patterns: seq<string>, value: string) returns (matched: bool)
    ensures matched <==> ValueMatches(mode, patterns, value)
  {
    hide PathPatterns.PathMatch, PathPatterns.RecursivePathMatch, PatternsMatch, OutsidePrefixes, IntegerMaximumMatches;
    match Defaulted(mode) {
      case PathGlob => matched := PathPatterns.PathPatternsMatch(patterns, value);
      case RecursivePathGlob => matched := PathPatterns.RecursivePathPatternsMatch(patterns, value);
      case PathOutsidePrefix => matched := OutsidePrefixes(patterns, value);
      case IntegerMaximum => matched := IntegerMaximumMatches(patterns, value);
      case _ => matched := PatternsMatch(patterns, value);
    }
  }

  method AnyValue(mode: MatchMode, patterns: seq<string>, values: seq<string>) returns (matched: bool)
    ensures matched <==> AnyValueMatches(mode, patterns, values)
  {
    hide PathPatterns.RecursivePathMatch;
    if Defaulted(mode).RecursivePathGlob? {
      matched := PathPatterns.RecursivePathValuesMatch(patterns, values, false);
      return;
    }
    hide ValueMatches;
    for i := 0 to |values|
      invariant forall j :: 0 <= j < i ==> !ValueMatches(mode, patterns, values[j])
    {
      matched := ValuesMatch(mode, patterns, values[i]);
      if matched {
        return;
      }
    }
    return false;
  }

  method AllValues(mode: MatchMode, patterns: seq<string>, values: seq<string>) returns (matched: bool)
    ensures matched <==> AllValuesMatch(mode, patterns, values)
  {
    hide PathPatterns.RecursivePathMatch, AnyValueMatches;
    if |values| == 0 {
      return false;
    }
    if Defaulted(mode).RecursivePathGlob? {
      matched := PathPatterns.RecursivePathValuesMatch(patterns, values, true);
      return;
    }
    if Defaulted(mode).AnyGlob? {
      matched := AnyValue(mode, patterns, values);
      return;
    }
    hide ValueMatches;
    for i := 0 to |values|
      invariant forall j :: 0 <= j < i ==> ValueMatches(mode, patterns, values[j])
    {
      matched := ValuesMatch(mode, patterns, values[i]);
      if !matched {
        return;
      }
    }
    return true;
  }

  method EffectValues(effect: Effect, mode: MatchMode, patterns: seq<string>, values: seq<string>) returns (matched: bool)
    ensures matched <==> EffectValuesMatch(effect, mode, patterns, values)
  {
    hide AnyValueMatches, AllValuesMatch;
    if effect.Deny? {
      matched := AnyValue(mode, patterns, values);
    } else {
      matched := AllValues(mode, patterns, values);
    }
  }

  // The fields are visited in any order.
  method TargetFields(fields: map<string, FieldSpec>, effect: Effect, patterns: Values, values: Values) returns (matched: bool)
    ensures matched <==> TargetFieldsMatch(fields, effect, patterns, values)
  {
    hide EffectValuesMatch;
    var remaining := patterns.Keys;
    while remaining != {}
      invariant remaining <= patterns.Keys
      invariant forall name :: name in patterns && name !in remaining ==>
                                 EffectValuesMatch(effect, ModeOf(fields, name), patterns[name], ValuesOf(values, name))
      decreases |remaining|
    {
      var name :| name in remaining;
      matched := EffectValues(effect, ModeOf(fields, name), patterns[name], ValuesOf(values, name));
      if !matched {
        return;
      }
      remaining := remaining - {name};
    }
    return true;
  }

  method Targets(registry: Registry, effect: Effect, matchers: seq<Target>, target: Target) returns (matched: bool)
    ensures matched <==> TargetsMatch(registry, effect, matchers, target)
  {
    hide TargetFieldsMatch;
    for i := 0 to |matchers|
      invariant forall j :: 0 <= j < i ==>
                              !(matchers[j].kind == target.kind
                                && TargetFieldsMatch(FieldsOf(registry, target.kind), effect, matchers[j].fields, target.fields))
    {
      if matchers[i].kind != target.kind {
        continue;
      }
      matched := TargetFields(FieldsOf(registry, target.kind), effect, matchers[i].fields, target.fields);
      if matched {
        return;
      }
    }
    return false;
  }

  // An attribute that does not concern the operation is passed over.
  method Attributes(registry: Registry, effect: Effect, patterns: Values, operation: string, attrs: Values) returns (matched: bool)
    ensures matched <==> AttrsMatch(registry, effect, patterns, operation, attrs)
  {
    hide EffectValuesMatch;
    var remaining := patterns.Keys;
    while remaining != {}
      invariant remaining <= patterns.Keys
      invariant forall name :: name in patterns && name !in remaining && name in OperationOf(registry, operation).attrs ==>
                                 name in attrs && EffectValuesMatch(effect, AttrModeOf(registry, name), patterns[name], attrs[name])
      decreases |remaining|
    {
      var name :| name in remaining;
      if name in OperationOf(registry, operation).attrs {
        if name !in attrs {
          return false;
        }
        matched := EffectValues(effect, AttrModeOf(registry, name), patterns[name], attrs[name]);
        if !matched {
          return;
        }
      }
      remaining := remaining - {name};
    }
    return true;
  }

  method Matches(registry: Registry, rule: Rule, request: Request, use: CredentialUse) returns (matched: bool)
    ensures matched <==> RuleMatches(registry, rule, request, use)
  {
    hide PatternsMatch, TargetsMatch, AttrsMatch;
    matched := RuleCredentialUseMatches(rule, use) && PatternsMatch(rule.clients, request.client)
               && PatternsMatch(rule.operations, request.operation);
    if matched {
      matched := Targets(registry, rule.effect, rule.targets, request.target);
    }
    if matched {
      matched := Attributes(registry, rule.effect, rule.attrs, request.operation, request.attrs);
    }
  }

  lemma {:induction false} MatchingJoin(rules: seq<Rule>, rule: Rule, registry: Registry, request: Request, effect: Effect, use: CredentialUse)
    ensures MatchingRuleIds(rules + [rule], registry, request, effect, use)
            == MatchingRuleIds(rules, registry, request, effect, use)
               + if rule.effect == effect && RuleMatches(registry, rule, request, use) then [rule.id] else []
  {
    hide RuleMatches;
    if rules == [] {
      assert [rule][1..] == [] && [] + [rule] == [rule];
    } else {
      assert (rules + [rule])[1..] == rules[1..] + [rule];
      MatchingJoin(rules[1..], rule, registry, request, effect, use);
    }
  }

  method MatchingIds(rules: seq<Rule>, registry: Registry, request: Request, effect: Effect, use: CredentialUse) returns (ids: seq<string>)
    ensures ids == MatchingRuleIds(rules, registry, request, effect, use)
  {
    hide RuleMatches;
    assert rules[..0] == [];
    ids := [];
    for i := 0 to |rules|
      invariant ids == MatchingRuleIds(rules[..i], registry, request, effect, use)
    {
      MatchingJoin(rules[..i], rules[i], registry, request, effect, use);
      assert rules[..i + 1] == rules[..i] + [rules[i]];
      if rules[i].effect != effect {
        continue;
      }
      var matched := Matches(registry, rules[i], request, use);
      if matched {
        ids := ids + [rules[i].id];
      }
    }
    assert rules[..|rules|] == rules;
  }

  method Decide(rules: seq<Rule>, registry: Registry, request: Request, grantRequest: bool, use: CredentialUse) returns (decision: Decision)
    ensures decision == StaticRuleDecision(rules, registry, request, grantRequest, use)
  {
    hide MatchingRuleIds, FirstGrantPolicy;
    var allows := MatchingIds(rules, registry, request, Allow, use);
    if |allows| > 0 {
      return Decision(Allow, true, allows, None);
    }
    var asks := MatchingIds(rules, registry, request, Ask, use);
    if |asks| == 0 {
      return Decision(NoMatch, false, [], None);
    }
    if grantRequest {
      return Decision(Ask, false, asks, FirstGrantPolicy(rules, asks[0]));
    }
    return Decision(Deny, false, asks, None);
  }
}
