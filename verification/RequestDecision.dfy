// What the ambiguity check buys: the grant policy of a request decision does not
// depend on the order of the rules (authorization/policy/decide.go:46-97).
module RequestDecision {
  import opened Options
  import opened Text
  import Glob
  import opened Rules
  import opened Ambiguity

  // Two request rules of an accepted policy match one valid request and carry
  // different grant policies.
  ghost predicate Conflict(registry: Registry, rules: seq<Rule>, request: Request, use: CredentialUse, i: nat, j: nat) {
    && NormalizedRules(rules, registry) && Unambiguous(rules, registry) && ValidRequest(registry, request)
    && i < j < |rules| && rules[i].effect.Ask? && rules[j].effect.Ask?
    && RuleMatches(registry, rules[i], request, use) && RuleMatches(registry, rules[j], request, use)
    && rules[i].grantPolicy != rules[j].grantPolicy
  }

  lemma NoConflict(registry: Registry, rules: seq<Rule>, request: Request, use: CredentialUse, i: nat, j: nat)
    requires LiteralNames(registry.operations.Keys)
    ensures !Conflict(registry, rules, request, use, i, j)
  {
    if Conflict(registry, rules, request, use, i, j) {
      OverlapIsSound(rules[i], rules[j], registry, request, use);
    }
  }

  // The check rules every conflict out exactly when no operation name that a rule can
  // list, read as a glob, matches another one: otherwise some registry with these names has one.
  lemma ConflictFreeExactly(names: set<string>)
    requires forall name :: name in names ==> !Blank(name)
    ensures LiteralNames(names) <==>
              forall registry: Registry, rules, request, use, i, j :: registry.operations.Keys == names ==>
                !Conflict(registry, rules, request, use, i, j)
  {
    if LiteralNames(names) {
      forall registry: Registry, rules, request, use, i, j | registry.operations.Keys == names
        ensures !Conflict(registry, rules, request, use, i, j)
      {
        NoConflict(registry, rules, request, use, i, j);
      }
    } else {
      var a, b :| a in names && b in names && Trimmed(a) && ValidGlob(a) && Glob.Matches(a, b) && a != b;
      var registry := GlobRegistry(names, a);
      assert registry.operations.Keys == names;
      GlobNameConflicts(names, a, b);
    }
  }

  // A registry whose operation `a` alone takes the attribute "x".
  function GlobRegistry(names: set<string>, a: string): Registry {
    Registry(map name | name in names :: OperationSpec(["t"], if name == a then ["x"] else [], true, []),
             map["t" := map[]], map["x" := GlobMode], map[])
  }

  function GlobRule(id: string, a: string, value: string, minutes: int): Rule {
    Rule(id, Ask, ["*"], [a], [Target("t", map[])], map["x" := [value]], [Managed],
         Some(GrantPolicy("window", 5, minutes, 5, 1, 1)))
  }

  // Two rules for `a` that differ on "x" do not overlap, and both match `b`.
  lemma GlobNameConflicts(names: set<string>, a: string, b: string)
    requires a in names && b in names && Trimmed(a) && ValidGlob(a) && Glob.Matches(a, b) && a != b && !Blank(b)
    ensures Conflict(GlobRegistry(names, a), [GlobRule("r", a, "1", 30), GlobRule("s", a, "2", 60)],
                     Request("c", b, Target("t", map[]), map[]), Managed, 0, 1)
  {
    hide Normalized, RuleMatches, RequestRulesMayOverlap;
    var left, right := GlobRule("r", a, "1", 30), GlobRule("s", a, "2", 60);
    GlobRuleNormalized(names, a, left);
    GlobRuleNormalized(names, a, right);
    GlobRuleMatches(names, a, b, left);
    GlobRuleMatches(names, a, b, right);
    GlobRulesDisjoint(names, a);
    assert "r"[0] != "s"[0];
  }

  lemma GlobRulesDisjoint(names: set<string>, a: string)
    requires a in names
    ensures !RequestRulesMayOverlap(GlobRule("r", a, "1", 30), GlobRule("s", a, "2", 60), GlobRegistry(names, a))
  {
    var registry := GlobRegistry(names, a);
    var left, right := map["x" := ["1"]], map["x" := ["2"]];
    DigitsDiffer();
    assert OperationOf(registry, a).attrs[0] == "x" && "x" in OperationOf(registry, a).attrs;
    assert !MatchValuesMayOverlap(left["x"], right["x"], GlobMode);
    assert !AttrsMayOverlap(left, right, OperationOf(registry, a).attrs, registry);
  }

  lemma DigitsDiffer()
    ensures !PatternsMayOverlap("1", "2") && ValidGlob("1") && ValidGlob("2") && ValidGlob("*") && Glob.Matches("*", "c")
  {
    assert "1"[1..] == "" && "2"[1..] == "" && "*"[1..] == "";
    assert ['1'] + "" == "1" && ['2'] + "" == "2" && [Glob.AnyRun] + [] == [Glob.AnyRun];
    assert LiteralValue("1") == Some("1") && LiteralValue("2") == Some("2");
    assert Glob.Parse("*") == Some([Glob.AnyRun]);
    assert Glob.TokensMatch([Glob.AnyRun], "");
    assert "c"[1..] == "";
  }

  lemma GlobRuleNormalized(names: set<string>, a: string, rule: Rule)
    requires a in names && Trimmed(a) && ValidGlob(a) && Trimmed(rule.id)
    requires rule == GlobRule(rule.id, a, "1", 30) || rule == GlobRule(rule.id, a, "2", 60)
    ensures Normalized(rule, GlobRegistry(names, a))
  {
    DigitsDiffer();
    hide ValidGlob, PatternsMayOverlap, Glob.Matches, Glob.Parse;
    var registry := GlobRegistry(names, a);
    assert Listed(["*"]) && Listed([a]) && Listed(["1"]) && Listed(["2"]);
    assert NormalizedUses(rule) && NormalizedTarget(rule.targets[0], registry);
    hide Listed, Trimmed, NormalizedUses, NormalizedTarget, NormalizedOperation;
    GlobOperation(names, a, rule);
    assert forall name :: name in rule.attrs ==> name == "x";
  }

  lemma GlobOperation(names: set<string>, a: string, rule: Rule)
    requires a in names && ValidGlob(a)
    requires rule == GlobRule(rule.id, a, "1", 30) || rule == GlobRule(rule.id, a, "2", 60)
    ensures NormalizedOperation(a, rule, GlobRegistry(names, a))
  {
    hide ValidGlob;
    var spec := GlobRegistry(names, a).operations[a];
    assert spec.attrs == ["x"] && "x" in ["x"];
    assert spec.targetKinds == ["t"] && "t" in ["t"];
  }

  lemma GlobRuleMatches(names: set<string>, a: string, b: string, rule: Rule)
    requires a in names && b in names && a != b && Glob.Matches(a, b) && !Blank(b)
    requires rule == GlobRule(rule.id, a, "1", 30) || rule == GlobRule(rule.id, a, "2", 60)
    ensures RuleMatches(GlobRegistry(names, a), rule, Request("c", b, Target("t", map[]), map[]), Managed)
  {
    DigitsDiffer();
    var registry := GlobRegistry(names, a);
    assert !IsSpace("c"[0]);
    assert ["*"][0] == "*" && [a][0] == a;
    assert PatternsMatch(rule.clients, "c") && PatternsMatch(rule.operations, b);
    assert rule.targets[0].kind == "t" && TargetFieldsMatch(FieldsOf(registry, "t"), Ask, rule.targets[0].fields, map[]);
    assert OperationOf(registry, b).attrs == [];
  }

  // ----- the decision

  lemma {:induction false} MatchingIdsExist(rules: seq<Rule>, registry: Registry, request: Request, effect: Effect, use: CredentialUse)
    ensures MatchingRuleIds(rules, registry, request, effect, use) != [] <==>
              exists rule :: rule in rules && rule.effect == effect && RuleMatches(registry, rule, request, use)
  {
    if rules != [] {
      MatchingIdsExist(rules[1..], registry, request, effect, use);
      assert rules == [rules[0]] + rules[1..];
    }
  }

  // The policy of the decision is that of a matching request rule.
  lemma {:induction false} FirstPolicyIsOfAMatch(rules: seq<Rule>, registry: Registry, request: Request, use: CredentialUse) returns (k: nat)
    requires NormalizedRules(rules, registry)
    requires MatchingRuleIds(rules, registry, request, Ask, use) != []
    ensures k < |rules| && rules[k].effect.Ask? && RuleMatches(registry, rules[k], request, use)
    ensures MatchingRuleIds(rules, registry, request, Ask, use)[0] == rules[k].id
    ensures FirstGrantPolicy(rules, rules[k].id) == rules[k].grantPolicy
    ensures forall j :: 0 <= j < k ==> !(rules[j].effect.Ask? && RuleMatches(registry, rules[j], request, use))
  {
    hide RuleMatches, NormalizedTarget, NormalizedOperation, NormalizedUses, Listed, ValidMatchValues, ValidGlob;
    if rules[0].effect.Ask? && RuleMatches(registry, rules[0], request, use) {
      k := 0;
    } else {
      var rest := rules[1..];
      assert MatchingRuleIds(rules, registry, request, Ask, use) == MatchingRuleIds(rest, registry, request, Ask, use);
      var k' := FirstPolicyIsOfAMatch(rest, registry, request, use);
      k := k' + 1;
      assert rules[0].id != rules[k].id;
    }
  }

  lemma SameRules(rules: seq<Rule>, rules': seq<Rule>)
    requires multiset(rules) == multiset(rules')
    ensures forall rule :: rule in rules <==> rule in rules'
  {
    assert forall rule :: rule in rules <==> rule in multiset(rules);
    assert forall rule :: rule in rules' <==> rule in multiset(rules');
  }

  // Reordering the rules of an accepted policy changes neither the effect of a
  // static decision nor the grant policy it hands out.
  lemma OrderDoesNotMatter(rules: seq<Rule>, rules': seq<Rule>, registry: Registry, request: Request, grantRequest: bool, use: CredentialUse)
    requires multiset(rules) == multiset(rules')
    requires NormalizedRules(rules, registry) && NormalizedRules(rules', registry) && Unambiguous(rules, registry)
    requires LiteralNames(registry.operations.Keys) && ValidRequest(registry, request)
    ensures var d, d' := StaticRuleDecision(rules, registry, request, grantRequest, use),
                         StaticRuleDecision(rules', registry, request, grantRequest, use);
            d.effect == d'.effect && d.allowed == d'.allowed && d.grantPolicy == d'.grantPolicy
  {
    hide RuleMatches, Normalized, Unambiguous, ValidRequest, FirstGrantPolicy, MatchingRuleIds;
    SameRules(rules, rules');
    MatchingIdsExist(rules, registry, request, Allow, use);
    MatchingIdsExist(rules', registry, request, Allow, use);
    MatchingIdsExist(rules, registry, request, Ask, use);
    MatchingIdsExist(rules', registry, request, Ask, use);
    if MatchingRuleIds(rules, registry, request, Ask, use) != [] {
      var k := FirstPolicyIsOfAMatch(rules, registry, request, use);
      var k' := FirstPolicyIsOfAMatch(rules', registry, request, use);
      assert rules'[k'] in rules;
      var m :| 0 <= m < |rules| && rules[m] == rules'[k'];
      NoConflict(registry, rules, request, use, k, m);
      NoConflict(registry, rules, request, use, m, k);
    }
  }
}
