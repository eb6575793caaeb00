// What the matching of values guarantees, whatever the patterns are: a deny rule cannot be evaded by
// adding values, an allow rule needs every value, and the numeric and prefix modes mean what they say.
module RuleLaws {
  import opened Options
  import opened Text
  import opened Rules

  // --- Adding values.

  ghost predicate FewerValues(a: seq<string>, b: seq<string>) { forall x :: x in a ==> x in b }

  // The second request has all the values of the first one, and maybe more.
  ghost predicate Extends(a: Values, b: Values) {
    forall name :: name in a ==> name in b && FewerValues(a[name], b[name])
  }

  ghost predicate ExtendsRequest(a: Request, b: Request) {
    && b.client == a.client && b.operation == a.operation && b.target.kind == a.target.kind
    && Extends(a.target.fields, b.target.fields) && Extends(a.attrs, b.attrs)
  }

  lemma AnyGrows(mode: MatchMode, patterns: seq<string>, a: seq<string>, b: seq<string>)
    requires FewerValues(a, b) && AnyValueMatches(mode, patterns, a)
    ensures AnyValueMatches(mode, patterns, b)
  {
    hide ValueMatches;
    var i :| 0 <= i < |a| && ValueMatches(mode, patterns, a[i]);
    assert a[i] in b;
    var j :| 0 <= j < |b| && b[j] == a[i];
  }

  lemma DeniedFieldsGrow(fields: map<string, FieldSpec>, patterns: Values, a: Values, b: Values)
    requires Extends(a, b) && TargetFieldsMatch(fields, Deny, patterns, a)
    ensures TargetFieldsMatch(fields, Deny, patterns, b)
  {
    forall name | name in patterns ensures EffectValuesMatch(Deny, ModeOf(fields, name), patterns[name], ValuesOf(b, name)) {
      assert EffectValuesMatch(Deny, ModeOf(fields, name), patterns[name], ValuesOf(a, name));
      AnyGrows(ModeOf(fields, name), patterns[name], ValuesOf(a, name), ValuesOf(b, name));
    }
  }

  // A deny rule that matches a request still matches it with more values.
  lemma DenyCannotBeEvaded(registry: Registry, rule: Rule, a: Request, b: Request, use: CredentialUse)
    requires rule.effect.Deny? && ExtendsRequest(a, b) && RuleMatches(registry, rule, a, use)
    ensures RuleMatches(registry, rule, b, use)
  {
    hide TargetFieldsMatch, PatternsMatch, EffectValuesMatch, RuleCredentialUseMatches;
    var fields := FieldsOf(registry, a.target.kind);
    var i :| 0 <= i < |rule.targets| && rule.targets[i].kind == a.target.kind
             && TargetFieldsMatch(fields, Deny, rule.targets[i].fields, a.target.fields);
    DeniedFieldsGrow(fields, rule.targets[i].fields, a.target.fields, b.target.fields);
    DeniedAttrsGrow(registry, rule.attrs, a.operation, a.attrs, b.attrs);
  }

  lemma DeniedAttrsGrow(registry: Registry, patterns: Values, operation: string, a: Values, b: Values)
    requires Extends(a, b) && AttrsMatch(registry, Deny, patterns, operation, a)
    ensures AttrsMatch(registry, Deny, patterns, operation, b)
  {
    forall name | name in patterns && name in OperationOf(registry, operation).attrs
      ensures name in b && EffectValuesMatch(Deny, AttrModeOf(registry, name), patterns[name], b[name])
    {
      assert name in a && EffectValuesMatch(Deny, AttrModeOf(registry, name), patterns[name], a[name]);
      AnyGrows(AttrModeOf(registry, name), patterns[name], a[name], b[name]);
    }
  }

  // An allow or request rule that matches a list of values matches every part of it, unless one value is
  // enough for the mode.
  lemma AllowNeedsEveryValue(effect: Effect, mode: MatchMode, patterns: seq<string>, a: seq<string>, b: seq<string>)
    requires !effect.Deny? && !Defaulted(mode).AnyGlob? && a != [] && FewerValues(a, b)
    requires EffectValuesMatch(effect, mode, patterns, b)
    ensures EffectValuesMatch(effect, mode, patterns, a)
  {
    hide ValueMatches;
    forall i | 0 <= i < |a| ensures ValueMatches(mode, patterns, a[i]) {
      assert a[i] in b;
      var j :| 0 <= j < |b| && b[j] == a[i];
    }
  }

  // A single value is matched by a deny rule exactly if an allow rule with the same patterns matches it.
  lemma OneValueIsAllOrAny(effect: Effect, mode: MatchMode, patterns: seq<string>, value: string)
    ensures EffectValuesMatch(effect, mode, patterns, [value]) <==> ValueMatches(mode, patterns, value)
    ensures !effect.Deny? ==> !EffectValuesMatch(effect, mode, patterns, [])
    ensures !EffectValuesMatch(Deny, mode, patterns, [])
  {
    hide ValueMatches;
    assert [value][0] == value;
  }

  // --- Credential uses.

  // Of the rules that normalization leaves, a deny rule covers every use and any other one those it lists.
  lemma UseMatchesExactly(rule: Rule, use: CredentialUse)
    requires NormalizedUses(rule)
    ensures RuleCredentialUseMatches(rule, use) <==> rule.effect.Deny? || use in rule.credentialUses
  {
  }

  // --- Numbers.

  function Decimal(n: nat): string {
    (if n < 10 then "" else Decimal(n / 10)) + [('0' as int + n % 10) as char]
  }

  lemma {:induction false} DecimalParses(n: nat)
    ensures ParseDigits(Decimal(n)) == Some(n) && Decimal(n) != ""
    ensures '0' <= Decimal(n)[0] <= '9'
  {
    if n >= 10 {
      DecimalParses(n / 10);
      assert Decimal(n)[..|Decimal(n)| - 1] == Decimal(n / 10);
    }
  }

  const MAX_INT64 := 0x7FFF_FFFF_FFFF_FFFF

  lemma DecimalReads(n: nat)
    ensures ParseInt(Decimal(n)) == if n <= MAX_INT64 then Some(n) else None
    ensures ParseInt("-" + Decimal(n)) == if n <= MAX_INT64 + 1 then Some(0 - n as int) else None
  {
    DecimalParses(n);
    assert ("-" + Decimal(n))[1..] == Decimal(n);
  }

  // A natural number matches a ceiling exactly if it is not above it; a negative one never does.
  lemma MaximumMeans(n: nat, ceiling: nat)
    ensures IntegerMaximumMatches([Decimal(ceiling)], Decimal(n)) <==> n <= ceiling <= MAX_INT64
    ensures n > 0 ==> !IntegerMaximumMatches([Decimal(ceiling)], "-" + Decimal(n))
  {
    DecimalReads(n);
    DecimalReads(ceiling);
    assert [Decimal(ceiling)][0] == Decimal(ceiling);
    hide Decimal, ParseInt;
  }

  // With several ceilings the most generous one counts.
  lemma MaximumOfSeveral(ceilings: seq<string>, more: seq<string>, value: string)
    ensures IntegerMaximumMatches(ceilings + more, value)
            <==> IntegerMaximumMatches(ceilings, value) || IntegerMaximumMatches(more, value)
  {
    hide ParseInt;
    var all := ceilings + more;
    if IntegerMaximumMatches(more, value) {
      var i :| 0 <= i < |more| && ParseInt(more[i]).Some? && ParseInt(value).value <= ParseInt(more[i]).value;
      assert all[|ceilings| + i] == more[i];
    }
    if IntegerMaximumMatches(ceilings, value) {
      var i :| 0 <= i < |ceilings| && ParseInt(ceilings[i]).Some? && ParseInt(value).value <= ParseInt(ceilings[i]).value;
      assert all[i] == ceilings[i];
    }
  }

  // --- Prefixes.

  // A path is outside a prefix exactly if its segments do not start with those of the prefix.
  lemma OutsideMeans(prefix: string, value: string)
    ensures OutsidePrefixes([prefix], value) <==> !(Split(TrimSlash(prefix)) <= Split(value))
  {
    assert [prefix][0] == prefix;
    SegmentPrefix(TrimSlash(prefix), value);
  }

  lemma {:induction false} SegmentPrefix(a: string, b: string)
    ensures Split(a) <= Split(b) <==> a == b || a + "/" <= b
    decreases |a|
  {
    hide Split;
    SplitFirst(a);
    SplitFirst(b);
    var first := Split(a)[0];
    if |first| == |a| {
      assert first == a;
      if a + "/" <= b {
        assert b == a + "/" + b[|a| + 1..];
        SplitAt(a, b[|a| + 1..]);
      }
      if Split(a) <= Split(b) {
        assert Split(b)[0] == a;
        assert b == a || a + "/" <= b;
      }
    } else {
      var x := a[|first| + 1..];
      assert a == first + "/" + x;
      if Split(a) <= Split(b) {
        assert Split(b)[0] == first && |Split(b)| > 1;
        var y := b[|first| + 1..];
        assert b == first + "/" + y;
        RestIsPrefix(first, Split(x), Split(y));
        SegmentPrefix(x, y);
        assert a == b || a + "/" <= b;
      }
      if a == b || a + "/" <= b {
        var y := b[|first| + 1..];
        assert b == first + "/" + y && (x == y || x + "/" <= y);
        SplitAt(first, y);
        SegmentPrefix(x, y);
        RestIsPrefix(first, Split(x), Split(y));
      }
    }
  }

  lemma RestIsPrefix(first: string, a: seq<string>, b: seq<string>)
    ensures [first] + a <= [first] + b <==> a <= b
  {
    if [first] + a <= [first] + b {
      assert a == ([first] + a)[1..] && b == ([first] + b)[1..];
    }
  }

  lemma OutsideAll(prefixes: seq<string>, value: string)
    ensures OutsidePrefixes(prefixes, value) <==> forall i :: 0 <= i < |prefixes| ==> OutsidePrefixes([prefixes[i]], value)
  {
    assert forall i :: 0 <= i < |prefixes| ==> [prefixes[i]][0] == prefixes[i];
    hide TrimSlash;
  }
}
