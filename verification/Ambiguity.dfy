// The ambiguity check on request rules (authorization/policy/ambiguity.go) and
// what it makes safe: taking the first matching request rule.
module Ambiguity {
  import opened Options
  import opened Text
  import Glob
  import Segments
  import RecursiveGlob
  import PathPatterns
  import opened Rules

  const SPECIAL := "*?["

  // ----- literals and literal prefixes of globs

  // literalGlobValue
  function LiteralValue(pattern: string): Option<string> {
    if pattern == "" then Some("")
    else if pattern[0] == '\\' then
      if |pattern| == 1 then None else PrependChar(pattern[1], LiteralValue(pattern[2..]))
    else if pattern[0] in SPECIAL then None
    else PrependChar(pattern[0], LiteralValue(pattern[1..]))
  }

  function PrependChar(c: char, tail: Option<string>): Option<string> {
    match tail
    case None => None
    case Some(s) => Some([c] + s)
  }

  function PrependAll(head: string, tail: Option<string>): Option<string> {
    match tail
    case None => None
    case Some(s) => Some(head + s)
  }

  lemma PrependAllStep(head: string, c: char, tail: Option<string>)
    ensures PrependAll("", tail) == tail
    ensures PrependAll(head, PrependChar(c, tail)) == PrependAll(head + [c], tail)
  {
    if tail.Some? {
      assert "" + tail.value == tail.value;
      assert head + ([c] + tail.value) == (head + [c]) + tail.value;
    }
  }

  // globLiteralPrefix
  function LiteralPrefix(pattern: string): string {
    if pattern == "" then ""
    else if pattern[0] == '\\' then
      if |pattern| == 1 then "" else [pattern[1]] + LiteralPrefix(pattern[2..])
    else if pattern[0] in SPECIAL then ""
    else [pattern[0]] + LiteralPrefix(pattern[1..])
  }

  // The pattern that is left when `escaped` says its backslash was just read.
  function Unread(escaped: bool, rest: string): string {
    if escaped then "\\" + rest else rest
  }

  // Reading one more character of the pattern.
  lemma LiteralStep(pattern: string, k: nat, escaped: bool, value: string)
    requires k < |pattern|
    ensures var c, left, rest := pattern[k], LiteralValue(Unread(escaped, pattern[k..])), pattern[k + 1..];
            if escaped then PrependAll(value, left) == PrependAll(value + [c], LiteralValue(Unread(false, rest)))
            else if c == '\\' then left == LiteralValue(Unread(true, rest))
            else if c in SPECIAL then left == None
            else PrependAll(value, left) == PrependAll(value + [c], LiteralValue(Unread(false, rest)))
  {
    var c, rest := pattern[k], pattern[k + 1..];
    assert pattern[k..] == [c] + rest;
    PrependAllStep(value, c, LiteralValue(rest));
    if escaped {
      assert ("\\" + pattern[k..])[2..] == rest;
    }
  }

  lemma LiteralEnd(escaped: bool, value: string)
    ensures PrependAll(value, LiteralValue(Unread(escaped, ""))) == if escaped then None else Some(value)
  {
    assert value + "" == value;
  }

  method LiteralGlobValue(pattern: string) returns (literal: Option<string>)
    ensures literal == LiteralValue(pattern)
  {
    var value := "";
    var escaped := false;
    PrependAllStep("", 'a', LiteralValue(pattern));
    assert pattern[0..] == pattern;
    hide LiteralValue;
    for k := 0 to |pattern|
      invariant PrependAll(value, LiteralValue(Unread(escaped, pattern[k..]))) == LiteralValue(pattern)
    {
      var c := pattern[k];
      LiteralStep(pattern, k, escaped, value);
      if escaped {
        value := value + [c];
        escaped := false;
        continue;
      }
      if c == '\\' {
        escaped := true;
        continue;
      }
      if c in SPECIAL {
        return None;
      }
      value := value + [c];
    }
    assert pattern[|pattern|..] == "";
    LiteralEnd(escaped, value);
    if escaped {
      return None;
    }
    return Some(value);
  }

  method GlobLiteralPrefix(pattern: string) returns (prefix: string)
    ensures prefix == LiteralPrefix(pattern)
  {
    prefix := "";
    var escaped := false;
    assert pattern[0..] == pattern;
    for k := 0 to |pattern|
      invariant prefix + LiteralPrefix(Unread(escaped, pattern[k..])) == LiteralPrefix(pattern)
    {
      var c := pattern[k];
      PrefixStep(prefix, escaped, c, pattern[k..], pattern[k + 1..]);
      if escaped {
        prefix := prefix + [c];
        escaped := false;
        continue;
      }
      if c == '\\' {
        escaped := true;
        continue;
      }
      if c in SPECIAL {
        return;
      }
      prefix := prefix + [c];
    }
  }

  lemma PrefixStep(prefix: string, escaped: bool, c: char, left: string, rest: string)
    requires left != "" && left[0] == c && left[1..] == rest
    ensures (escaped || (c != '\\' && c !in SPECIAL)) ==>
              prefix + LiteralPrefix(Unread(escaped, left)) == (prefix + [c]) + LiteralPrefix(Unread(false, rest))
    ensures !escaped && c == '\\' ==> LiteralPrefix(Unread(false, left)) == LiteralPrefix(Unread(true, rest))
    ensures !escaped && c in SPECIAL ==> prefix + LiteralPrefix(Unread(false, left)) == prefix
  {
    var unread := Unread(escaped, left);
    assert left == [c] + rest;
    assert escaped ==> unread[2..] == rest && unread[1] == c;
  }

  // A literal pattern matches its literal and nothing else.
  lemma {:induction false} LiteralMatchesItself(pattern: string, value: string)
    requires LiteralValue(pattern).Some?
    ensures Glob.Matches(pattern, value) <==> value == LiteralValue(pattern).value
  {
    if pattern != "" {
      var n := if pattern[0] == '\\' then 2 else 1;
      var rest := pattern[n..];
      var tail := LiteralValue(rest).value;
      LiteralMatchesItself(rest, if value == "" then "" else value[1..]);
      LiteralParses(rest);
      var tokens := Glob.Parse(pattern).value;
      assert tokens == [Glob.Exactly(pattern[n - 1])] + Glob.Parse(rest).value;
      assert tokens[1..] == Glob.Parse(rest).value;
      if value != "" {
        assert value == [value[0]] + value[1..];
      }
    }
  }

  lemma {:induction false} LiteralParses(pattern: string)
    requires LiteralValue(pattern).Some?
    ensures Glob.Parse(pattern).Some?
  {
    if pattern != "" {
      LiteralParses(pattern[if pattern[0] == '\\' then 2 else 1..]);
    }
  }

  // Whatever a pattern matches starts with its literal prefix.
  lemma {:induction false} MatchesStartWithPrefix(pattern: string, value: string)
    requires Glob.Matches(pattern, value)
    ensures LiteralPrefix(pattern) <= value
  {
    if pattern != "" && pattern[0] !in SPECIAL {
      var n := if pattern[0] == '\\' then 2 else 1;
      var rest := pattern[n..];
      var tokens := Glob.Parse(pattern).value;
      assert tokens[0] == Glob.Exactly(pattern[n - 1]) && tokens[1..] == Glob.Parse(rest).value;
      MatchesStartWithPrefix(rest, value[1..]);
    }
  }

  // ----- overlap of single patterns

  predicate PatternsMayOverlap(left: string, right: string) {
    if left == right then true
    else
      match (LiteralValue(left), LiteralValue(right))
      case (Some(l), Some(r)) => l == r
      case (Some(l), None) => Glob.Matches(right, l)
      case (None, Some(r)) => Glob.Matches(left, r)
      case (None, None) =>
        var l, r := LiteralPrefix(left), LiteralPrefix(right);
        l == "" || r == "" || r <= l || l <= r
  }

  ghost predicate PathValuesMayOverlap(left: string, right: string) {
    if left == right then true
    else
      match (LiteralValue(left), LiteralValue(right))
      case (Some(l), Some(r)) => l == r
      case (Some(l), None) => PathPatterns.PathMatch([right], l)
      case (None, Some(r)) => PathPatterns.PathMatch([left], r)
      case (None, None) => true
  }

  ghost predicate RecursivePathValuesMayOverlap(left: string, right: string) {
    if left == right then true
    else
      match (LiteralValue(left), LiteralValue(right))
      case (Some(l), Some(r)) => l == r
      case (Some(l), None) => PathPatterns.RecursivePathMatch([right], l)
      case (None, Some(r)) => PathPatterns.RecursivePathMatch([left], r)
      case (None, None) => true
  }

  lemma GlobOverlapIsSound(left: string, right: string, value: string)
    requires Glob.Matches(left, value) && Glob.Matches(right, value)
    ensures PatternsMayOverlap(left, right)
  {
    if LiteralValue(left).Some? {
      LiteralMatchesItself(left, value);
    }
    if LiteralValue(right).Some? {
      LiteralMatchesItself(right, value);
    }
    MatchesStartWithPrefix(left, value);
    MatchesStartWithPrefix(right, value);
    PrefixesNest(LiteralPrefix(left), LiteralPrefix(right), value);
  }

  lemma PrefixesNest(a: string, b: string, s: string)
    requires a <= s && b <= s
    ensures a <= b || b <= a
  {
    assert a == s[..|a|] && b == s[..|b|];
  }

  // A first segment other than `**` matches the first segment, and a single one matches a single one.
  lemma FirstSegmentMatches(patterns: seq<string>, values: seq<string>)
    requires patterns != [] && values != [] && patterns[0] != Segments.DOUBLE_STAR && Segments.Match(patterns, values)
    ensures Glob.Matches(patterns[0], values[0]) && (|patterns| == 1 ==> |values| == 1)
  {
    hide Glob.Matches;
  }

  // The first segment of a literal pattern is the first segment of the value.
  lemma LiteralHead(pattern: string, value: string)
    requires LiteralValue(pattern).Some? && Segments.Match(Split(pattern), Split(value))
    ensures var p, v := Split(pattern)[0], Split(value)[0];
            && |p| <= |pattern| && LiteralValue(pattern[|p|..]).Some?
            && LiteralValue(pattern).value == v + LiteralValue(pattern[|p|..]).value
            && (|p| == |pattern| ==> |Split(value)| == 1)
  {
    SplitFirst(pattern);
    var p, v := Split(pattern)[0], Split(value)[0];
    NoDoubleStarFirst(pattern);
    FirstSegmentMatches(Split(pattern), Split(value));
    hide Segments.Match, Glob.Matches, LiteralValue, Split;
    assert p + pattern[|p|..] == pattern;
    LiteralParts(pattern, p, v);
  }

  lemma LiteralParts(pattern: string, p: string, v: string)
    requires |p| <= |pattern| && pattern[..|p|] == p && LiteralValue(pattern).Some? && Glob.Matches(p, v)
    ensures LiteralValue(pattern[|p|..]).Some? && LiteralValue(pattern).value == v + LiteralValue(pattern[|p|..]).value
  {
    hide LiteralValue;
    assert p + pattern[|p|..] == pattern;
    MatchingParses(p, v);
    LiteralOfFirst(p, pattern[|p|..]);
    LiteralMatchesItself(p, v);
  }

  lemma MatchingParses(p: string, v: string)
    requires Glob.Matches(p, v)
    ensures Glob.Parse(p).Some?
  {
  }

  lemma SplitRest(s: string) returns (rest: string)
    requires |Split(s)| > 1
    ensures var first := Split(s)[0];
            && |first| < |s| && rest == s[|first| + 1..] && s[|first|..] == "/" + rest
            && s == first + ("/" + rest) && Split(s) == [first] + Split(rest)
  {
    SplitFirst(s);
    hide Split;
    rest := s[|Split(s)[0]| + 1..];
  }

  lemma SplitWhole(s: string)
    requires |Split(s)| == 1
    ensures Split(s)[0] == s
  {
    SplitFirst(s);
    assert |Split(s)[0]| < |s| ==> |Split(s[|Split(s)[0]| + 1..])| >= 1;
  }

  lemma LiteralOfNothing()
    ensures LiteralValue("") == Some("")
  {
  }

  // A literal path glob matches only its literal: a literal whose escapes reach
  // across a slash matches nothing at all.
  lemma {:induction false} LiteralPathMatch(pattern: string, value: string)
    requires LiteralValue(pattern).Some? && Segments.Match(Split(pattern), Split(value))
    ensures value == LiteralValue(pattern).value
    decreases |pattern|
  {
    hide Segments.Match, LiteralValue, Split;
    LiteralHead(pattern, value);
    NoDoubleStarFirst(pattern);
    var p, v := Split(pattern)[0], Split(value)[0];
    if |Split(pattern)| == 1 {
      SplitWhole(pattern);
      LiteralOfNothing();
      assert pattern[|p|..] == "";
      SplitWhole(value);
      assert value == v + "";
    } else {
      var y := SplitRest(pattern);
      SlashIsLiteral(pattern[|p|..], y);
      LiteralRestMatches(Split(pattern), Split(value), y);
      var w := SplitRest(value);
      assert Split(value)[1..] == Split(w);
      LiteralPathMatch(y, w);
    }
  }

  lemma LiteralRestMatches(patterns: seq<string>, values: seq<string>, y: string)
    requires patterns != [] && patterns == [patterns[0]] + Split(y) && patterns[0] != Segments.DOUBLE_STAR
    requires Segments.Match(patterns, values) && LiteralValue(y).Some?
    ensures |values| > 1 && Segments.Match(Split(y), values[1..])
  {
    assert patterns[1..] == Split(y);
    NoDoubleStarFirst(y);
  }

  lemma SlashIsLiteral(s: string, y: string)
    requires s != "" && s[0] == '/' && s[1..] == y && LiteralValue(s).Some?
    ensures LiteralValue(y).Some? && LiteralValue(s).value == "/" + LiteralValue(y).value
  {
  }

  lemma NoDoubleStarFirst(pattern: string)
    requires LiteralValue(pattern).Some?
    ensures Split(pattern)[0] != Segments.DOUBLE_STAR
  {
    SplitFirst(pattern);
    var p := Split(pattern)[0];
    assert p != "" ==> pattern[0] == pattern[..|p|][0];
  }

  // A well-formed beginning of a literal pattern is a literal itself.
  lemma {:induction false} LiteralOfFirst(a: string, b: string)
    requires Glob.Parse(a).Some? && LiteralValue(a + b).Some?
    ensures LiteralValue(a).Some? && LiteralValue(b).Some?
    ensures LiteralValue(a + b).value == LiteralValue(a).value + LiteralValue(b).value
  {
    if a == "" {
      assert a + b == b;
    } else {
      var n := if a[0] == '\\' then 2 else 1;
      assert (a + b)[0] == a[0];
      assert (a + b)[n..] == a[n..] + b;
      LiteralOfFirst(a[n..], b);
    }
  }

  lemma PathOverlapIsSound(left: string, right: string, value: string)
    requires PathPatterns.PathMatch([left], value) && PathPatterns.PathMatch([right], value)
    ensures PathValuesMayOverlap(left, right)
  {
    OnePathPattern(left, value);
    OnePathPattern(right, value);
    if LiteralValue(left).Some? {
      LiteralPathMatch(left, value);
    }
    if LiteralValue(right).Some? {
      LiteralPathMatch(right, value);
    }
  }

  lemma OnePathPattern(pattern: string, value: string)
    requires PathPatterns.PathMatch([pattern], value)
    ensures Segments.Match(Split(pattern), Split(value))
  {
    var i :| 0 <= i < |[pattern]| && Segments.Denotes(Split([pattern][i]), Split(value));
    Segments.MatchIsDenotes(Split(pattern), Split(value));
  }

  // A pattern without wildcards, classes and escapes is its own literal.
  lemma {:induction false} PlainIsLiteral(pattern: string)
    requires '\\' !in pattern && LiteralValue(pattern).Some?
    ensures LiteralValue(pattern).value == pattern && '*' !in pattern && '?' !in pattern
  {
    if pattern != "" {
      PlainIsLiteral(pattern[1..]);
      assert pattern == [pattern[0]] + pattern[1..];
    }
  }

  lemma RecursiveLiteralMatch(pattern: string, value: string)
    requires PathPatterns.ValidRecursivePathGlob(pattern) && LiteralValue(pattern).Some?
    requires RecursiveGlob.Accepts(RecursiveGlob.Expression(pattern), value)
    ensures value == LiteralValue(pattern).value
  {
    PlainIsLiteral(pattern);
    PathPatterns.SegmentsAvoid(pattern, '[');
    PathPatterns.SegmentsAvoid(pattern, ']');
    PathPatterns.SegmentsAvoid(pattern, '\\');
    PathPatterns.SegmentsAvoid(pattern, '*');
    PathPatterns.SegmentsHaveNoSlash(pattern);
    RecursiveGlob.ExpressionAgrees(pattern, value);
    Segments.MatchIsDenotes(Split(pattern), Split(value));
    LiteralPathMatch(pattern, value);
  }

  lemma RecursiveOverlapIsSound(left: string, right: string, value: string)
    requires PathPatterns.ValidRecursivePathGlob(left) && PathPatterns.ValidRecursivePathGlob(right)
    requires PathPatterns.RecursivePathMatch([left], value) && PathPatterns.RecursivePathMatch([right], value)
    ensures RecursivePathValuesMayOverlap(left, right)
  {
    assert RecursiveGlob.Accepts(RecursiveGlob.Expression([left][0]), value);
    assert RecursiveGlob.Accepts(RecursiveGlob.Expression([right][0]), value);
    if LiteralValue(left).Some? {
      RecursiveLiteralMatch(left, value);
    }
    if LiteralValue(right).Some? {
      RecursiveLiteralMatch(right, value);
    }
  }

  // ----- overlap of value lists, targets, attrs and rules

  ghost predicate MatchValuesMayOverlap(left: seq<string>, right: seq<string>, mode: MatchMode) {
    match Defaulted(mode)
    case IntegerMaximum => true
    case AnyGlob => true
    case PathOutsidePrefix => true
    case PathGlob => exists i, j :: 0 <= i < |left| && 0 <= j < |right| && PathValuesMayOverlap(left[i], right[j])
    case RecursivePathGlob =>
      exists i, j :: 0 <= i < |left| && 0 <= j < |right| && RecursivePathValuesMayOverlap(left[i], right[j])
    case _ => exists i, j :: 0 <= i < |left| && 0 <= j < |right| && PatternsMayOverlap(left[i], right[j])
  }

  ghost predicate PatternMapsMayOverlap(left: Values, right: Values, fields: map<string, FieldSpec>) {
    forall name :: name in left && name in right ==>
      MatchValuesMayOverlap(left[name], right[name], ModeOf(fields, name))
  }

  ghost predicate TargetMatchersMayOverlap(left: seq<Target>, right: seq<Target>, registry: Registry) {
    exists i, j :: 0 <= i < |left| && 0 <= j < |right|
      && left[i].kind == right[j].kind
      && PatternMapsMayOverlap(left[i].fields, right[j].fields, FieldsOf(registry, left[i].kind))
  }

  ghost predicate AttrsMayOverlap(left: Values, right: Values, relevant: seq<string>, registry: Registry) {
    forall name :: name in relevant && name in left && name in right ==>
      MatchValuesMayOverlap(left[name], right[name], AttrModeOf(registry, name))
  }

  ghost predicate RequestRulesMayOverlap(left: Rule, right: Rule, registry: Registry) {
    && (exists i :: 0 <= i < |left.credentialUses| && left.credentialUses[i] in right.credentialUses)
    && (exists i, j :: 0 <= i < |left.clients| && 0 <= j < |right.clients| && PatternsMayOverlap(left.clients[i], right.clients[j]))
    && exists i :: 0 <= i < |left.operations|
         && left.operations[i] in right.operations
         && TargetMatchersMayOverlap(left.targets, right.targets, registry)
         && AttrsMayOverlap(left.attrs, right.attrs, OperationOf(registry, left.operations[i]).attrs, registry)
  }

  // validateRequestRuleAmbiguity
  ghost predicate Unambiguous(rules: seq<Rule>, registry: Registry) {
    forall i, j :: 0 <= i < j < |rules| && rules[i].effect.Ask? && rules[j].effect.Ask?
                   && rules[i].grantPolicy != rules[j].grantPolicy ==>
      !RequestRulesMayOverlap(rules[i], rules[j], registry)
  }

  // No registered operation name that a rule can list, read as a glob, matches another one.
  ghost predicate LiteralNames(names: set<string>) {
    forall a, b :: a in names && b in names && Trimmed(a) && ValidGlob(a) && Glob.Matches(a, b) ==> a == b
  }

  lemma ValuesOverlapIsSound(left: seq<string>, right: seq<string>, mode: MatchMode, values: seq<string>)
    requires ValidMatchValues(left, mode) && ValidMatchValues(right, mode)
    requires AllValuesMatch(mode, left, values) && AllValuesMatch(mode, right, values)
    ensures MatchValuesMayOverlap(left, right, mode)
  {
    var v := values[0];
    var m := Defaulted(mode);
    if m.PathGlob? {
      assert PathPatterns.PathMatch(left, v) && PathPatterns.PathMatch(right, v);
      var i :| 0 <= i < |left| && Segments.Denotes(Split(left[i]), Split(v));
      var j :| 0 <= j < |right| && Segments.Denotes(Split(right[j]), Split(v));
      assert [left[i]][0] == left[i] && [right[j]][0] == right[j];
      PathOverlapIsSound(left[i], right[j], v);
    } else if m.RecursivePathGlob? {
      assert PathPatterns.RecursivePathMatch(left, v) && PathPatterns.RecursivePathMatch(right, v);
      var i :| 0 <= i < |left| && RecursiveGlob.Accepts(RecursiveGlob.Expression(left[i]), v);
      var j :| 0 <= j < |right| && RecursiveGlob.Accepts(RecursiveGlob.Expression(right[j]), v);
      assert [left[i]][0] == left[i] && [right[j]][0] == right[j];
      RecursiveOverlapIsSound(left[i], right[j], v);
    } else if m.GlobMode? {
      assert PatternsMatch(left, v) && PatternsMatch(right, v);
      var i :| 0 <= i < |left| && Glob.Matches(left[i], v);
      var j :| 0 <= j < |right| && Glob.Matches(right[j], v);
      GlobOverlapIsSound(left[i], right[j], v);
    }
  }

  lemma MapsOverlapIsSound(left: Target, right: Target, registry: Registry, target: Target)
    requires NormalizedTarget(left, registry) && NormalizedTarget(right, registry)
    requires left.kind == target.kind && right.kind == target.kind
    requires TargetFieldsMatch(FieldsOf(registry, target.kind), Ask, left.fields, target.fields)
    requires TargetFieldsMatch(FieldsOf(registry, target.kind), Ask, right.fields, target.fields)
    ensures PatternMapsMayOverlap(left.fields, right.fields, FieldsOf(registry, target.kind))
  {
    hide MatchValuesMayOverlap, ValidMatchValues, AllValuesMatch, Listed;
    var fields := FieldsOf(registry, target.kind);
    forall name | name in left.fields && name in right.fields
      ensures MatchValuesMayOverlap(left.fields[name], right.fields[name], ModeOf(fields, name))
    {
      ValuesOverlapIsSound(left.fields[name], right.fields[name], ModeOf(fields, name), ValuesOf(target.fields, name));
    }
  }

  lemma TargetsOverlapIsSound(left: Rule, right: Rule, registry: Registry, target: Target)
    requires Normalized(left, registry) && Normalized(right, registry)
    requires TargetsMatch(registry, Ask, left.targets, target) && TargetsMatch(registry, Ask, right.targets, target)
    ensures TargetMatchersMayOverlap(left.targets, right.targets, registry)
  {
    hide NormalizedTarget, NormalizedOperation, NormalizedUses, Listed, ValidMatchValues, ValidGlob, TargetFieldsMatch, PatternMapsMayOverlap;
    var fields := FieldsOf(registry, target.kind);
    var i :| 0 <= i < |left.targets| && left.targets[i].kind == target.kind
             && TargetFieldsMatch(fields, Ask, left.targets[i].fields, target.fields);
    var j :| 0 <= j < |right.targets| && right.targets[j].kind == target.kind
             && TargetFieldsMatch(fields, Ask, right.targets[j].fields, target.fields);
    MapsOverlapIsSound(left.targets[i], right.targets[j], registry, target);
  }

  lemma AttrsOverlapIsSound(left: Rule, right: Rule, registry: Registry, request: Request)
    requires Normalized(left, registry) && Normalized(right, registry)
    requires AttrsMatch(registry, Ask, left.attrs, request.operation, request.attrs)
    requires AttrsMatch(registry, Ask, right.attrs, request.operation, request.attrs)
    ensures AttrsMayOverlap(left.attrs, right.attrs, OperationOf(registry, request.operation).attrs, registry)
  {
    forall name | name in OperationOf(registry, request.operation).attrs && name in left.attrs && name in right.attrs
      ensures MatchValuesMayOverlap(left.attrs[name], right.attrs[name], AttrModeOf(registry, name))
    {
      ValuesOverlapIsSound(left.attrs[name], right.attrs[name], AttrModeOf(registry, name), request.attrs[name]);
    }
  }

  lemma ClientsOverlapIsSound(left: seq<string>, right: seq<string>, client: string)
    requires (forall i :: 0 <= i < |left| ==> ValidGlob(left[i])) && forall i :: 0 <= i < |right| ==> ValidGlob(right[i])
    requires PatternsMatch(left, client) && PatternsMatch(right, client)
    ensures exists i, j :: 0 <= i < |left| && 0 <= j < |right| && PatternsMayOverlap(left[i], right[j])
  {
    hide ValidGlob, PatternsMayOverlap;
    var c :| 0 <= c < |left| && Glob.Matches(left[c], client);
    var d :| 0 <= d < |right| && Glob.Matches(right[d], client);
    GlobOverlapIsSound(left[c], right[d], client);
  }

  // An operation that a rule matches is listed by the rule.
  lemma OperationIsListed(rule: Rule, registry: Registry, operation: string)
    requires LiteralNames(registry.operations.Keys) && operation in registry.operations
    requires Normalized(rule, registry) && PatternsMatch(rule.operations, operation)
    ensures operation in rule.operations
  {
    hide NormalizedTarget, NormalizedUses, ValidMatchValues, ValidGlob;
    var i :| 0 <= i < |rule.operations| && Glob.Matches(rule.operations[i], operation);
    assert NormalizedOperation(rule.operations[i], rule, registry);
  }

  lemma UseIsListed(rule: Rule, use: CredentialUse)
    requires rule.effect.Ask? && NormalizedUses(rule) && RuleCredentialUseMatches(rule, use)
    ensures use in rule.credentialUses
  {
  }

  // Two request rules that match the same request overlap.
  lemma OverlapIsSound(left: Rule, right: Rule, registry: Registry, request: Request, use: CredentialUse)
    requires LiteralNames(registry.operations.Keys) && request.operation in registry.operations
    requires left.effect.Ask? && right.effect.Ask? && Normalized(left, registry) && Normalized(right, registry)
    requires RuleMatches(registry, left, request, use) && RuleMatches(registry, right, request, use)
    ensures RequestRulesMayOverlap(left, right, registry)
  {
    hide NormalizedTarget, NormalizedOperation, NormalizedUses, TargetsMatch, AttrsMatch, Listed, ValidMatchValues, ValidGlob,
      LiteralNames, RuleCredentialUseMatches, PatternsMatch, PatternsMayOverlap, TargetMatchersMayOverlap, AttrsMayOverlap;
    UseIsListed(left, use);
    UseIsListed(right, use);
    ClientsOverlapIsSound(left.clients, right.clients, request.client);
    OperationIsListed(left, registry, request.operation);
    OperationIsListed(right, registry, request.operation);
    TargetsOverlapIsSound(left, right, registry, request.target);
    AttrsOverlapIsSound(left, right, registry, request);
  }
}
