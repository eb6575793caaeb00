// Matching request values against the path patterns of a rule with the two
// engines of authorization/policy/match.go, and the validators of
// authorization/policy/parse.go:595-658 that decide which patterns reach them.
module PathPatterns {
  import opened Options
  import opened Text
  import Glob
  import Segments
  import RecursiveGlob

  const MAX_PATTERN_BYTES := 1024
  const MAX_VALUE_BYTES := 4096
  const MAX_SEGMENTS := 256

  predicate Contains(s: string, c: char) {
    c in s
  }

  predicate ContainsDoubleStar(s: string) {
    exists i :: 0 <= i < |s| - 1 && s[i] == '*' && s[i + 1] == '*'
  }

  // validateRecursivePathGlob
  predicate ValidRecursivePathGlob(pattern: string) {
    && (pattern == "" || pattern[0] != '/')
    && !Contains(pattern, '[') && !Contains(pattern, ']') && !Contains(pattern, '\\')
    && ByteLength(pattern) <= MAX_PATTERN_BYTES
    && |Split(pattern)| <= MAX_SEGMENTS
    && forall i :: 0 <= i < |Split(pattern)| ==> Split(pattern)[i] != "" && Split(pattern)[i] != ".."
  }

  // validatePathGlob
  predicate ValidPathGlob(pattern: string) {
    && ByteLength(pattern) <= MAX_PATTERN_BYTES
    && CountSlashes(pattern) < MAX_SEGMENTS
    && forall i :: 0 <= i < |Split(pattern)| ==>
         var segment := Split(pattern)[i];
         segment == Segments.DOUBLE_STAR || (!ContainsDoubleStar(segment) && Glob.Parse(segment).Some?)
  }

  // The guard of both engines on request values.
  predicate ValidPathValue(value: string) {
    !Blank(value) && ByteLength(value) <= MAX_VALUE_BYTES && CountSlashes(value) < MAX_SEGMENTS
  }

  ghost predicate PathMatch(patterns: seq<string>, value: string) {
    ValidPathValue(value) && exists i :: 0 <= i < |patterns| && Segments.Denotes(Split(patterns[i]), Split(value))
  }

  ghost predicate RecursivePathMatch(patterns: seq<string>, value: string) {
    ValidPathValue(value) && exists i :: 0 <= i < |patterns| && RecursiveGlob.Accepts(RecursiveGlob.Expression(patterns[i]), value)
  }

  // pathPatternsMatch
  method PathPatternsMatch(patterns: seq<string>, value: string) returns (matched: bool)
    ensures matched <==> PathMatch(patterns, value)
  {
    if !ValidPathValue(value) {
      return false;
    }
    var valueSegments := Split(value);
    for k := 0 to |patterns|
      invariant forall i :: 0 <= i < k ==> !Segments.Denotes(Split(patterns[i]), Split(value))
    {
      var ok := Segments.PathSegmentsMatch(Split(patterns[k]), valueSegments);
      if ok {
        return true;
      }
    }
    return false;
  }

  // The two engines agree on every pattern both validators accept, on every value.
  lemma EnginesAgree(patterns: seq<string>, value: string)
    requires forall i :: 0 <= i < |patterns| ==> ValidPathGlob(patterns[i]) && ValidRecursivePathGlob(patterns[i])
    ensures PathMatch(patterns, value) <==> RecursivePathMatch(patterns, value)
  {
    forall i | 0 <= i < |patterns|
      ensures Segments.Denotes(Split(patterns[i]), Split(value)) <==>
                RecursiveGlob.Accepts(RecursiveGlob.Expression(patterns[i]), value)
    {
      AcceptedSegmentsArePlain(patterns[i]);
      RecursiveGlob.ExpressionAgrees(patterns[i], value);
    }
  }

  lemma AcceptedSegmentsArePlain(pattern: string)
    requires ValidPathGlob(pattern) && ValidRecursivePathGlob(pattern)
    ensures forall i :: 0 <= i < |Split(pattern)| ==>
              Split(pattern)[i] == Segments.DOUBLE_STAR || RecursiveGlob.PlainSegment(Split(pattern)[i])
  {
    SegmentsAvoid(pattern, '[');
    SegmentsAvoid(pattern, ']');
    SegmentsAvoid(pattern, '\\');
    SegmentsHaveNoSlash(pattern);
  }

  lemma {:induction false} SegmentsAvoid(s: string, c: char)
    requires c !in s
    ensures forall i :: 0 <= i < |Split(s)| ==> c !in Split(s)[i]
  {
    if s != "" {
      SegmentsAvoid(s[1..], c);
    }
  }

  lemma {:induction false} SegmentsHaveNoSlash(s: string)
    ensures forall i :: 0 <= i < |Split(s)| ==> NoSlash(Split(s)[i])
  {
    if s != "" {
      SegmentsHaveNoSlash(s[1..]);
    }
  }

  // Without the path-glob validator the engines differ: an embedded "**" crosses
  // segments in the compiled expression and not in the automaton.
  lemma EnginesDifferOnEmbeddedDoubleStar()
    ensures ValidRecursivePathGlob("a**b") && !ValidPathGlob("a**b")
    ensures RecursivePathMatch(["a**b"], "a/b") && !PathMatch(["a**b"], "a/b")
  {
    var p := ["a**b"];
    EmbeddedIsValid();
    EmbeddedStaysInside();
    EmbeddedCrosses();
    assert p[0] == "a**b";
  }

  lemma EmbeddedIsValid()
    ensures ValidRecursivePathGlob("a**b") && !ValidPathGlob("a**b") && ValidPathValue("a/b")
  {
    hide ByteLength, CountSlashes, ContainsDoubleStar, Split, Glob.Parse, Blank;
    var p := "a**b";
    SplitPlain(p);
    Small(p);
    EmbeddedHasDoubleStar(p);
    hide ValidPathValue;
    ValueIsValid("a/b");
    assert Split(p)[0] == p;
  }

  lemma EmbeddedHasDoubleStar(p: string)
    requires p == "a**b"
    ensures ContainsDoubleStar(p)
  {
    assert p[1] == '*' && p[2] == '*';
  }

  lemma ValueIsValid(v: string)
    requires 0 < |v| < 100 && !IsSpace(v[0])
    ensures ValidPathValue(v)
  {
    Small(v);
  }

  lemma {:induction false} Small(s: string)
    ensures ByteLength(s) <= 4 * |s| && CountSlashes(s) <= |s|
  {
    if s != "" {
      Small(s[1..]);
    }
  }

  lemma EmbeddedStaysInside()
    ensures !Segments.Denotes(Split("a**b"), Split("a/b"))
  {
    SplitPlain("a**b");
    SplitPlain("b");
    SplitAt("a", "b");
    assert "a" + "/" + "b" == "a/b";
    var values := ["a"] + ["b"];
    assert values[1..] == ["b"];
    Segments.MatchIsDenotes(["a**b"], values);
  }

  lemma SplitPlain(s: string)
    requires NoSlash(s)
    ensures Split(s) == [s]
  {
    SplitAt(s, "");
  }

  lemma EmbeddedExpression(p: string, e: seq<RecursiveGlob.Regex>)
    requires p == "a**b" && Split(p) == [p]
    requires e == [RecursiveGlob.Char('a'), RecursiveGlob.Star(RecursiveGlob.Any), RecursiveGlob.Char('b')]
    ensures RecursiveGlob.Expression(p) == e
  {
    hide Split;
    assert p[1..] == "**b" && "**b"[2..] == "b" && "b"[1..] == "";
    assert RecursiveGlob.SegmentExpression("b") == [RecursiveGlob.Char('b')];
    assert RecursiveGlob.SegmentExpression("**b") == [RecursiveGlob.Star(RecursiveGlob.Any)] + [RecursiveGlob.Char('b')];
    assert RecursiveGlob.SegmentExpression(p) == e;
    assert RecursiveGlob.Compact(false, [p]) == [p];
    assert RecursiveGlob.Tail([p], 1, true) == [];
    assert RecursiveGlob.Tail([p], 0, false) == e + [];
  }

  lemma EmbeddedCrosses()
    ensures RecursiveGlob.Accepts(RecursiveGlob.Expression("a**b"), "a/b")
  {
    var star := RecursiveGlob.Star(RecursiveGlob.Any);
    var e := [RecursiveGlob.Char('a'), star, RecursiveGlob.Char('b')];
    SplitPlain("a**b");
    var p := "a**b";
    EmbeddedExpression(p, e);
    hide RecursiveGlob.Expression, RecursiveGlob.Accepts;
    RecursiveGlob.AcceptsOne(RecursiveGlob.Char('b'), "b");
    RecursiveGlob.StarAnyDenotes("/");
    assert e[1..][1..] == [RecursiveGlob.Char('b')];
    var v, w := "a/b", "/b";
    assert v[..1] == "a" && v[1..] == w && w[..1] == "/" && w[1..] == "b";
    RecursiveGlob.AcceptsCons(e[1..], w, 1, e[1..][1..]);
    RecursiveGlob.AcceptsCons(e, v, 1, e[1..]);
  }

  // recursivePathValuesMatch: all the values, or any of them.
  method RecursivePathValuesMatch(patterns: seq<string>, values: seq<string>, requireAll: bool) returns (matched: bool)
    ensures requireAll ==> (matched <==> values != [] && forall i :: 0 <= i < |values| ==> RecursivePathMatch(patterns, values[i]))
    ensures !requireAll ==> (matched <==> exists i :: 0 <= i < |values| && RecursivePathMatch(patterns, values[i]))
  {
    for k := 0 to |values|
      invariant forall i :: 0 <= i < k ==> (RecursivePathMatch(patterns, values[i]) <==> requireAll)
    {
      var ok := RecursivePathPatternsMatch(patterns, values[k]);
      if requireAll != ok {
        return !requireAll;
      }
    }
    return requireAll && |values| > 0;
  }

  // recursivePathPatternsMatch, with the regular expression engine decided by backtracking.
  method RecursivePathPatternsMatch(patterns: seq<string>, value: string) returns (matched: bool)
    ensures matched <==> RecursivePathMatch(patterns, value)
  {
    if !ValidPathValue(value) {
      return false;
    }
    for k := 0 to |patterns|
      invariant forall i :: 0 <= i < k ==> !RecursiveGlob.Accepts(RecursiveGlob.Expression(patterns[i]), value)
    {
      var expression := RecursiveGlob.RecursivePathExpression(patterns[k]);
      if RecursiveGlob.Accepts(expression, value) {
        return true;
      }
    }
    return false;
  }
}
