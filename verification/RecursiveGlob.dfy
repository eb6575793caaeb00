// The compiler from recursive path globs to regular expressions of
// authorization/policy/match.go:145-213, and the agreement of its expressions
// with the segment meaning of Segments.
module RecursiveGlob {
  import opened Options
  import opened Text
  import Glob
  import Segments

  const DOUBLE_STAR := Segments.DOUBLE_STAR

  // The expressions the compiler emits, and the strings they denote.
  datatype Regex =
    | Char(c: char)
    | NotSlash                           // [^/]
    | Any                                // (?s:.)
    | Star(of: Regex)
    | Cat(left: Regex, right: Regex)
    | Optional(of: Regex)

  predicate Denotes(r: Regex, s: string)
    decreases r, |s|
  {
    match r
    case Char(c) => s == [c]
    case NotSlash => |s| == 1 && s[0] != '/'
    case Any => |s| == 1
    case Star(of) => s == "" || exists k :: 1 <= k <= |s| && Denotes(of, s[..k]) && Denotes(r, s[k..])
    case Cat(left, right) => exists k :: 0 <= k <= |s| && Denotes(left, s[..k]) && Denotes(right, s[k..])
    case Optional(of) => s == "" || Denotes(of, s)
  }

  // An anchored concatenation of expressions, as the string builder holds it.
  predicate Accepts(expression: seq<Regex>, s: string)
    decreases |expression|
  {
    if expression == [] then s == ""
    else exists k :: 0 <= k <= |s| && Denotes(expression[0], s[..k]) && Accepts(expression[1..], s[k..])
  }

  // recursiveSegmentExpression, for segments without brackets and backslashes.
  function SegmentExpression(segment: string): seq<Regex> {
    if segment == "" then []
    else if |segment| >= 2 && segment[0] == '*' && segment[1] == '*' then [Star(Any)] + SegmentExpression(segment[2..])
    else if segment[0] == '*' then [Star(NotSlash)] + SegmentExpression(segment[1..])
    else if segment[0] == '?' then [NotSlash] + SegmentExpression(segment[1..])
    else [Char(segment[0])] + SegmentExpression(segment[1..])
  }

  // appendCompleteDoubleStar
  function DoubleStarExpression(index: nat, count: nat): Regex {
    if count == 1 then Star(Any)
    else if index == 0 then Optional(Cat(Star(Any), Char('/')))
    else if index + 1 == count then Optional(Cat(Char('/'), Star(Any)))
    else Cat(Optional(Cat(Char('/'), Star(Any))), Char('/'))
  }

  // compactRecursiveSegments: of a run of "**" only the first stays.
  function Compact(afterStar: bool, segments: seq<string>): seq<string>
    decreases |segments|
  {
    if segments == [] then []
    else if segments[0] == DOUBLE_STAR && afterStar then Compact(true, segments[1..])
    else [segments[0]] + Compact(segments[0] == DOUBLE_STAR, segments[1..])
  }

  // What the compiler appends from segment `index` on.
  function Tail(segments: seq<string>, index: nat, separator: bool): seq<Regex>
    requires index <= |segments|
    decreases |segments| - index
  {
    if index == |segments| then []
    else if segments[index] == DOUBLE_STAR then
      [DoubleStarExpression(index, |segments|)] + Tail(segments, index + 1, false)
    else
      (if separator then [Char('/')] else []) + SegmentExpression(segments[index]) + Tail(segments, index + 1, true)
  }

  function Expression(pattern: string): seq<Regex> {
    Tail(Compact(false, Split(pattern)), 0, false)
  }

  method CompactRecursiveSegments(segments: seq<string>) returns (out: seq<string>)
    ensures out == Compact(false, segments)
  {
    out := [];
    for k := 0 to |segments|
      invariant out + Compact(out != [] && out[|out| - 1] == DOUBLE_STAR, segments[k..]) == Compact(false, segments)
    {
      assert segments[k..][1..] == segments[k + 1..];
      if segments[k] == DOUBLE_STAR && |out| > 0 && out[|out| - 1] == DOUBLE_STAR {
        continue;
      }
      assert out + ([segments[k]] + Compact(segments[k] == DOUBLE_STAR, segments[k + 1..]))
          == (out + [segments[k]]) + Compact(segments[k] == DOUBLE_STAR, segments[k + 1..]);
      out := out + [segments[k]];
    }
  }

  method RecursivePathExpression(pattern: string) returns (expression: seq<Regex>)
    ensures expression == Expression(pattern)
  {
    var segments := CompactRecursiveSegments(Split(pattern));
    expression := [];
    var separatorBeforeNext := false;
    for index := 0 to |segments|
      invariant expression + Tail(segments, index, separatorBeforeNext) == Expression(pattern)
    {
      TailStep(expression, segments, index, separatorBeforeNext);
      if segments[index] == DOUBLE_STAR {
        expression := expression + [DoubleStarExpression(index, |segments|)];
        separatorBeforeNext := false;
        continue;
      }
      if separatorBeforeNext {
        expression := expression + [Char('/')];
      }
      expression := expression + SegmentExpression(segments[index]);
      separatorBeforeNext := true;
    }
  }

  lemma TailStep(done: seq<Regex>, segments: seq<string>, index: nat, separator: bool)
    requires index < |segments|
    ensures segments[index] == DOUBLE_STAR ==>
              done + Tail(segments, index, separator) ==
              (done + [DoubleStarExpression(index, |segments|)]) + Tail(segments, index + 1, false)
    ensures segments[index] != DOUBLE_STAR ==>
              done + Tail(segments, index, separator) ==
              ((done + if separator then [Char('/')] else []) + SegmentExpression(segments[index])) + Tail(segments, index + 1, true)
    ensures done + [] == done
  {
    if segments[index] == DOUBLE_STAR {
      Reassociate(done, [], [DoubleStarExpression(index, |segments|)], Tail(segments, index + 1, false));
    } else {
      Reassociate(done, if separator then [Char('/')] else [], SegmentExpression(segments[index]), Tail(segments, index + 1, true));
    }
  }

  lemma Reassociate(a: seq<Regex>, b: seq<Regex>, c: seq<Regex>, d: seq<Regex>)
    ensures a + (b + c + d) == ((a + b) + c) + d
    ensures b == [] ==> a + b == a && b + c == c
  {
  }

  // ----- what single expressions denote

  lemma {:induction false} StarAnyDenotes(s: string)
    ensures Denotes(Star(Any), s)
  {
    if s != "" {
      StarAnyDenotes(s[1..]);
      assert Denotes(Any, s[..1]) && Denotes(Star(Any), s[1..]);
    }
  }

  lemma {:induction false} StarNotSlashDenotes(s: string)
    ensures Denotes(Star(NotSlash), s) <==> NoSlash(s)
  {
    if s != "" {
      if k :| 1 <= k <= |s| && Denotes(NotSlash, s[..k]) && Denotes(Star(NotSlash), s[k..]) {
        StarNotSlashDenotes(s[k..]);
        assert s[..k][0] == s[0];
        assert forall i :: 1 <= i < |s| ==> s[i] == s[1..][i - 1];
      }
      if NoSlash(s) {
        StarNotSlashDenotes(s[1..]);
        assert Denotes(NotSlash, s[..1]) && Denotes(Star(NotSlash), s[1..]);
      }
    }
  }

  lemma CatDenotes(left: Regex, right: Regex, s: string, k: nat)
    requires k <= |s| && Denotes(left, s[..k]) && Denotes(right, s[k..])
    ensures Denotes(Cat(left, right), s)
  {
  }

  lemma CatSplits(left: Regex, right: Regex, s: string) returns (k: nat)
    requires Denotes(Cat(left, right), s)
    ensures k <= |s| && Denotes(left, s[..k]) && Denotes(right, s[k..])
  {
    k :| k <= |s| && Denotes(left, s[..k]) && Denotes(right, s[k..]);
  }

  lemma CharDenotes(c: char, s: string)
    ensures Denotes(Char(c), s) <==> s == [c]
  {
  }

  lemma SlashAnyDenotes(s: string)
    ensures Denotes(Cat(Char('/'), Star(Any)), s) <==> s != "" && s[0] == '/'
  {
    hide Denotes;
    if s != "" && s[0] == '/' {
      StarAnyDenotes(s[1..]);
      CharDenotes('/', s[..1]);
      CatDenotes(Char('/'), Star(Any), s, 1);
    }
    if Denotes(Cat(Char('/'), Star(Any)), s) {
      var k := CatSplits(Char('/'), Star(Any), s);
      CharDenotes('/', s[..k]);
      assert s[0] == s[..k][0];
    }
  }

  lemma AnySlashDenotes(s: string)
    ensures Denotes(Cat(Star(Any), Char('/')), s) <==> s != "" && s[|s| - 1] == '/'
  {
    hide Denotes;
    if s != "" && s[|s| - 1] == '/' {
      var k := |s| - 1;
      StarAnyDenotes(s[..k]);
      CharDenotes('/', s[k..]);
      CatDenotes(Star(Any), Char('/'), s, k);
    }
    if Denotes(Cat(Star(Any), Char('/')), s) {
      var k := CatSplits(Star(Any), Char('/'), s);
      CharDenotes('/', s[k..]);
      assert s[|s| - 1] == s[k..][0];
    }
  }

  // A middle "**": a slash, or everything between two slashes.
  lemma MiddleDenotes(s: string)
    ensures Denotes(Cat(Optional(Cat(Char('/'), Star(Any))), Char('/')), s) <==>
              s != "" && s[0] == '/' && s[|s| - 1] == '/'
  {
    var left := Optional(Cat(Char('/'), Star(Any)));
    if s != "" && s[0] == '/' && s[|s| - 1] == '/' {
      var k := |s| - 1;
      MiddleLeft(s, k);
      CharDenotes('/', s[k..]);
      CatDenotes(left, Char('/'), s, k);
    }
    if Denotes(Cat(left, Char('/')), s) {
      var k := CatSplits(left, Char('/'), s);
      hide Denotes;
      MiddleLeft(s, k);
      CharDenotes('/', s[k..]);
      assert s[|s| - 1] == s[k..][0];
    }
  }

  lemma MiddleLeft(s: string, k: nat)
    requires k <= |s|
    ensures Denotes(Optional(Cat(Char('/'), Star(Any))), s[..k]) <==> k == 0 || s[0] == '/'
  {
    SlashAnyDenotes(s[..k]);
  }

  // ----- concatenation

  lemma AcceptsNone(s: string)
    ensures Accepts([], s) <==> s == ""
  {
  }

  lemma AcceptsHead(e: seq<Regex>, s: string) returns (k: nat)
    requires e != [] && Accepts(e, s)
    ensures k <= |s| && Denotes(e[0], s[..k]) && Accepts(e[1..], s[k..])
  {
    hide Denotes;
    k :| k <= |s| && Denotes(e[0], s[..k]) && Accepts(e[1..], s[k..]);
  }

  lemma {:induction false} AcceptsJoin(a: seq<Regex>, b: seq<Regex>, s: string, k: nat)
    requires k <= |s| && Accepts(a, s[..k]) && Accepts(b, s[k..])
    ensures Accepts(a + b, s)
  {
    hide Accepts, Denotes;
    if a == [] {
      AcceptsNone(s[..k]);
      assert a + b == b && s[k..] == s;
    } else {
      var j := AcceptsHead(a, s[..k]);
      Slices(s, j, k);
      AcceptsJoin(a[1..], b, s[j..], k - j);
      assert (a + b)[1..] == a[1..] + b;
      AcceptsCons(a + b, s, j, a[1..] + b);
    }
  }

  lemma Slices(s: string, j: nat, k: nat)
    requires j <= k <= |s|
    ensures s[..k][..j] == s[..j] && s[j..][..k - j] == s[..k][j..] && s[j..][k - j..] == s[k..]
  {
  }

  lemma AcceptsCons(e: seq<Regex>, s: string, j: nat, rest: seq<Regex>)
    requires e != [] && rest == e[1..] && j <= |s| && Denotes(e[0], s[..j]) && Accepts(rest, s[j..])
    ensures Accepts(e, s)
  {
  }

  lemma AcceptsUncons(r: Regex, rest: seq<Regex>, s: string) returns (k: nat)
    requires Accepts([r] + rest, s)
    ensures k <= |s| && Denotes(r, s[..k]) && Accepts(rest, s[k..])
  {
    assert ([r] + rest)[1..] == rest;
    k :| 0 <= k <= |s| && Denotes(([r] + rest)[0], s[..k]) && Accepts(([r] + rest)[1..], s[k..]);
  }

  lemma {:induction false} AcceptsSplit(a: seq<Regex>, b: seq<Regex>, s: string) returns (k: nat)
    requires Accepts(a + b, s)
    ensures k <= |s| && Accepts(a, s[..k]) && Accepts(b, s[k..])
  {
    if a == [] {
      assert a + b == b;
      assert s[0..] == s;
      k := 0;
    } else {
      assert (a + b)[1..] == a[1..] + b;
      var j :| 0 <= j <= |s| && Denotes(a[0], s[..j]) && Accepts(a[1..] + b, s[j..]);
      var i := AcceptsSplit(a[1..], b, s[j..]);
      k := j + i;
      assert s[..k][..j] == s[..j];
      assert s[..k][j..] == s[j..][..i];
      assert s[k..] == s[j..][i..];
      AcceptsCons(a, s[..k], j, a[1..]);
    }
  }

  lemma AcceptsOne(r: Regex, s: string)
    ensures Accepts([r], s) <==> Denotes(r, s)
  {
    assert s[..|s|] == s && s[|s|..] == "";
    if Denotes(r, s) {
      assert Denotes([r][0], s[..|s|]) && Accepts([r][1..], s[|s|..]);
    }
    if k :| 0 <= k <= |s| && Denotes(r, s[..k]) && Accepts([r][1..], s[k..]) {
      assert k == |s|;
    }
  }

  // ----- one segment

  // A segment both validators accept: no class, no escape, no embedded "**".
  predicate PlainSegment(segment: string) {
    && (forall i :: 0 <= i < |segment| ==> segment[i] !in "[]\\/")
    && (forall i :: 0 <= i < |segment| - 1 ==> !(segment[i] == '*' && segment[i + 1] == '*'))
  }

  lemma {:induction false} PlainSegmentParses(segment: string)
    requires PlainSegment(segment)
    ensures Glob.Parse(segment).Some?
  {
    if segment != "" {
      PlainSegmentParses(segment[1..]);
    }
  }

  // The expression of a segment accepts what path.Match accepts.
  lemma {:induction false} SegmentAgrees(segment: string, s: string)
    requires PlainSegment(segment) && NoSlash(s)
    ensures Accepts(SegmentExpression(segment), s) <==> Glob.Matches(segment, s)
    decreases |segment|, |s|
  {
    PlainSegmentParses(segment);
    if segment != "" {
      PlainSegmentParses(segment[1..]);
      var tokens := Glob.Parse(segment).value;
      var rest := SegmentExpression(segment[1..]);
      var head := SegmentExpression(segment)[0];
      assert SegmentExpression(segment) == [head] + rest;
      assert tokens[1..] == Glob.Parse(segment[1..]).value;
      if segment[0] == '*' {
        StarSegment(segment, s);
      } else {
        if s != "" {
          SegmentAgrees(segment[1..], s[1..]);
        }
        if k :| 0 <= k <= |s| && Denotes(head, s[..k]) && Accepts(rest, s[k..]) {
          assert k == 1 && s[..1][0] == s[0];
        }
        if Glob.Matches(segment, s) {
          assert Denotes(head, s[..1]) && Accepts(rest, s[1..]);
        }
      }
    }
  }

  lemma {:induction false} StarSegment(segment: string, s: string)
    requires PlainSegment(segment) && NoSlash(s) && segment != "" && segment[0] == '*'
    ensures Accepts(SegmentExpression(segment), s) <==> Glob.Matches(segment, s)
    decreases |segment|, |s|, 0
  {
    PlainSegmentParses(segment);
    PlainSegmentParses(segment[1..]);
    var rest := SegmentExpression(segment[1..]);
    assert SegmentExpression(segment) == [Star(NotSlash)] + rest;
    assert Glob.Parse(segment).value[1..] == Glob.Parse(segment[1..]).value;
    SegmentAgrees(segment[1..], s);
    if s != "" {
      SegmentAgrees(segment, s[1..]);
    }
    if Accepts(SegmentExpression(segment), s) {
      StarTakesOrStops(rest, s);
    }
    if Glob.Matches(segment[1..], s) {
      StarNotSlashDenotes(s[..0]);
      assert s[0..] == s;
      AcceptsCons([Star(NotSlash)] + rest, s, 0, rest);
    } else if Glob.Matches(segment, s) {
      StarTakesOne(rest, s);
    }
  }

  lemma StarTakesOrStops(rest: seq<Regex>, s: string)
    requires Accepts([Star(NotSlash)] + rest, s) && NoSlash(s)
    ensures Accepts(rest, s) || (s != "" && Accepts([Star(NotSlash)] + rest, s[1..]))
  {
    var k := AcceptsUncons(Star(NotSlash), rest, s);
    if k == 0 {
      assert s[0..] == s;
    } else {
      StarNotSlashDenotes(s[1..][..k - 1]);
      assert s[k..] == s[1..][k - 1..];
      assert ([Star(NotSlash)] + rest)[1..] == rest;
      AcceptsCons([Star(NotSlash)] + rest, s[1..], k - 1, rest);
    }
  }

  lemma StarTakesOne(rest: seq<Regex>, s: string)
    requires s != "" && Accepts([Star(NotSlash)] + rest, s[1..]) && NoSlash(s)
    ensures Accepts([Star(NotSlash)] + rest, s)
  {
    var j := AcceptsUncons(Star(NotSlash), rest, s[1..]);
    StarNotSlashDenotes(s[..j + 1]);
    hide Denotes, Accepts;
    assert s[1..][j..] == s[j + 1..];
    assert ([Star(NotSlash)] + rest)[1..] == rest;
    AcceptsCons([Star(NotSlash)] + rest, s, j + 1, rest);
  }

  // No expression of a plain segment crosses a slash.
  lemma {:induction false} SegmentStaysInside(segment: string, s: string)
    requires PlainSegment(segment) && Accepts(SegmentExpression(segment), s)
    ensures NoSlash(s)
  {
    if segment != "" {
      var e := SegmentExpression(segment);
      var k :| 0 <= k <= |s| && Denotes(e[0], s[..k]) && Accepts(e[1..], s[k..]);
      assert e[1..] == SegmentExpression(segment[1..]);
      SegmentStaysInside(segment[1..], s[k..]);
      StarNotSlashDenotes(s[..k]);
      forall i | 0 <= i < |s| ensures s[i] != '/' {
        if i < k {
          assert s[i] == s[..k][i];
        } else {
          assert s[i] == s[k..][i - k];
        }
      }
    }
  }

  // ----- whole patterns

  ghost predicate Compacted(segments: seq<string>) {
    && segments != []
    && (forall i :: 0 <= i < |segments| ==> segments[i] == DOUBLE_STAR || PlainSegment(segments[i]))
    && (forall i :: 0 <= i < |segments| - 1 ==> !(segments[i] == DOUBLE_STAR && segments[i + 1] == DOUBLE_STAR))
  }

  // The rest of the expression after a plain segment, on what is left of the value.
  ghost predicate AfterSegment(segments: seq<string>, index: nat, s: string)
    requires index <= |segments|
  {
    if s == "" then Segments.Match(segments[index..], [])
    else s[0] == '/' && Segments.Match(segments[index..], Split(s[1..]))
  }

  lemma {:induction false} FreshAgrees(segments: seq<string>, index: nat, s: string)
    requires Compacted(segments) && index < |segments| && segments[index] != DOUBLE_STAR
    ensures Accepts(SegmentExpression(segments[index]) + Tail(segments, index + 1, true), s) <==>
              Segments.Match(segments[index..], Split(s))
    decreases |segments| - index, 0
  {
    var e, t := SegmentExpression(segments[index]), Tail(segments, index + 1, true);
    if Accepts(e + t, s) {
      var k := AcceptsSplit(e, t, s);
      SegmentStaysInside(segments[index], s[..k]);
      SegmentAgrees(segments[index], s[..k]);
      AfterAgrees(segments, index + 1, s[k..]);
      SegmentThenRest(segments, index, s, k);
    }
    if Segments.Match(segments[index..], Split(s)) {
      var k := |Split(s)[0]|;
      SplitFirst(s);
      SegmentThenRest(segments, index, s, k);
      SegmentAgrees(segments[index], s[..k]);
      AfterAgrees(segments, index + 1, s[k..]);
      AcceptsJoin(e, t, s, k);
    }
  }

  // A match begins with a match of the first segment, up to a slash or the end.
  lemma MatchFirst(pattern: string, rest: seq<string>, value: string, values: seq<string>)
    requires pattern != DOUBLE_STAR
    ensures Segments.Match([pattern] + rest, [value] + values) <==> Glob.Matches(pattern, value) && Segments.Match(rest, values)
  {
    hide Glob.Matches;
    assert ([pattern] + rest)[1..] == rest && ([value] + values)[1..] == values;
  }

  lemma SegmentThenRest(segments: seq<string>, index: nat, s: string, k: nat)
    requires index < |segments| && segments[index] != DOUBLE_STAR && k <= |s| && NoSlash(s[..k])
    requires k == |Split(s)[0]| || AfterSegment(segments, index + 1, s[k..])
    ensures Segments.Match(segments[index..], Split(s)) <==>
              Glob.Matches(segments[index], s[..k]) && AfterSegment(segments, index + 1, s[k..])
  {
    hide Segments.Match, Glob.Matches, Split;
    var rest := segments[index + 1..];
    assert segments[index..] == [segments[index]] + rest;
    SplitFirst(s);
    if k < |s| {
      var y := s[k + 1..];
      assert s[k..][1..] == y && s[k..][0] == s[k];
      SplitAt(s[..k], y);
      assert s[k] == '/' ==> s == s[..k] + "/" + y;
      MatchFirst(segments[index], rest, s[..k], Split(y));
    } else {
      assert s[..k] == s && s[k..] == "";
      SplitAt(s, "");
      assert [s] == [s] + [];
      MatchFirst(segments[index], rest, s, []);
    }
  }

  ghost predicate SuffixAccepted(e: seq<Regex>, s: string, j: nat) {
    j <= |s| && (j == 0 || s[j - 1] == '/') && Accepts(e, s[j..])
  }

  // After "**" the rest matches on a suffix that begins a segment.
  lemma SuffixMatches(segments: seq<string>, index: nat, s: string, j: nat)
    requires Compacted(segments) && index < |segments| && segments[index] != DOUBLE_STAR && j <= |s|
    requires Accepts(Tail(segments, index, false), s[j..]) <==> Segments.Match(segments[index..], Split(s[j..]))
    requires SuffixAccepted(Tail(segments, index, false), s, j)
    ensures Segments.Match([DOUBLE_STAR] + segments[index..], Split(s))
  {
    var k := SuffixSegments(s, j);
    Segments.DoubleStarTakes(segments[index..], Split(s), k);
  }

  lemma {:induction false} MatchHasSuffix(segments: seq<string>, index: nat, s: string) returns (j: nat)
    requires Compacted(segments) && index < |segments| && segments[index] != DOUBLE_STAR
    requires Segments.Match([DOUBLE_STAR] + segments[index..], Split(s))
    ensures SuffixAccepted(Tail(segments, index, false), s, j)
    decreases |segments| - index, 1
  {
    var k := Segments.DoubleStarSuffix(segments[index..], Split(s));
    assert k < |Split(s)|;
    j := SegmentsSuffix(s, k);
    TailFresh(segments, index);
    FreshAgrees(segments, index, s[j..]);
  }

  lemma TailFresh(segments: seq<string>, index: nat)
    requires index < |segments| && segments[index] != DOUBLE_STAR
    ensures Tail(segments, index, false) == SegmentExpression(segments[index]) + Tail(segments, index + 1, true)
  {
    assert [] + SegmentExpression(segments[index]) == SegmentExpression(segments[index]);
  }

  lemma {:induction false} AfterAgrees(segments: seq<string>, index: nat, s: string)
    requires Compacted(segments) && 0 < index <= |segments|
    ensures Accepts(Tail(segments, index, true), s) <==> AfterSegment(segments, index, s)
    decreases |segments| - index, 1
  {
    if index == |segments| {
    } else if segments[index] != DOUBLE_STAR {
      var e, t := SegmentExpression(segments[index]), Tail(segments, index + 1, true);
      assert Tail(segments, index, true) == [Char('/')] + (e + t);
      if s != "" {
        FreshAgrees(segments, index, s[1..]);
        if Accepts(e + t, s[1..]) && s[0] == '/' {
          assert Denotes(Char('/'), s[..1]) && Accepts(e + t, s[1..]);
        }
      }
      if k :| 0 <= k <= |s| && Denotes(Char('/'), s[..k]) && Accepts(e + t, s[k..]) {
        assert k == 1 && s[..1][0] == s[0];
      }
    } else if index + 1 == |segments| {
      LastAgrees(segments, s);
    } else {
      MiddleAgrees(segments, index, s);
    }
  }

  lemma LastAgrees(segments: seq<string>, s: string)
    requires Compacted(segments) && |segments| > 1 && segments[|segments| - 1] == DOUBLE_STAR
    ensures Accepts(Tail(segments, |segments| - 1, true), s) <==> AfterSegment(segments, |segments| - 1, s)
  {
    var index := |segments| - 1;
    assert segments[index..] == [DOUBLE_STAR];
    var r := DoubleStarExpression(index, |segments|);
    assert Tail(segments, index, true) == [r];
    AcceptsOne(r, s);
    SlashAnyDenotes(s);
    Segments.DoubleStarAlone([]);
    if s != "" {
      Segments.DoubleStarAlone(Split(s[1..]));
    }
  }

  lemma MiddleTail(segments: seq<string>, index: nat)
    requires 0 < index < |segments| - 1 && segments[index] == DOUBLE_STAR
    ensures Tail(segments, index, true)
            == [Cat(Optional(Cat(Char('/'), Star(Any))), Char('/'))] + Tail(segments, index + 1, false)
  {
  }

  lemma MiddleAfter(segments: seq<string>, index: nat, s: string)
    requires index + 1 < |segments| && segments[index] == DOUBLE_STAR
    ensures s != "" && s[0] == '/' && Segments.Match([DOUBLE_STAR] + segments[index + 1..], Split(s[1..])) ==>
              AfterSegment(segments, index, s)
  {
    assert segments[index..] == [DOUBLE_STAR] + segments[index + 1..];
  }

  lemma {:induction false} MiddleAgrees(segments: seq<string>, index: nat, s: string)
    requires Compacted(segments) && 0 < index < |segments| - 1 && segments[index] == DOUBLE_STAR
    ensures Accepts(Tail(segments, index, true), s) <==> AfterSegment(segments, index, s)
    decreases |segments| - index, 0
  {
    hide Accepts, Denotes, Tail, Segments.Match;
    var t := Tail(segments, index + 1, false);
    var r := Cat(Optional(Cat(Char('/'), Star(Any))), Char('/'));
    MiddleTail(segments, index);
    CompactedNext(segments, index);
    TailFresh(segments, index + 1);
    if Accepts([r] + t, s) {
      var k := AcceptsUncons(r, t, s);
      MiddleDenotes(s[..k]);
      SlashEnds(s, k);
      FreshAgrees(segments, index + 1, s[k..]);
      SuffixMatches(segments, index + 1, s[1..], k - 1);
      MiddleAfter(segments, index, s);
    }
    if AfterSegment(segments, index, s) {
      MiddleNeedsMore(segments, index);
      assert segments[index..] == [DOUBLE_STAR] + segments[index + 1..];
      var j := MatchHasSuffix(segments, index + 1, s[1..]);
      MiddleAccepts(r, t, s, j);
    }
  }

  lemma MiddleAccepts(r: Regex, t: seq<Regex>, s: string, j: nat)
    requires s != "" && s[0] == '/' && SuffixAccepted(t, s[1..], j)
    requires r == Cat(Optional(Cat(Char('/'), Star(Any))), Char('/'))
    ensures Accepts([r] + t, s)
  {
    MiddleDenotes(s[..j + 1]);
    assert s[..j + 1][j] == s[j];
    assert s[j + 1..] == s[1..][j..];
    assert ([r] + t)[1..] == t;
    AcceptsCons([r] + t, s, j + 1, t);
  }

  lemma MiddleNeedsMore(segments: seq<string>, index: nat)
    requires index + 1 < |segments| && segments[index] == DOUBLE_STAR && segments[index + 1] != DOUBLE_STAR
    ensures !Segments.Match(segments[index..], [])
  {
    assert segments[index..][1..] == segments[index + 1..];
  }

  lemma CompactedNext(segments: seq<string>, index: nat)
    requires Compacted(segments) && index + 1 < |segments| && segments[index] == DOUBLE_STAR
    ensures segments[index + 1] != DOUBLE_STAR
  {
  }

  lemma SlashEnds(s: string, k: nat)
    requires 0 < k <= |s| && s[..k][0] == '/' && s[..k][k - 1] == '/'
    ensures s[0] == '/' && s[1..][k - 1..] == s[k..] && (k == 1 || s[1..][k - 2] == '/')
  {
  }

  // The whole expression accepts what the segments mean.
  lemma WholeAgrees(segments: seq<string>, s: string)
    requires Compacted(segments)
    ensures Accepts(Tail(segments, 0, false), s) <==> Segments.Match(segments, Split(s))
  {
    assert segments[0..] == segments;
    if segments[0] != DOUBLE_STAR {
      FreshAgrees(segments, 0, s);
      assert Tail(segments, 0, false) == SegmentExpression(segments[0]) + Tail(segments, 1, true);
    } else if |segments| == 1 {
      assert segments == [DOUBLE_STAR];
      assert Tail(segments, 0, false) == [Star(Any)];
      AcceptsOne(Star(Any), s);
      StarAnyDenotes(s);
      Segments.DoubleStarAlone(Split(s));
    } else {
      FirstAgrees(segments, s);
    }
  }

  lemma FirstTail(segments: seq<string>)
    requires |segments| > 1 && segments[0] == DOUBLE_STAR
    ensures Tail(segments, 0, false) == [Optional(Cat(Star(Any), Char('/')))] + Tail(segments, 1, false)
  {
  }

  lemma FirstAgrees(segments: seq<string>, s: string)
    requires Compacted(segments) && |segments| > 1 && segments[0] == DOUBLE_STAR
    ensures Accepts(Tail(segments, 0, false), s) <==> Segments.Match(segments, Split(s))
  {
    hide Denotes, Accepts, Compacted, Tail, Segments.Match;
    CompactedNext(segments, 0);
    var t := Tail(segments, 1, false);
    var r := Optional(Cat(Star(Any), Char('/')));
    FirstTail(segments);
    assert segments == [DOUBLE_STAR] + segments[1..];
    TailFresh(segments, 1);
    if Accepts([r] + t, s) {
      var k := AcceptsUncons(r, t, s);
      AnySlashDenotes(s[..k]);
      FreshAgrees(segments, 1, s[k..]);
      SuffixMatches(segments, 1, s, k);
    }
    if Segments.Match(segments, Split(s)) {
      var j := MatchHasSuffix(segments, 1, s);
      AnySlashDenotes(s[..j]);
      AcceptsCons([r] + t, s, j, t);
    }
  }

  // Compacting a run of "**" keeps the meaning.
  lemma {:induction false} CompactKeepsMeaning(afterStar: bool, segments: seq<string>, values: seq<string>)
    ensures !afterStar ==> (Segments.Match(Compact(false, segments), values) <==> Segments.Match(segments, values))
    ensures afterStar ==>
              (Segments.Match([DOUBLE_STAR] + Compact(true, segments), values) <==>
               Segments.Match([DOUBLE_STAR] + segments, values))
    decreases |segments|, 3
  {
    if afterStar {
      StarredCompact(segments, values);
    } else if segments != [] {
      var rest := segments[1..];
      assert segments == [segments[0]] + rest;
      if segments[0] == DOUBLE_STAR {
        CompactKeepsMeaning(true, rest, values);
      } else if values != [] {
        CompactKeepsMeaning(false, rest, values[1..]);
      }
    }
  }

  lemma {:induction false} StarredCompact(segments: seq<string>, values: seq<string>)
    ensures Segments.Match([DOUBLE_STAR] + Compact(true, segments), values) <==>
            Segments.Match([DOUBLE_STAR] + segments, values)
    decreases |segments|, 2
  {
    var compact := Compact(true, segments);
    if segments != [] && segments[0] == DOUBLE_STAR {
      CompactKeepsMeaning(true, segments[1..], values);
      assert segments == [DOUBLE_STAR] + segments[1..];
      DoubleStarTwice(segments[1..], values);
    } else {
      assert compact == Compact(false, segments);
      forall k | 0 <= k <= |values|
        ensures Segments.Match(compact, values[k..]) <==> Segments.Match(segments, values[k..])
      {
        PlainCompact(segments, values[k..]);
      }
      if Segments.Match([DOUBLE_STAR] + compact, values) {
        var k := Segments.DoubleStarSuffix(compact, values);
        Segments.DoubleStarTakes(segments, values, k);
      }
      if Segments.Match([DOUBLE_STAR] + segments, values) {
        var k := Segments.DoubleStarSuffix(segments, values);
        Segments.DoubleStarTakes(compact, values, k);
      }
    }
  }

  lemma {:induction false} PlainCompact(segments: seq<string>, values: seq<string>)
    requires segments == [] || segments[0] != DOUBLE_STAR
    ensures Segments.Match(Compact(false, segments), values) <==> Segments.Match(segments, values)
    decreases |segments|, 0
  {
    if segments != [] && values != [] {
      CompactKeepsMeaning(false, segments[1..], values[1..]);
    }
  }

  lemma DoubleStarTwice(rest: seq<string>, values: seq<string>)
    ensures Segments.Match([DOUBLE_STAR] + ([DOUBLE_STAR] + rest), values) <==> Segments.Match([DOUBLE_STAR] + rest, values)
  {
    var once := [DOUBLE_STAR] + rest;
    if Segments.Match([DOUBLE_STAR] + once, values) {
      var j := Segments.DoubleStarSuffix(once, values);
      var k := Segments.DoubleStarSuffix(rest, values[j..]);
      assert values[j..][k..] == values[j + k..];
      Segments.DoubleStarTakes(rest, values, j + k);
    }
    if Segments.Match(once, values) {
      assert values[0..] == values;
      Segments.DoubleStarTakes(once, values, 0);
    }
  }

  lemma {:induction false} CompactIsCompacted(afterStar: bool, segments: seq<string>)
    requires forall i :: 0 <= i < |segments| ==> segments[i] == DOUBLE_STAR || PlainSegment(segments[i])
    ensures var r := Compact(afterStar, segments);
            && (forall i :: 0 <= i < |r| ==> r[i] == DOUBLE_STAR || PlainSegment(r[i]))
            && (forall i :: 0 <= i < |r| - 1 ==> !(r[i] == DOUBLE_STAR && r[i + 1] == DOUBLE_STAR))
            && (afterStar && r != [] ==> r[0] != DOUBLE_STAR)
            && (!afterStar && segments != [] ==> r != [])
    decreases |segments|
  {
    if segments != [] {
      CompactIsCompacted(true, segments[1..]);
      CompactIsCompacted(false, segments[1..]);
    }
  }

  // The compiled expression of an accepted pattern accepts a value exactly when the
  // segments of the value can be cut up as the segments of the pattern say.
  lemma ExpressionAgrees(pattern: string, value: string)
    requires forall i :: 0 <= i < |Split(pattern)| ==> Split(pattern)[i] == DOUBLE_STAR || PlainSegment(Split(pattern)[i])
    ensures Accepts(Expression(pattern), value) <==> Segments.Denotes(Split(pattern), Split(value))
  {
    CompactIsCompacted(false, Split(pattern));
    WholeAgrees(Compact(false, Split(pattern)), value);
    CompactKeepsMeaning(false, Split(pattern), Split(value));
    Segments.MatchIsDenotes(Split(pattern), Split(value));
  }
}
