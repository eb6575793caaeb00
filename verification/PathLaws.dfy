// Which path globs both engines take, and that a plain path is matched by itself in both.
module PathLaws {
  import opened Options
  import opened Text
  import Glob
  import Segments
  import opened PathPatterns
  import Ambiguity

  // --- The shared domain.

  lemma {:induction false} SlashesAreCuts(s: string)
    ensures CountSlashes(s) + 1 == |Split(s)|
  {
    if s != "" {
      SlashesAreCuts(s[1..]);
    }
  }

  lemma {:induction false} WithoutBracketsParses(s: string)
    requires '[' !in s && '\\' !in s
    ensures Glob.Parse(s).Some?
  {
    if s != "" {
      WithoutBracketsParses(s[1..]);
    }
  }

  // A segment of a pattern that both engines take.
  predicate SharedSegment(segment: string) {
    segment != "" && segment != ".." && (segment == "**" || !ContainsDoubleStar(segment))
  }

  // Both validators accept exactly the patterns of at most 1024 bytes and 256 segments without brackets
  // and backslashes whose segments are not empty, not "..", and use `**` only as a whole.
  lemma SharedDomain(pattern: string)
    ensures ValidPathGlob(pattern) && ValidRecursivePathGlob(pattern)
            <==> && '[' !in pattern && ']' !in pattern && '\\' !in pattern
                 && ByteLength(pattern) <= 1024 && |Split(pattern)| <= 256
                 && forall i :: 0 <= i < |Split(pattern)| ==> SharedSegment(Split(pattern)[i])
  {
    hide ByteLength, Glob.Parse, ContainsDoubleStar;
    SlashesAreCuts(pattern);
    if '[' !in pattern && '\\' !in pattern {
      SegmentsAvoid(pattern, '[');
      SegmentsAvoid(pattern, '\\');
      forall i | 0 <= i < |Split(pattern)| ensures Glob.Parse(Split(pattern)[i]).Some? {
        WithoutBracketsParses(Split(pattern)[i]);
      }
    }
    assert pattern != "" && pattern[0] == '/' ==> Split(pattern)[0] == "";
    hide Split;
  }

  // --- A plain path.

  predicate PlainText(s: string) { forall i :: 0 <= i < |s| ==> s[i] !in "*?[]\\" }

  lemma {:induction false} PlainIsLiteral(s: string)
    requires PlainText(s)
    ensures Ambiguity.LiteralValue(s) == Some(s)
  {
    if s != "" {
      PlainIsLiteral(s[1..]);
      assert s == [s[0]] + s[1..];
    }
  }

  lemma {:induction false} PlainSegments(s: string)
    requires PlainText(s)
    ensures forall i :: 0 <= i < |Split(s)| ==> PlainText(Split(s)[i])
  {
    if s != "" {
      PlainSegments(s[1..]);
    }
  }

  lemma {:induction false} PlainMatch(segments: seq<string>)
    requires forall i :: 0 <= i < |segments| ==> PlainText(segments[i])
    ensures Segments.Match(segments, segments)
  {
    if segments != [] {
      PlainIsLiteral(segments[0]);
      Ambiguity.LiteralMatchesItself(segments[0], segments[0]);
      assert segments[0] != "**" by { assert "**"[0] == '*'; }
      PlainMatch(segments[1..]);
    }
  }

  // A plain path of at most 256 nonempty segments and 1024 bytes is matched by itself in both engines,
  // and, as a pattern, by nothing else.
  lemma PlainPathMatchesItself(path: string, value: string)
    requires PlainText(path) && !Blank(path) && ByteLength(path) <= 1024 && |Split(path)| <= 256
    requires forall i :: 0 <= i < |Split(path)| ==> Split(path)[i] != "" && Split(path)[i] != ".."
    ensures PathMatch([path], value) <==> value == path
    ensures RecursivePathMatch([path], value) <==> value == path
  {
    hide ByteLength, Split, Segments.Match, Blank;
    PlainIsLiteral(path);
    PlainSegments(path);
    PlainMatch(Split(path));
    Segments.MatchIsDenotes(Split(path), Split(path));
    SlashesAreCuts(path);
    PlainIsShared(path);
    assert [path][0] == path;
    if PathMatch([path], value) {
      Segments.MatchIsDenotes(Split(path), Split(value));
      Ambiguity.LiteralPathMatch(path, value);
    }
    EnginesAgree([path], value);
  }

  lemma PlainIsShared(path: string)
    requires PlainText(path) && ByteLength(path) <= 1024 && |Split(path)| <= 256
    requires forall i :: 0 <= i < |Split(path)| ==> Split(path)[i] != "" && Split(path)[i] != ".."
    ensures ValidPathGlob(path) && ValidRecursivePathGlob(path)
  {
    hide ByteLength, Split;
    SharedDomain(path);
    PlainSegments(path);
  }
}
