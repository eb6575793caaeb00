// Where the ambiguity check is exact: rules that it refuses overlap in every dimension, and for plain
// texts and prefixes it reports no overlap that is not there.
module AmbiguityLaws {
  import opened Options
  import opened Text
  import Glob
  import Segments
  import PathPatterns
  import opened Rules
  import opened Ambiguity

  // With a literal on one side the check is exact.
  lemma LiteralOverlapIsExact(left: string, right: string)
    requires LiteralValue(left).Some? && Glob.Parse(right).Some?
    ensures PatternsMayOverlap(left, right) <==> exists value :: Glob.Matches(left, value) && Glob.Matches(right, value)
    ensures PatternsMayOverlap(right, left) <==> PatternsMayOverlap(left, right)
  {
    var l := LiteralValue(left).value;
    LiteralMatchesItself(left, l);
    if PatternsMayOverlap(left, right) {
      if LiteralValue(right).Some? {
        LiteralMatchesItself(right, l);
      }
      assert Glob.Matches(left, l) && Glob.Matches(right, l);
    }
    if value :| Glob.Matches(left, value) && Glob.Matches(right, value) {
      GlobOverlapIsSound(left, right, value);
    }
  }

  // Two prefixes followed by a star overlap exactly if one prefix starts with the other, and then they
  // have a value in common, unless a segment ends within the longer one.
  lemma PrefixOverlapIsExact(left: string, right: string)
    requires Plain(left) && Plain(right) && left != "" && right != ""
    ensures PatternsMayOverlap(left + "*", right + "*") <==> left <= right || right <= left
    ensures left <= right && NoSlash(right[|left|..]) ==>
              Glob.Matches(left + "*", right) && Glob.Matches(right + "*", right)
  {
    PrefixOfStar(left);
    PrefixOfStar(right);
    assert left == (left + "*")[..|left|] && right == (right + "*")[..|right|];
    if left <= right && NoSlash(right[|left|..]) {
      assert right == left + right[|left|..];
      StarMatches(left, right[|left|..]);
      assert right == right + "";
      StarMatches(right, "");
    }
  }

  predicate Plain(s: string) {
    forall i :: 0 <= i < |s| ==> s[i] !in "*?[\\"
  }

  lemma {:induction false} PrefixOfStar(s: string)
    requires Plain(s)
    ensures LiteralPrefix(s + "*") == s && LiteralValue(s + "*") == None
  {
    if s != "" {
      assert (s + "*")[1..] == s[1..] + "*" && (s + "*")[0] == s[0];
      PrefixOfStar(s[1..]);
      assert s == [s[0]] + s[1..];
    }
  }

  lemma {:induction false} StarMatches(s: string, rest: string)
    requires Plain(s) && NoSlash(rest)
    ensures Glob.Matches(s + "*", s + rest)
  {
    if s == "" {
      assert "" + "*" == "*" && "" + rest == rest && "*"[1..] == "";
      assert [Glob.AnyRun] + [] == [Glob.AnyRun];
      assert Glob.Parse("*") == Some([Glob.AnyRun]);
      AnyRunTakes(rest);
    } else {
      assert (s + "*")[1..] == s[1..] + "*" && (s + rest)[1..] == s[1..] + rest;
      StarMatches(s[1..], rest);
      var tokens := Glob.Parse(s[1..] + "*").value;
      assert Glob.Parse(s + "*") == Some([Glob.Exactly(s[0])] + tokens);
      assert ([Glob.Exactly(s[0])] + tokens)[1..] == tokens;
    }
  }

  lemma {:induction false} AnyRunTakes(rest: string)
    requires NoSlash(rest)
    ensures Glob.TokensMatch([Glob.AnyRun], rest)
  {
    assert [Glob.AnyRun][1..] == [];
    if rest != "" {
      AnyRunTakes(rest[1..]);
    }
  }

  // For path globs the check is exact if the literal is a path that its own pattern matches.
  lemma PathLiteralIsExact(left: string, right: string)
    requires LiteralValue(left).Some? && PathPatterns.PathMatch([left], LiteralValue(left).value)
    requires LiteralValue(right).Some? ==> PathPatterns.PathMatch([right], LiteralValue(right).value)
    ensures PathValuesMayOverlap(left, right) <==> PathPatterns.PathMatch([right], LiteralValue(left).value)
  {
    if PathPatterns.PathMatch([right], LiteralValue(left).value) {
      PathOverlapIsSound(left, right, LiteralValue(left).value);
    }
  }

  lemma RecursiveLiteralIsExact(left: string, right: string)
    requires PathPatterns.ValidRecursivePathGlob(left) && PathPatterns.ValidRecursivePathGlob(right)
    requires LiteralValue(left).Some? && PathPatterns.RecursivePathMatch([left], LiteralValue(left).value)
    requires LiteralValue(right).Some? ==> PathPatterns.RecursivePathMatch([right], LiteralValue(right).value)
    ensures RecursivePathValuesMayOverlap(left, right) <==> PathPatterns.RecursivePathMatch([right], LiteralValue(left).value)
  {
    if PathPatterns.RecursivePathMatch([right], LiteralValue(left).value) {
      RecursiveOverlapIsSound(left, right, LiteralValue(left).value);
    }
  }

  // Rules that share no credential use, no client, no operation, no kind of target, or no value of a
  // field or attribute that both constrain literally are never reported.
  lemma DisjointRulesAreAccepted(left: Rule, right: Rule, registry: Registry)
    requires || (forall use :: use in left.credentialUses ==> use !in right.credentialUses)
             || DisjointTexts(left.clients, right.clients)
             || (forall name :: name in left.operations ==> name !in right.operations)
             || (forall i, j :: 0 <= i < |left.targets| && 0 <= j < |right.targets| ==>
                   DisjointTargets(left.targets[i], right.targets[j], registry))
    ensures !RequestRulesMayOverlap(left, right, registry)
  {
    hide AttrsMayOverlap, PatternsMayOverlap, PatternMapsMayOverlap, DisjointTexts, DisjointTargets;
    if DisjointTexts(left.clients, right.clients) {
      forall i, j | 0 <= i < |left.clients| && 0 <= j < |right.clients| ensures !PatternsMayOverlap(left.clients[i], right.clients[j]) {
        TextsDisjoint(left.clients, right.clients, i, j);
      }
    }
    forall i, j | 0 <= i < |left.targets| && 0 <= j < |right.targets| && left.targets[i].kind == right.targets[j].kind
                  && DisjointTargets(left.targets[i], right.targets[j], registry)
      ensures !PatternMapsMayOverlap(left.targets[i].fields, right.targets[j].fields, FieldsOf(registry, left.targets[i].kind))
    {
      TargetsDisjoint(left.targets[i], right.targets[j], registry);
    }
  }

  // Literal patterns of which none stands for the same text as one on the other side.
  ghost predicate DisjointTexts(left: seq<string>, right: seq<string>) {
    forall i, j :: 0 <= i < |left| && 0 <= j < |right| ==>
                     LiteralValue(left[i]).Some? && LiteralValue(right[j]).Some? && LiteralValue(left[i]) != LiteralValue(right[j])
  }

  ghost predicate DisjointTargets(left: Target, right: Target, registry: Registry) {
    || left.kind != right.kind
    || exists name :: name in left.fields && name in right.fields
                      && Defaulted(ModeOf(FieldsOf(registry, left.kind), name)).GlobMode?
                      && DisjointTexts(left.fields[name], right.fields[name])
  }

  lemma TextsDisjoint(left: seq<string>, right: seq<string>, i: nat, j: nat)
    requires DisjointTexts(left, right) && i < |left| && j < |right|
    ensures !PatternsMayOverlap(left[i], right[j])
  {
  }

  lemma TargetsDisjoint(left: Target, right: Target, registry: Registry)
    requires DisjointTargets(left, right, registry) && left.kind == right.kind
    ensures !PatternMapsMayOverlap(left.fields, right.fields, FieldsOf(registry, left.kind))
  {
    hide PatternsMayOverlap, DisjointTexts;
    var fields := FieldsOf(registry, left.kind);
    var name :| name in left.fields && name in right.fields && Defaulted(ModeOf(fields, name)).GlobMode?
                && DisjointTexts(left.fields[name], right.fields[name]);
    forall i, j | 0 <= i < |left.fields[name]| && 0 <= j < |right.fields[name]|
      ensures !PatternsMayOverlap(left.fields[name][i], right.fields[name][j])
    {
      TextsDisjoint(left.fields[name], right.fields[name], i, j);
    }
    assert !MatchValuesMayOverlap(left.fields[name], right.fields[name], ModeOf(fields, name));
  }

  // --- Globs stay within a segment.

  // Only a bracket or an explicit slash lets a pattern match a slash.
  lemma {:induction false} GlobStaysInSegment(pattern: string, value: string)
    requires Glob.Matches(pattern, value) && '/' !in pattern && '[' !in pattern
    ensures NoSlash(value)
    decreases |pattern| + |value|
  {
    var tokens := Glob.Parse(pattern).value;
    TokensOf(pattern);
    TokensStayInSegment(tokens, value);
  }

  ghost predicate SegmentTokens(tokens: seq<Glob.Token>) {
    forall i :: 0 <= i < |tokens| ==> tokens[i].AnyRun? || tokens[i].AnyOne? || (tokens[i].Exactly? && tokens[i].c != '/')
  }

  lemma {:induction false} TokensOf(pattern: string)
    requires Glob.Parse(pattern).Some? && '/' !in pattern && '[' !in pattern
    ensures SegmentTokens(Glob.Parse(pattern).value)
    decreases |pattern|
  {
    if pattern != "" {
      TokensOf(pattern[if pattern[0] == '\\' then 2 else 1..]);
    }
  }

  lemma {:induction false} TokensStayInSegment(tokens: seq<Glob.Token>, value: string)
    requires SegmentTokens(tokens) && Glob.TokensMatch(tokens, value)
    ensures NoSlash(value)
    decreases |tokens| + |value|
  {
    if tokens != [] {
      assert tokens[1..] == tokens[1..];
      if tokens[0].AnyRun? {
        if Glob.TokensMatch(tokens[1..], value) {
          TokensStayInSegment(tokens[1..], value);
        } else {
          TokensStayInSegment(tokens, value[1..]);
        }
      } else {
        TokensStayInSegment(tokens[1..], value[1..]);
      }
    }
  }

  // A class matches exactly the characters of its range, or exactly the others.
  lemma ClassMeans(lo: char, hi: char, c: char)
    requires lo !in "]-\\^" && hi !in "]-\\"
    ensures Glob.Matches("[" + [lo] + "-" + [hi] + "]", [c]) <==> lo <= c <= hi
    ensures Glob.Matches("[^" + [lo] + "-" + [hi] + "]", [c]) <==> !(lo <= c <= hi)
  {
    var body := [lo] + "-" + [hi] + "]";
    RangeParses(lo, hi);
    assert ("[" + body)[1..] == body && ("[^" + body)[2..] == body;
    assert "[" + [lo] + "-" + [hi] + "]" == "[" + body && "[^" + [lo] + "-" + [hi] + "]" == "[^" + body;
    ClassAlone(false, lo, hi, c);
    ClassAlone(true, lo, hi, c);
    assert Glob.Parse("") == Some([]);
  }

  lemma RangeParses(lo: char, hi: char)
    requires lo !in "]-\\" && hi !in "]-\\"
    ensures Glob.ParseRanges([lo] + "-" + [hi] + "]", 0) == Some(([(lo, hi)], ""))
  {
    var body := [lo] + "-" + [hi] + "]";
    assert body[1..] == "-" + [hi] + "]" && body[1..][1..] == [hi] + "]" && ([hi] + "]")[1..] == "]" && "]"[1..] == "";
    assert Glob.ParseClassChar(body) == Some((lo, body[1..]));
    assert Glob.ParseClassChar([hi] + "]") == Some((hi, "]"));
    assert Glob.ParseRanges("]", 1) == Some(([], ""));
    assert [(lo, hi)] + [] == [(lo, hi)];
  }

  lemma ClassAlone(negated: bool, lo: char, hi: char, c: char)
    ensures Glob.TokensMatch([Glob.Class(negated, [(lo, hi)])] + [], [c]) <==> ((lo <= c <= hi) != negated)
  {
    var tokens := [Glob.Class(negated, [(lo, hi)])] + [];
    assert tokens[1..] == [] && [c][1..] == "" && [(lo, hi)][0] == (lo, hi);
    assert Glob.TokensMatch([], "");
  }
}
