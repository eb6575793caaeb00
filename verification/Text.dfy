// The string operations of Go's strings package that the policy code uses, on
// sequences of Unicode scalar values.
module Text {
  ghost predicate NoSlash(s: string) {
    forall i :: 0 <= i < |s| ==> s[i] != '/'
  }

  // strings.Split(s, "/")
  function Split(s: string): (r: seq<string>)
    ensures |r| >= 1
  {
    if s == "" then [""]
    else if s[0] == '/' then [""] + Split(s[1..])
    else
      var rest := Split(s[1..]);
      [[s[0]] + rest[0]] + rest[1..]
  }

  // The first segment ends the string or is followed by a slash and the rest.
  lemma {:induction false} SplitFirst(s: string)
    ensures var first := Split(s)[0];
            && NoSlash(first) && |first| <= |s| && s[..|first|] == first
            && (|first| == |s| ==> Split(s) == [s])
            && (|first| < |s| ==> s[|first|] == '/' && Split(s) == [first] + Split(s[|first| + 1..]))
  {
    if s != "" && s[0] != '/' {
      SplitFirst(s[1..]);
      SplitPrepend(s, s[1..], Split(s[1..])[0]);
    }
  }

  lemma SplitPrepend(s: string, rest: string, first: string)
    requires s != "" && s[0] != '/' && rest == s[1..] && first == Split(rest)[0]
    requires |first| <= |rest| && rest[..|first|] == first
    ensures Split(s) == [[s[0]] + first] + Split(rest)[1..]
    ensures s[..|first| + 1] == [s[0]] + first
    ensures |first| < |rest| ==> s[|first| + 1] == rest[|first|] && s[|first| + 2..] == rest[|first| + 1..]
    ensures |first| == |rest| ==> s == [s[0]] + first
  {
    assert s == [s[0]] + rest;
  }

  lemma {:induction false} SplitAt(a: string, b: string)
    requires NoSlash(a)
    ensures Split(a) == [a]
    ensures Split(a + "/" + b) == [a] + Split(b)
  {
    if a == "" {
      assert ("" + "/" + b)[1..] == b;
    } else {
      SplitAt(a[1..], b);
      assert (a + "/" + b)[1..] == a[1..] + "/" + b;
      assert a == [a[0]] + a[1..];
    }
  }

  // A suffix that starts at the beginning or after a slash is a suffix of the segments,
  lemma {:induction false} SuffixSegments(s: string, j: nat) returns (k: nat)
    requires j <= |s| && (j == 0 || s[j - 1] == '/')
    ensures k < |Split(s)| && Split(s[j..]) == Split(s)[k..]
    decreases |s|, 1
  {
    if j == 0 {
      assert s[0..] == s;
      return 0;
    }
    SplitFirst(s);
    var first := Split(s)[0];
    assert j <= |first| ==> first[j - 1] == s[..|first|][j - 1];
    k := SuffixOfRest(s, |first|, j);
  }

  lemma SuffixOfRest(s: string, n: nat, j: nat) returns (k: nat)
    requires n < j <= |s| && s[n] == '/' && s[j - 1] == '/'
    requires Split(s) == [s[..n]] + Split(s[n + 1..])
    ensures k < |Split(s)| && Split(s[j..]) == Split(s)[k..]
    decreases |s|, 0
  {
    var rest, m := s[n + 1..], j - n - 1;
    assert m > 0 ==> rest[m - 1] == s[j - 1];
    var k' := SuffixSegments(rest, m);
    assert s[j..] == rest[m..];
    k := k' + 1;
    assert Split(s)[k..] == Split(rest)[k'..];
  }

  // and every suffix of the segments comes from such a suffix.
  lemma {:induction false} SegmentsSuffix(s: string, k: nat) returns (j: nat)
    requires k < |Split(s)|
    ensures j <= |s| && (j == 0 || s[j - 1] == '/')
    ensures Split(s[j..]) == Split(s)[k..]
    decreases |s|
  {
    if k == 0 {
      assert s[0..] == s;
      return 0;
    }
    SplitFirst(s);
    var first := Split(s)[0];
    var rest := s[|first| + 1..];
    var j' := SegmentsSuffix(rest, k - 1);
    j := |first| + 1 + j';
    assert s[j..] == rest[j'..];
    assert Split(s)[k..] == Split(rest)[k - 1..];
    assert j' > 0 ==> rest[j' - 1] == s[j - 1];
  }

  // len(s): the number of bytes of the UTF-8 encoding.
  function ByteLength(s: string): nat {
    if s == "" then 0 else CharBytes(s[0]) + ByteLength(s[1..])
  }

  function CharBytes(c: char): nat {
    if c as int < 0x80 then 1 else if c as int < 0x800 then 2 else if c as int < 0x10000 then 3 else 4
  }

  // strings.Count(s, "/")
  function CountSlashes(s: string): nat {
    if s == "" then 0 else (if s[0] == '/' then 1 else 0) + CountSlashes(s[1..])
  }

  // strings.TrimSpace(s) == ""
  predicate Blank(s: string) {
    forall i :: 0 <= i < |s| ==> IsSpace(s[i])
  }

  // unicode.IsSpace
  predicate IsSpace(c: char) {
    var n := c as int;
    (0x09 <= n <= 0x0D) || n == 0x20 || n == 0x85 || n == 0xA0 || n == 0x1680 || (0x2000 <= n <= 0x200A)
    || n == 0x2028 || n == 0x2029 || n == 0x202F || n == 0x205F || n == 0x3000
  }
}
