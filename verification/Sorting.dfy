// The sorting that Go's slices and strings packages provide: a permutation in the given order, which
// is unique when the order tells the elements apart.
module Sorting {
  // strings.Compare(a, b) <= 0. The byte order of UTF-8 is the order of the scalar values.
  predicate TextLeq(a: string, b: string) {
    a == [] || (b != [] && (a[0] < b[0] || (a[0] == b[0] && TextLeq(a[1..], b[1..]))))
  }

  lemma {:induction false} TextIsTotal(a: string, b: string)
    ensures TextLeq(a, b) || TextLeq(b, a)
  {
    if a != [] && b != [] && a[0] == b[0] {
      TextIsTotal(a[1..], b[1..]);
    }
  }

  lemma {:induction false} TextIsTransitive(a: string, b: string, c: string)
    requires TextLeq(a, b) && TextLeq(b, c)
    ensures TextLeq(a, c)
  {
    if a != [] && a[0] == b[0] && b[0] == c[0] {
      TextIsTransitive(a[1..], b[1..], c[1..]);
    }
  }

  lemma {:induction false} TextIsAntisymmetric(a: string, b: string)
    requires TextLeq(a, b) && TextLeq(b, a)
    ensures a == b
  {
    if a != [] {
      TextIsAntisymmetric(a[1..], b[1..]);
      assert a == [a[0]] + a[1..] && b == [b[0]] + b[1..];
    }
  }

  // The order of a dictionary: a prefix comes first, and otherwise the first difference decides.
  lemma {:induction false} TextOrderMeans(a: string, b: string)
    ensures TextLeq(a, b)
            <==> a <= b || exists k :: 0 <= k < |a| && k < |b| && a[..k] == b[..k] && a[k] < b[k]
  {
    if a != [] && b != [] && a[0] == b[0] {
      TextOrderMeans(a[1..], b[1..]);
      if k :| 0 <= k < |a[1..]| && k < |b[1..]| && a[1..][..k] == b[1..][..k] && a[1..][k] < b[1..][k] {
        assert a[..k + 1] == [a[0]] + a[1..][..k] && b[..k + 1] == [b[0]] + b[1..][..k];
        assert a[k + 1] < b[k + 1];
      }
      if k :| 0 <= k < |a| && k < |b| && a[..k] == b[..k] && a[k] < b[k] {
        assert k > 0 && a[1..][..k - 1] == a[..k][1..] && b[1..][..k - 1] == b[..k][1..];
        assert a[1..][k - 1] < b[1..][k - 1];
      }
      assert a == [a[0]] + a[1..] && b == [b[0]] + b[1..];
    }
  }

  ghost predicate TotalOrder<T(!new)>(leq: (T, T) -> bool) {
    && (forall x, y :: leq(x, y) || leq(y, x))
    && forall x, y, z :: leq(x, y) && leq(y, z) ==> leq(x, z)
  }

  predicate SortedBy<T>(s: seq<T>, leq: (T, T) -> bool) {
    forall i, j :: 0 <= i < j < |s| ==> leq(s[i], s[j])
  }

  function Insert<T>(x: T, s: seq<T>, leq: (T, T) -> bool): seq<T> {
    if s == [] || leq(x, s[0]) then [x] + s else [s[0]] + Insert(x, s[1..], leq)
  }

  function Sort<T>(s: seq<T>, leq: (T, T) -> bool): seq<T> {
    if s == [] then [] else Insert(s[0], Sort(s[1..], leq), leq)
  }

  lemma {:induction false} InsertPermutes<T>(x: T, s: seq<T>, leq: (T, T) -> bool)
    ensures multiset(Insert(x, s, leq)) == multiset(s) + multiset{x}
    ensures |Insert(x, s, leq)| == |s| + 1
  {
    if s != [] && !leq(x, s[0]) {
      InsertPermutes(x, s[1..], leq);
      assert s == [s[0]] + s[1..];
    }
  }

  lemma {:induction false} SortPermutes<T>(s: seq<T>, leq: (T, T) -> bool)
    ensures multiset(Sort(s, leq)) == multiset(s)
    ensures |Sort(s, leq)| == |s|
  {
    if s != [] {
      SortPermutes(s[1..], leq);
      InsertPermutes(s[0], Sort(s[1..], leq), leq);
      assert s == [s[0]] + s[1..];
    }
  }

  lemma SortMembers<T>(s: seq<T>, leq: (T, T) -> bool, x: T)
    ensures x in Sort(s, leq) <==> x in s
  {
    SortPermutes(s, leq);
    assert x in multiset(s) <==> x in s;
    assert x in multiset(Sort(s, leq)) <==> x in Sort(s, leq);
  }

  lemma {:induction false} InsertSorts<T(!new)>(x: T, s: seq<T>, leq: (T, T) -> bool)
    requires TotalOrder(leq) && SortedBy(s, leq)
    ensures SortedBy(Insert(x, s, leq), leq)
  {
    if s != [] {
      if leq(x, s[0]) {
        assert forall j :: 0 < j < |s| ==> leq(s[0], s[j]);
        assert forall j :: 0 <= j < |s| ==> leq(x, s[j]);
      } else {
        InsertSorts(x, s[1..], leq);
        InsertPermutes(x, s[1..], leq);
        var rest := Insert(x, s[1..], leq);
        forall j | 0 <= j < |rest| ensures leq(s[0], rest[j]) {
          assert rest[j] in multiset(rest);
          assert rest[j] == x || rest[j] in s[1..];
        }
      }
    }
  }

  lemma {:induction false} SortSorts<T(!new)>(s: seq<T>, leq: (T, T) -> bool)
    requires TotalOrder(leq)
    ensures SortedBy(Sort(s, leq), leq)
  {
    if s != [] {
      SortSorts(s[1..], leq);
      InsertSorts(s[0], Sort(s[1..], leq), leq);
    }
  }

  // The order tells the elements apart.
  ghost predicate Separates<T(!new)>(leq: (T, T) -> bool, s: seq<T>) {
    forall x, y :: x in s && y in s && leq(x, y) && leq(y, x) ==> x == y
  }

  lemma HeadAndTail<T>(s: seq<T>)
    requires s != []
    ensures s == [s[0]] + s[1..] && multiset(s[1..]) == multiset(s) - multiset{s[0]}
  {
  }

  lemma {:induction false} SortedIsUnique<T(!new)>(a: seq<T>, b: seq<T>, leq: (T, T) -> bool)
    requires TotalOrder(leq) && SortedBy(a, leq) && SortedBy(b, leq) && Separates(leq, a)
    requires multiset(a) == multiset(b)
    ensures a == b
  {
    assert |a| == |multiset(a)| == |multiset(b)| == |b|;
    if a != [] {
      HeadsAgree(a, b, leq);
      HeadAndTail(a);
      HeadAndTail(b);
      hide TotalOrder;
      SortedIsUnique(a[1..], b[1..], leq);
    }
  }

  lemma HeadsAgree<T(!new)>(a: seq<T>, b: seq<T>, leq: (T, T) -> bool)
    requires TotalOrder(leq) && SortedBy(a, leq) && SortedBy(b, leq) && Separates(leq, a)
    requires multiset(a) == multiset(b) && a != [] && b != []
    ensures a[0] == b[0]
  {
    assert a[0] in multiset(b) && b[0] in multiset(a);
    var i :| 0 <= i < |b| && b[i] == a[0];
    var j :| 0 <= j < |a| && a[j] == b[0];
    assert leq(b[0], b[i]) && leq(a[0], a[j]);
  }

  // Sorting depends only on what is sorted.
  lemma SortOfPermutation<T(!new)>(a: seq<T>, b: seq<T>, leq: (T, T) -> bool)
    requires TotalOrder(leq) && Separates(leq, a) && multiset(a) == multiset(b)
    ensures Sort(a, leq) == Sort(b, leq)
  {
    SortPermutes(a, leq);
    SortPermutes(b, leq);
    SortSorts(a, leq);
    SortSorts(b, leq);
    forall x, y | x in Sort(a, leq) && y in Sort(a, leq) && leq(x, y) && leq(y, x) ensures x == y {
      SortMembers(a, leq, x);
      SortMembers(a, leq, y);
    }
    SortedIsUnique(Sort(a, leq), Sort(b, leq), leq);
  }

  function SortTexts(s: seq<string>): seq<string> { Sort(s, TextLeq) }

  lemma SortTextsMembers(s: seq<string>, x: string)
    ensures x in SortTexts(s) <==> x in s
  {
    SortMembers(s, TextLeq, x);
  }

  lemma TextOrder(s: seq<string>)
    ensures TotalOrder(TextLeq) && Separates(TextLeq, s)
  {
    forall x, y ensures TextLeq(x, y) || TextLeq(y, x) { TextIsTotal(x, y); }
    forall x, y, z | TextLeq(x, y) && TextLeq(y, z) ensures TextLeq(x, z) { TextIsTransitive(x, y, z); }
    forall x, y | x in s && y in s && TextLeq(x, y) && TextLeq(y, x) ensures x == y { TextIsAntisymmetric(x, y); }
  }

  lemma SortTextsAgain(s: seq<string>)
    ensures SortTexts(SortTexts(s)) == SortTexts(s)
  {
    TextOrder(s);
    SortPermutes(s, TextLeq);
    SortOfPermutation(s, SortTexts(s), TextLeq);
  }

  // --- Distinct sequences.

  ghost predicate Distinct<T>(s: seq<T>) { forall i, j :: 0 <= i < j < |s| ==> s[i] != s[j] }

  lemma {:induction false} DistinctCounts<T>(s: seq<T>, x: T)
    requires Distinct(s)
    ensures multiset(s)[x] == if x in s then 1 else 0
  {
    if s != [] {
      DistinctCounts(s[1..], x);
      assert s == [s[0]] + s[1..];
      assert s[0] !in s[1..];
    }
  }

  lemma DistinctPermutes<T>(a: seq<T>, b: seq<T>)
    requires Distinct(a) && Distinct(b) && forall x :: x in a <==> x in b
    ensures multiset(a) == multiset(b)
  {
    forall x: T ensures multiset(a)[x] == multiset(b)[x] {
      DistinctCounts(a, x);
      DistinctCounts(b, x);
    }
  }

  lemma PermutationIsDistinct<T>(a: seq<T>, b: seq<T>)
    requires Distinct(a) && multiset(a) == multiset(b)
    ensures Distinct(b)
  {
    forall i, j | 0 <= i < j < |b| ensures b[i] != b[j] {
      DistinctCounts(a, b[i]);
      assert b == b[..j] + b[j..];
      assert b[i] in b[..j] && b[j] in b[j..];
      assert multiset(b)[b[i]] == multiset(b[..j])[b[i]] + multiset(b[j..])[b[i]];
    }
  }

  // --- Lists compared as unordered sets.

  // slices.Compact
  function Compact(s: seq<string>): seq<string> {
    if |s| <= 1 then s
    else if s[0] == s[1] then Compact(s[1..])
    else [s[0]] + Compact(s[1..])
  }

  // copyx.CanonicalStringSlice: sorted, without duplicates.
  function Canonical(s: seq<string>): seq<string> { Compact(SortTexts(s)) }

  ghost predicate SameElements(a: seq<string>, b: seq<string>) {
    forall x :: x in a <==> x in b
  }

  lemma {:induction false} CompactMembers(s: seq<string>, x: string)
    ensures x in Compact(s) <==> x in s
    ensures s != [] ==> Compact(s) != [] && Compact(s)[0] == s[0]
  {
    if |s| > 1 {
      assert s == [s[0]] + s[1..];
      CompactMembers(s[1..], x);
    }
  }

  lemma {:induction false} CompactSorts(s: seq<string>)
    requires TotalOrder(TextLeq) && Separates(TextLeq, s) && SortedBy(s, TextLeq)
    ensures SortedBy(Compact(s), TextLeq) && Distinct(Compact(s))
  {
    if |s| > 1 {
      var rest := Compact(s[1..]);
      CompactSorts(s[1..]);
      if s[0] != s[1] {
        forall j | 0 <= j < |rest| ensures TextLeq(s[0], rest[j]) && s[0] != rest[j] {
          CompactMembers(s[1..], rest[j]);
          NotAgain(s, rest[j]);
        }
      }
    }
  }

  // What is smaller than the next element of a sorted sequence does not occur again.
  lemma NotAgain(s: seq<string>, x: string)
    requires |s| > 1 && SortedBy(s, TextLeq) && Separates(TextLeq, s) && s[0] != s[1] && x in s[1..]
    ensures TextLeq(s[0], x) && s[0] != x
  {
    var i :| 1 <= i < |s| && s[i] == x;
    assert TextLeq(s[0], s[1]) && (i > 1 ==> TextLeq(s[1], s[i]));
  }

  lemma CanonicalMembers(s: seq<string>, x: string)
    ensures x in Canonical(s) <==> x in s
  {
    CompactMembers(SortTexts(s), x);
    SortTextsMembers(s, x);
  }

  lemma CanonicalIsStrict(s: seq<string>)
    ensures SortedBy(Canonical(s), TextLeq) && Distinct(Canonical(s))
  {
    TextOrder(SortTexts(s));
    SortSorts(s, TextLeq);
    CompactSorts(SortTexts(s));
  }

  // Comparing canonical lists is comparing the sets of their elements.
  lemma CanonicalAgrees(a: seq<string>, b: seq<string>)
    ensures Canonical(a) == Canonical(b) <==> SameElements(a, b)
  {
    hide Compact, SortedBy;
    forall x ensures (x in Canonical(a) <==> x in a) && (x in Canonical(b) <==> x in b) {
      CanonicalMembers(a, x);
      CanonicalMembers(b, x);
    }
    if SameElements(a, b) {
      CanonicalIsStrict(a);
      CanonicalIsStrict(b);
      DistinctPermutes(Canonical(a), Canonical(b));
      TextOrder(Canonical(a));
      SortedIsUnique(Canonical(a), Canonical(b), TextLeq);
    }
  }

  lemma CanonicalAgain(s: seq<string>)
    ensures Canonical(Canonical(s)) == Canonical(s)
  {
    forall x ensures x in Canonical(s) <==> x in s { CanonicalMembers(s, x); }
    CanonicalAgrees(Canonical(s), s);
  }
}
