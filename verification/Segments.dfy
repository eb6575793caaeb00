// Recursive path globs: what a list of pattern segments with "**" means, and the
// segment automaton of authorization/policy/match.go:254-302 that decides it.
module Segments {
  import Glob

  const DOUBLE_STAR := "**"

  // The meaning: cut the value segments into consecutive pieces, one for each
  // pattern segment.  "**" takes any number of segments, every other exactly one.
  ghost predicate Cuts(patterns: seq<string>, values: seq<string>, cuts: seq<nat>) {
    && |cuts| == |patterns| + 1
    && cuts[0] == 0
    && cuts[|patterns|] == |values|
    && forall i :: 0 <= i < |patterns| ==> Piece(patterns[i], values, cuts[i], cuts[i + 1])
  }

  ghost predicate Piece(pattern: string, values: seq<string>, lo: nat, hi: nat) {
    && lo <= hi <= |values|
    && (pattern != DOUBLE_STAR ==> hi == lo + 1 && Glob.Matches(pattern, values[lo]))
  }

  ghost predicate Denotes(patterns: seq<string>, values: seq<string>) {
    exists cuts :: Cuts(patterns, values, cuts)
  }

  // The same meaning, read from the front.
  predicate Match(patterns: seq<string>, values: seq<string>)
    decreases |patterns|, |values|
  {
    if patterns == [] then values == []
    else if patterns[0] == DOUBLE_STAR then
      Match(patterns[1..], values) || (values != [] && Match(patterns, values[1..]))
    else values != [] && Glob.Matches(patterns[0], values[0]) && Match(patterns[1..], values[1..])
  }

  lemma MatchIsDenotes(patterns: seq<string>, values: seq<string>)
    ensures Match(patterns, values) <==> Denotes(patterns, values)
  {
    if Match(patterns, values) {
      var cuts := MatchHasCuts(patterns, values);
    }
    if cuts :| Cuts(patterns, values, cuts) {
      CutsMatch(patterns, values, cuts);
    }
  }

  lemma {:induction false} MatchHasCuts(patterns: seq<string>, values: seq<string>) returns (cuts: seq<nat>)
    requires Match(patterns, values)
    ensures Cuts(patterns, values, cuts)
    decreases |patterns|, |values|
  {
    if patterns == [] {
      cuts := [0];
    } else if patterns[0] == DOUBLE_STAR && !Match(patterns[1..], values) {
      var rest := MatchHasCuts(patterns, values[1..]);
      cuts := [0] + Shift(rest[1..], 1);
      forall i | 0 <= i < |patterns| ensures Piece(patterns[i], values, cuts[i], cuts[i + 1]) {
        assert Piece(patterns[i], values[1..], rest[i], rest[i + 1]);
      }
    } else {
      var taken := if patterns[0] == DOUBLE_STAR then 0 else 1;
      var rest := MatchHasCuts(patterns[1..], values[taken..]);
      cuts := [0] + Shift(rest, taken);
      forall i | 0 <= i < |patterns| ensures Piece(patterns[i], values, cuts[i], cuts[i + 1]) {
        assert i > 0 ==> Piece(patterns[1..][i - 1], values[taken..], rest[i - 1], rest[i]);
      }
    }
  }

  function Shift(cuts: seq<nat>, offset: nat): (r: seq<nat>)
    ensures |r| == |cuts| && forall i :: 0 <= i < |cuts| ==> r[i] == cuts[i] + offset
  {
    seq(|cuts|, i requires 0 <= i < |cuts| => cuts[i] + offset)
  }

  // By the front: the first piece leaves a match of the rest.
  lemma {:induction false} CutsMatch(patterns: seq<string>, values: seq<string>, cuts: seq<nat>)
    requires Cuts(patterns, values, cuts)
    ensures Match(patterns, values)
  {
    CutsMatchFrom(patterns, values, cuts, 0);
    assert patterns[0..] == patterns && values[0..] == values;
  }

  lemma {:induction false} CutsMatchFrom(patterns: seq<string>, values: seq<string>, cuts: seq<nat>, i: nat)
    requires Cuts(patterns, values, cuts) && i <= |patterns|
    ensures cuts[i] <= |values| && Match(patterns[i..], values[cuts[i]..])
    decreases |patterns| - i
  {
    if i < |patterns| {
      assert Piece(patterns[i], values, cuts[i], cuts[i + 1]);
      CutsMatchFrom(patterns, values, cuts, i + 1);
      var rest := values[cuts[i]..];
      assert patterns[i..] == [patterns[i]] + patterns[i + 1..];
      assert rest[cuts[i + 1] - cuts[i]..] == values[cuts[i + 1]..];
      if patterns[i] == DOUBLE_STAR {
        DoubleStarTakes(patterns[i + 1..], rest, cuts[i + 1] - cuts[i]);
      }
    }
  }

  lemma {:induction false} DoubleStarTakes(rest: seq<string>, values: seq<string>, k: nat)
    requires k <= |values| && Match(rest, values[k..])
    ensures Match([DOUBLE_STAR] + rest, values)
    decreases k
  {
    assert ([DOUBLE_STAR] + rest)[1..] == rest;
    if k == 0 {
      assert values[0..] == values;
    } else {
      assert values[k..] == values[1..][k - 1..];
      DoubleStarTakes(rest, values[1..], k - 1);
    }
  }

  // A leading "**" matches exactly when some suffix of the segments matches the rest.
  lemma {:induction false} DoubleStarSuffix(rest: seq<string>, values: seq<string>) returns (k: nat)
    requires Match([DOUBLE_STAR] + rest, values)
    ensures k <= |values| && Match(rest, values[k..])
    decreases |values|
  {
    assert ([DOUBLE_STAR] + rest)[1..] == rest;
    if Match(rest, values) {
      assert values[0..] == values;
      k := 0;
    } else {
      var k' := DoubleStarSuffix(rest, values[1..]);
      assert values[k' + 1..] == values[1..][k'..];
      k := k' + 1;
    }
  }

  lemma {:induction false} DoubleStarAlone(values: seq<string>)
    ensures Match([DOUBLE_STAR], values)
  {
    DoubleStarTakes([], values, |values|);
    assert [DOUBLE_STAR] + [] == [DOUBLE_STAR];
  }

  // What closing a state vector under "**" does.
  ghost predicate Closure(states: seq<bool>, closed: seq<bool>, patterns: seq<string>) {
    && |states| == |closed| == |patterns| + 1
    && closed[0] == states[0]
    && forall j {:trigger closed[j]} :: 1 <= j <= |patterns| ==>
         (closed[j] <==> states[j] || (closed[j - 1] && patterns[j - 1] == DOUBLE_STAR))
  }

  // What one value segment does to a state vector, before it is closed again.
  predicate NextState(states: seq<bool>, patterns: seq<string>, value: string, j: nat)
    requires j <= |patterns| < |states|
  {
    || (j < |patterns| && states[j] && patterns[j] == DOUBLE_STAR)
    || EntersState(states, patterns, value, j)
  }

  predicate EntersState(states: seq<bool>, patterns: seq<string>, value: string, j: nat)
    requires j <= |patterns| < |states|
  {
    j > 0 && states[j - 1] && patterns[j - 1] != DOUBLE_STAR && Glob.Matches(patterns[j - 1], value)
  }

  ghost predicate Advance(states: seq<bool>, next: seq<bool>, patterns: seq<string>, value: string) {
    && |states| == |next| == |patterns| + 1
    && forall j :: 0 <= j <= |patterns| ==> (next[j] <==> NextState(states, patterns, value, j))
  }

  ghost predicate IsClosed(states: seq<bool>, patterns: seq<string>) {
    && |states| == |patterns| + 1
    && forall i :: 0 <= i < |patterns| && states[i] && patterns[i] == DOUBLE_STAR ==> states[i + 1]
  }

  // Some active state has a remaining pattern that matches the remaining values.
  ghost predicate Alive(states: seq<bool>, patterns: seq<string>, values: seq<string>) {
    exists i :: 0 <= i <= |patterns| < |states| && states[i] && Match(patterns[i..], values)
  }

  lemma ClosureKeepsAlive(states: seq<bool>, closed: seq<bool>, patterns: seq<string>, values: seq<string>)
    requires Closure(states, closed, patterns)
    ensures IsClosed(closed, patterns)
    ensures Alive(closed, patterns, values) <==> Alive(states, patterns, values)
  {
    if i :| 0 <= i <= |patterns| && states[i] && Match(patterns[i..], values) {
      assert closed[i] && Match(patterns[i..], values);
    }
    if i :| 0 <= i <= |patterns| && closed[i] && Match(patterns[i..], values) {
      ClosedStateComesFrom(states, closed, patterns, values, i);
    }
  }

  lemma {:induction false} ClosedStateComesFrom(states: seq<bool>, closed: seq<bool>, patterns: seq<string>, values: seq<string>, i: nat)
    requires Closure(states, closed, patterns)
    requires i <= |patterns| && closed[i] && Match(patterns[i..], values)
    ensures Alive(states, patterns, values)
    decreases i
  {
    if !states[i] {
      assert patterns[i - 1] == DOUBLE_STAR;
      assert patterns[i - 1..][1..] == patterns[i..];
      ClosedStateComesFrom(states, closed, patterns, values, i - 1);
    }
  }

  lemma AdvanceKeepsAlive(states: seq<bool>, next: seq<bool>, patterns: seq<string>, values: seq<string>)
    requires values != [] && IsClosed(states, patterns) && Advance(states, next, patterns, values[0])
    ensures Alive(next, patterns, values[1..]) <==> Alive(states, patterns, values)
  {
    if i :| 0 <= i <= |patterns| && states[i] && Match(patterns[i..], values) {
      StateAdvances(states, next, patterns, values, i);
    }
    if j :| 0 <= j <= |patterns| && next[j] && Match(patterns[j..], values[1..]) {
      assert NextState(states, patterns, values[0], j);
      if j < |patterns| && states[j] && patterns[j] == DOUBLE_STAR {
        assert patterns[j..][0] == DOUBLE_STAR;
        assert states[j] && Match(patterns[j..], values);
      } else {
        assert patterns[j - 1..][1..] == patterns[j..];
        assert states[j - 1] && Match(patterns[j - 1..], values);
      }
    }
  }

  lemma {:induction false} StateAdvances(states: seq<bool>, next: seq<bool>, patterns: seq<string>, values: seq<string>, i: nat)
    requires values != [] && IsClosed(states, patterns) && Advance(states, next, patterns, values[0])
    requires i <= |patterns| && states[i] && Match(patterns[i..], values)
    ensures Alive(next, patterns, values[1..])
    decreases |patterns| - i
  {
    if i < |patterns| {
      assert patterns[i..][1..] == patterns[i + 1..];
      if patterns[i] != DOUBLE_STAR {
        assert NextState(states, patterns, values[0], i + 1);
        assert next[i + 1] && Match(patterns[i + 1..], values[1..]);
      } else if Match(patterns[i..], values[1..]) {
        assert NextState(states, patterns, values[0], i);
        assert next[i] && Match(patterns[i..], values[1..]);
      } else {
        StateAdvances(states, next, patterns, values, i + 1);
      }
    }
  }

  lemma {:induction false} ClosedEnd(states: seq<bool>, patterns: seq<string>, i: nat)
    requires IsClosed(states, patterns) && i <= |patterns| && states[i] && Match(patterns[i..], [])
    ensures states[|patterns|]
    decreases |patterns| - i
  {
    if i < |patterns| {
      assert patterns[i..][1..] == patterns[i + 1..];
      ClosedEnd(states, patterns, i + 1);
    }
  }

  method CloseDoubleStarStates(states: array<bool>, patterns: seq<string>)
    requires states.Length == |patterns| + 1
    modifies states
    ensures Closure(old(states[..]), states[..], patterns)
  {
    for k := 0 to |patterns|
      invariant states[0] == old(states[0])
      invariant forall i :: 0 <= i < k ==>
                  (states[i + 1] <==> old(states[i + 1]) || (states[i] && patterns[i] == DOUBLE_STAR))
      invariant forall i :: k < i <= |patterns| ==> states[i] == old(states[i])
    {
      if states[k] && patterns[k] == DOUBLE_STAR {
        states[k + 1] := true;
      }
    }
  }

  method AdvancePathStates(states: array<bool>, patterns: seq<string>, value: string) returns (next: array<bool>)
    requires states.Length == |patterns| + 1
    ensures fresh(next) && next.Length == states.Length
    ensures exists raw :: Advance(states[..], raw, patterns, value) && Closure(raw, next[..], patterns)
  {
    next := new bool[states.Length](_ => false);
    ghost var from := states[..];
    for k := 0 to |patterns|
      invariant states[..] == from
      invariant forall j :: k < j <= |patterns| ==> !next[j]
      invariant forall j :: 0 <= j < k ==> (next[j] <==> NextState(from, patterns, value, j))
      invariant next[k] <==> EntersState(from, patterns, value, k)
    {
      if !states[k] {
        continue;
      }
      if patterns[k] == DOUBLE_STAR {
        next[k] := true;
        continue;
      }
      if Glob.Matches(patterns[k], value) {
        next[k + 1] := true;
      }
    }
    ghost var raw := next[..];
    assert Advance(states[..], raw, patterns, value);
    CloseDoubleStarStates(next, patterns);
  }

  // The automaton accepts exactly the meaning.
  method PathSegmentsMatch(patterns: seq<string>, values: seq<string>) returns (matched: bool)
    ensures matched <==> Denotes(patterns, values)
  {
    var states := new bool[|patterns| + 1](_ => false);
    states[0] := true;
    ghost var start := states[..];
    CloseDoubleStarStates(states, patterns);
    ClosureKeepsAlive(start, states[..], patterns, values);
    assert Alive(start, patterns, values) <==> Match(patterns, values) by {
      assert patterns[0..] == patterns;
    }
    assert values[0..] == values;
    for k := 0 to |values|
      invariant states.Length == |patterns| + 1 && fresh(states)
      invariant IsClosed(states[..], patterns)
      invariant Alive(states[..], patterns, values[k..]) <==> Match(patterns, values)
    {
      ghost var before := states[..];
      states := AdvancePathStates(states, patterns, values[k]);
      ghost var raw :| Advance(before, raw, patterns, values[k]) && Closure(raw, states[..], patterns);
      AdvanceKeepsAlive(before, raw, patterns, values[k..]);
      assert values[k..][1..] == values[k + 1..];
      ClosureKeepsAlive(raw, states[..], patterns, values[k + 1..]);
    }
    matched := states[|patterns|];
    ghost var left := values[|values|..];
    assert left == [];
    assert matched ==> Alive(states[..], patterns, left) by {
      assert patterns[|patterns|..] == [];
      assert states[..][|patterns|] == matched;
    }
    if i :| 0 <= i <= |patterns| && states[..][i] && Match(patterns[i..], left) {
      ClosedEnd(states[..], patterns, i);
    }
    MatchIsDenotes(patterns, values);
  }
}
