// The canonical order of plan actions: a depth-first traversal in sorted order, with cycle detection.
module PlanOrder {
  import opened Options
  import opened Sorting

  datatype Action = Action(
    id: string,
    componentId: string,
    kind: string,
    risk: string,
    resource: string,
    currentDigest: string,
    desiredDigest: string,
    restart: bool,
    dependsOn: seq<string>
  )

  function Ids(actions: seq<Action>): seq<string> {
    seq(|actions|, i requires 0 <= i < |actions| => actions[i].id)
  }

  ghost predicate ValidIds(actions: seq<Action>) { "" !in Ids(actions) && Distinct(Ids(actions)) }

  function ById(actions: seq<Action>): map<string, Action> {
    if actions == [] then map[]
    else
      var last := actions[|actions| - 1];
      ById(actions[..|actions| - 1])[last.id := last]
  }

  function Canonical(action: Action): Action { action.(dependsOn := SortTexts(action.dependsOn)) }

  // --- The traversal.

  datatype Walk = Broken | Walk(visited: set<string>, result: seq<Action>)

  function Visit(byId: map<string, Action>, id: string, visiting: set<string>, walk: Walk): Walk
    decreases |byId.Keys - visiting|, 0
  {
    if walk.Broken? || id in walk.visited then walk
    else if id in visiting || id !in byId then Broken
    else
      var action := Canonical(byId[id]);
      assert byId.Keys - (visiting + {id}) < byId.Keys - visiting;
      Fewer(byId.Keys - (visiting + {id}), byId.Keys - visiting);
      var inner := VisitAll(byId, action.dependsOn, visiting + {id}, walk);
      if inner.Broken? then Broken else Walk(inner.visited + {id}, inner.result + [action])
  }

  function VisitAll(byId: map<string, Action>, ids: seq<string>, visiting: set<string>, walk: Walk): Walk
    decreases |byId.Keys - visiting|, |ids| + 1
  {
    if ids == [] then walk
    else VisitAll(byId, ids[1..], visiting, Visit(byId, ids[0], visiting, walk))
  }

  lemma Fewer(a: set<string>, b: set<string>)
    requires a < b
    ensures |a| < |b|
  {
    var x :| x in b && x !in a;
    assert a <= b - {x};
    Smaller(a, b - {x});
  }

  lemma {:induction false} Smaller(a: set<string>, b: set<string>)
    requires a <= b
    ensures |a| <= |b|
  {
    if a != {} {
      var x :| x in a;
      Smaller(a - {x}, b - {x});
    }
  }

  ghost function OrderActions(actions: seq<Action>): Option<seq<Action>> {
    if !ValidIds(actions) then None
    else
      match VisitAll(ById(actions), SortTexts(Ids(actions)), {}, Walk({}, []))
      case Broken => None
      case Walk(_, result) => Some(result)
  }

  // --- The lookup table.

  lemma {:induction false} ByIdHolds(actions: seq<Action>, id: string)
    ensures id in ById(actions) <==> id in Ids(actions)
    ensures id in ById(actions) ==> ById(actions)[id] in actions && ById(actions)[id].id == id
  {
    if actions != [] {
      var last := |actions| - 1;
      ByIdHolds(actions[..last], id);
      assert Ids(actions) == Ids(actions[..last]) + [actions[last].id];
    }
  }

  lemma ByIdAt(actions: seq<Action>, i: nat)
    requires Distinct(Ids(actions)) && i < |actions|
    ensures actions[i].id in ById(actions) && ById(actions)[actions[i].id] == actions[i]
  {
    hide ById;
    var ids := Ids(actions);
    ByIdHolds(actions, ids[i]);
    var j :| 0 <= j < |actions| && actions[j] == ById(actions)[ids[i]];
    assert ids[i] == ids[j];
    assert i == j;
  }

  // --- What a traversal keeps: every finished action is canonical and follows its dependencies.

  ghost predicate DependenciesFirst(result: seq<Action>) {
    forall i, d :: 0 <= i < |result| && d in result[i].dependsOn ==> exists j :: 0 <= j < i && result[j].id == d
  }

  ghost predicate WalkKept(byId: map<string, Action>, walk: Walk) {
    walk.Walk? ==>
      && (forall id :: id in walk.visited <==> id in Ids(walk.result))
      && Distinct(Ids(walk.result))
      && (forall i :: 0 <= i < |walk.result| ==>
            walk.result[i].id in byId && walk.result[i] == Canonical(byId[walk.result[i].id]))
      && DependenciesFirst(walk.result)
  }

  ghost predicate Keyed(byId: map<string, Action>) { forall id :: id in byId ==> byId[id].id == id }

  lemma AppendKeeps(byId: map<string, Action>, walk: Walk, id: string)
    requires Keyed(byId) && walk.Walk? && WalkKept(byId, walk) && id in byId && id !in walk.visited
    requires forall d :: d in Canonical(byId[id]).dependsOn ==> d in walk.visited
    ensures WalkKept(byId, Walk(walk.visited + {id}, walk.result + [Canonical(byId[id])]))
  {
    var action := Canonical(byId[id]);
    var result := walk.result + [action];
    assert Ids(result) == Ids(walk.result) + [id];
    forall i, d | 0 <= i < |result| && d in result[i].dependsOn ensures exists j :: 0 <= j < i && result[j].id == d {
      if i < |walk.result| {
        var j :| 0 <= j < i && walk.result[j].id == d;
        assert result[j].id == d;
      } else {
        assert d in Ids(walk.result);
        var j :| 0 <= j < |walk.result| && Ids(walk.result)[j] == d;
        assert result[j].id == d;
      }
    }
  }

  // What a visit is owed by the visits to its dependencies.
  ghost predicate Advances(byId: map<string, Action>, visiting: set<string>, walk: Walk, after: Walk) {
    && WalkKept(byId, after)
    && (after.Walk? ==> walk.Walk? && walk.visited <= after.visited && visiting !! after.visited)
  }

  lemma VisitFinishes(byId: map<string, Action>, id: string, visiting: set<string>, walk: Walk, inner: Walk)
    requires Keyed(byId) && walk.Walk? && inner.Walk? && id in byId && id !in visiting
    requires Advances(byId, visiting + {id}, walk, inner)
    requires forall d :: d in Canonical(byId[id]).dependsOn ==> d in inner.visited
    ensures Advances(byId, visiting, walk, Walk(inner.visited + {id}, inner.result + [Canonical(byId[id])]))
  {
    hide WalkKept, SortTexts;
    AppendKeeps(byId, inner, id);
  }

  lemma {:induction false} VisitKeeps(byId: map<string, Action>, id: string, visiting: set<string>, walk: Walk)
    requires Keyed(byId) && WalkKept(byId, walk) && (walk.Walk? ==> visiting !! walk.visited)
    ensures var after := Visit(byId, id, visiting, walk);
            Advances(byId, visiting, walk, after) && (after.Walk? ==> id in after.visited)
    decreases |byId.Keys - visiting|, 0
  {
    hide WalkKept, SortTexts, Keyed, VisitAll;
    BrokenIsKept(byId);
    if walk.Walk? && id !in walk.visited && id !in visiting && id in byId {
      assert byId.Keys - (visiting + {id}) < byId.Keys - visiting;
      Fewer(byId.Keys - (visiting + {id}), byId.Keys - visiting);
      var dependsOn := Canonical(byId[id]).dependsOn;
      VisitAllKeeps(byId, dependsOn, visiting + {id}, walk);
      var inner := VisitAll(byId, dependsOn, visiting + {id}, walk);
      if inner.Walk? {
        VisitFinishes(byId, id, visiting, walk, inner);
      }
    }
  }

  lemma BrokenIsKept(byId: map<string, Action>)
    ensures WalkKept(byId, Broken)
  {
  }

  lemma {:induction false} VisitAllKeeps(byId: map<string, Action>, ids: seq<string>, visiting: set<string>, walk: Walk)
    requires Keyed(byId) && WalkKept(byId, walk) && (walk.Walk? ==> visiting !! walk.visited)
    ensures var after := VisitAll(byId, ids, visiting, walk);
            Advances(byId, visiting, walk, after) && (after.Walk? ==> forall id :: id in ids ==> id in after.visited)
    decreases |byId.Keys - visiting|, |ids| + 1
  {
    hide WalkKept, Visit, Keyed;
    if ids != [] {
      VisitKeeps(byId, ids[0], visiting, walk);
      VisitAllKeeps(byId, ids[1..], visiting, Visit(byId, ids[0], visiting, walk));
      assert forall id :: id in ids ==> id == ids[0] || id in ids[1..];
    }
  }

  // --- Dependency chains, missing actions and cycles.

  ghost predicate Chain(byId: map<string, Action>, path: seq<string>) {
    && (forall i :: 0 <= i < |path| ==> path[i] in byId)
    && forall i :: 0 <= i < |path| - 1 ==> path[i + 1] in byId[path[i]].dependsOn
  }

  ghost predicate HasCycle(byId: map<string, Action>) {
    exists path :: |path| >= 2 && path[0] == path[|path| - 1] && Chain(byId, path)
  }

  ghost predicate HasMissing(byId: map<string, Action>) {
    exists id, d :: id in byId && d in byId[id].dependsOn && d !in byId
  }

  // The elements of the current chain are the actions being visited.
  ghost predicate OnPath(path: seq<string>, visiting: set<string>) { forall x :: x in visiting <==> x in path }

  lemma CycleFound(byId: map<string, Action>, path: seq<string>, id: string)
    requires Chain(byId, path) && id in path && id in byId[path[|path| - 1]].dependsOn
    ensures HasCycle(byId)
  {
    var k :| 0 <= k < |path| && path[k] == id;
    var cycle := path[k..] + [id];
    assert Chain(byId, cycle);
    assert cycle[0] == id && cycle[|cycle| - 1] == id;
  }

  lemma ChainGrows(byId: map<string, Action>, path: seq<string>, visiting: set<string>, id: string)
    requires Chain(byId, path) && id in byId && (path != [] ==> id in byId[path[|path| - 1]].dependsOn)
    requires OnPath(path, visiting)
    ensures Chain(byId, path + [id]) && OnPath(path + [id], visiting + {id})
  {
  }

  lemma {:induction false} VisitFails(byId: map<string, Action>, id: string, path: seq<string>, visiting: set<string>, walk: Walk)
    requires walk.Walk? && Chain(byId, path) && OnPath(path, visiting)
    requires if path == [] then id in byId else id in byId[path[|path| - 1]].dependsOn
    requires Visit(byId, id, visiting, walk).Broken?
    ensures HasCycle(byId) || HasMissing(byId)
    decreases |byId.Keys - visiting|, 0
  {
    hide HasCycle, HasMissing, VisitAll, SortTexts, Chain;
    if id in visiting {
      CycleFound(byId, path, id);
    } else if id !in byId {
      MissingFound(byId, path, id);
    } else {
      var action := Canonical(byId[id]);
      assert byId.Keys - (visiting + {id}) < byId.Keys - visiting;
      Fewer(byId.Keys - (visiting + {id}), byId.Keys - visiting);
      ChainGrows(byId, path, visiting, id);
      hide OnPath;
      forall d | d in action.dependsOn ensures d in byId[id].dependsOn {
        SortTextsMembers(byId[id].dependsOn, d);
      }
      VisitAllFails(byId, action.dependsOn, path + [id], visiting + {id}, walk);
    }
  }

  lemma MissingFound(byId: map<string, Action>, path: seq<string>, d: string)
    requires Chain(byId, path) && path != [] && d in byId[path[|path| - 1]].dependsOn && d !in byId
    ensures HasMissing(byId)
  {
  }

  lemma {:induction false} VisitAllFails(byId: map<string, Action>, ids: seq<string>, path: seq<string>, visiting: set<string>, walk: Walk)
    requires walk.Walk? && Chain(byId, path) && OnPath(path, visiting)
    requires forall id :: id in ids ==> if path == [] then id in byId else id in byId[path[|path| - 1]].dependsOn
    requires VisitAll(byId, ids, visiting, walk).Broken?
    ensures HasCycle(byId) || HasMissing(byId)
    decreases |byId.Keys - visiting|, |ids| + 1
  {
    hide HasCycle, HasMissing, Chain, OnPath, Visit;
    var first := Visit(byId, ids[0], visiting, walk);
    assert ids[0] in ids;
    if first.Broken? {
      VisitFails(byId, ids[0], path, visiting, walk);
    } else {
      assert forall id :: id in ids[1..] ==> id in ids;
      VisitAllFails(byId, ids[1..], path, visiting, first);
    }
  }

  // --- A finished traversal of every action rules out both.

  function Position(result: seq<Action>, id: string): nat {
    if result == [] || result[0].id == id then 0 else 1 + Position(result[1..], id)
  }

  lemma {:induction false} PositionAt(result: seq<Action>, i: nat)
    requires Distinct(Ids(result)) && i < |result|
    ensures Position(result, result[i].id) == i
  {
    if i > 0 {
      assert Ids(result)[0] != Ids(result)[i];
      assert Ids(result[1..]) == Ids(result)[1..];
      PositionAt(result[1..], i - 1);
    }
  }

  lemma DependencyIsEarlier(byId: map<string, Action>, walk: Walk, id: string, d: string)
    requires walk.Walk? && WalkKept(byId, walk) && id in walk.visited && id in byId && d in byId[id].dependsOn
    ensures d in walk.visited && Position(walk.result, d) < Position(walk.result, id)
  {
    hide Position;
    assert id in Ids(walk.result);
    var i :| 0 <= i < |walk.result| && Ids(walk.result)[i] == id;
    SortTextsMembers(byId[id].dependsOn, d);
    assert d in walk.result[i].dependsOn;
    var j :| 0 <= j < i && walk.result[j].id == d;
    assert Ids(walk.result)[j] == d;
    PositionAt(walk.result, i);
    PositionAt(walk.result, j);
  }

  lemma {:induction false} ChainDescends(byId: map<string, Action>, walk: Walk, path: seq<string>)
    requires walk.Walk? && WalkKept(byId, walk) && Chain(byId, path) && |path| >= 2 && path[0] in walk.visited
    ensures Position(walk.result, path[|path| - 1]) < Position(walk.result, path[0])
    decreases |path|
  {
    hide WalkKept, Position;
    DependencyIsEarlier(byId, walk, path[0], path[1]);
    if |path| > 2 {
      ChainDescends(byId, walk, path[1..]);
    }
  }

  lemma CompleteIsSound(byId: map<string, Action>, walk: Walk)
    requires walk.Walk? && WalkKept(byId, walk) && forall id :: id in byId ==> id in walk.visited
    ensures !HasCycle(byId) && !HasMissing(byId)
  {
    hide Position;
    if HasCycle(byId) {
      var path :| |path| >= 2 && path[0] == path[|path| - 1] && Chain(byId, path);
      ChainDescends(byId, walk, path);
      assert false;
    }
    forall id, d | id in byId && d in byId[id].dependsOn ensures d in byId {
      DependencyIsEarlier(byId, walk, id, d);
      assert d in Ids(walk.result);
    }
  }

  // --- The main results.

  lemma OrderWalk(actions: seq<Action>)
    requires ValidIds(actions)
    ensures var byId, walk := ById(actions), VisitAll(ById(actions), SortTexts(Ids(actions)), {}, Walk({}, []));
            && WalkKept(byId, walk) && Keyed(byId)
            && (walk.Walk? ==> forall id :: id in walk.visited <==> id in byId)
  {
    hide ById, VisitAll;
    var byId := ById(actions);
    forall id | id in byId ensures byId[id].id == id { ByIdHolds(actions, id); }
    VisitAllKeeps(byId, SortTexts(Ids(actions)), {}, Walk({}, []));
    var walk := VisitAll(byId, SortTexts(Ids(actions)), {}, Walk({}, []));
    if walk.Walk? {
      forall id ensures id in walk.visited <==> id in byId {
        ByIdHolds(actions, id);
        SortTextsMembers(Ids(actions), id);
      }
    }
  }

  // Ordering succeeds exactly when the identities are present and distinct, every dependency names an
  // action, and no chain of dependencies returns to where it started.
  lemma OrderSucceedsExactly(actions: seq<Action>)
    ensures OrderActions(actions).Some?
            <==> ValidIds(actions) && !HasMissing(ById(actions)) && !HasCycle(ById(actions))
  {
    if ValidIds(actions) {
      hide ById, HasMissing, HasCycle, ValidIds, WalkKept;
      var byId, ids := ById(actions), SortTexts(Ids(actions));
      OrderWalk(actions);
      var walk := VisitAll(byId, ids, {}, Walk({}, []));
      hide VisitAll;
      if walk.Walk? {
        CompleteIsSound(byId, walk);
      } else {
        forall id | id in ids ensures id in byId {
          SortTextsMembers(Ids(actions), id);
          ByIdHolds(actions, id);
        }
        VisitAllFails(byId, ids, [], {}, Walk({}, []));
      }
    }
  }

  function CanonicalAll(actions: seq<Action>): seq<Action> {
    seq(|actions|, i requires 0 <= i < |actions| => Canonical(actions[i]))
  }

  lemma DistinctByIds(actions: seq<Action>)
    requires Distinct(Ids(actions))
    ensures Distinct(actions)
  {
    forall i, j | 0 <= i < j < |actions| ensures actions[i] != actions[j] {
      assert Ids(actions)[i] != Ids(actions)[j];
    }
  }

  lemma CanonicalMembers(actions: seq<Action>, action: Action)
    requires Distinct(Ids(actions))
    ensures action in CanonicalAll(actions) <==> action.id in ById(actions) && action == Canonical(ById(actions)[action.id])
  {
    hide SortTexts;
    ByIdHolds(actions, action.id);
    if action in CanonicalAll(actions) {
      var i :| 0 <= i < |actions| && CanonicalAll(actions)[i] == action;
      ByIdAt(actions, i);
    } else if action.id in ById(actions) {
      var i :| 0 <= i < |actions| && actions[i] == ById(actions)[action.id];
      assert CanonicalAll(actions)[i] == Canonical(actions[i]);
    }
  }

  // The result is a permutation of the actions, each with its dependencies sorted, and every
  // dependency comes before its dependent.
  lemma OrderPermutes(actions: seq<Action>)
    requires OrderActions(actions).Some?
    ensures var result := OrderActions(actions).value;
            && multiset(result) == multiset(CanonicalAll(actions))
            && DependenciesFirst(result)
            && ValidIds(result)
  {
    hide VisitAll, SortTexts, DependenciesFirst, ById;
    OrderWalk(actions);
    var walk := VisitAll(ById(actions), SortTexts(Ids(actions)), {}, Walk({}, []));
    var result := walk.result;
    DistinctByIds(result);
    assert Ids(CanonicalAll(actions)) == Ids(actions);
    DistinctByIds(CanonicalAll(actions));
    forall action: Action ensures action in result <==> action in CanonicalAll(actions) {
      CanonicalMembers(actions, action);
      if action in result {
        var i :| 0 <= i < |result| && result[i] == action;
      }
      if action.id in ById(actions) && action == Canonical(ById(actions)[action.id]) {
        assert action.id in Ids(result);
        var i :| 0 <= i < |result| && Ids(result)[i] == action.id;
      }
    }
    DistinctPermutes(result, CanonicalAll(actions));
    ResultIdsPresent(actions, walk);
  }

  lemma ResultIdsPresent(actions: seq<Action>, walk: Walk)
    requires walk.Walk? && ValidIds(actions) && WalkKept(ById(actions), walk)
    ensures "" !in Ids(walk.result)
  {
    ByIdHolds(actions, "");
    forall i | 0 <= i < |walk.result| ensures Ids(walk.result)[i] != "" {
      assert walk.result[i].id in ById(actions);
    }
  }

  // --- The result does not depend on the order of the input.

  lemma IdsPermute(a: seq<Action>, b: seq<Action>)
    requires ValidIds(a) && multiset(a) == multiset(b)
    ensures ValidIds(b) && multiset(Ids(a)) == multiset(Ids(b))
  {
    DistinctByIds(a);
    PermutationIsDistinct(a, b);
    assert forall x :: x in multiset(a) <==> x in multiset(b);
    forall i, j | 0 <= i < j < |b| ensures Ids(b)[i] != Ids(b)[j] {
      assert b[i] in multiset(b) && b[j] in multiset(b);
      var k :| 0 <= k < |a| && a[k] == b[i];
      var l :| 0 <= l < |a| && a[l] == b[j];
      assert Ids(a)[k] == b[i].id && Ids(a)[l] == b[j].id;
    }
    forall id ensures id in Ids(a) <==> id in Ids(b) {
      if id in Ids(a) {
        IdMoves(a, b, id);
      }
      if id in Ids(b) {
        IdMoves(b, a, id);
      }
    }
    DistinctPermutes(Ids(a), Ids(b));
  }

  lemma IdMoves(a: seq<Action>, b: seq<Action>, id: string)
    requires multiset(a) == multiset(b) && id in Ids(a)
    ensures id in Ids(b)
  {
    var i :| 0 <= i < |a| && Ids(a)[i] == id;
    assert a[i] in multiset(b);
    var j :| 0 <= j < |b| && b[j] == a[i];
    assert Ids(b)[j] == id;
  }

  lemma SameTable(a: seq<Action>, b: seq<Action>)
    requires ValidIds(a) && ValidIds(b) && multiset(a) == multiset(b)
    ensures ById(a) == ById(b)
  {
    forall id ensures id in ById(a) <==> id in ById(b)
              ensures id in ById(a) ==> ById(a)[id] == ById(b)[id] {
      ByIdHolds(a, id);
      ByIdHolds(b, id);
      if id in Ids(a) {
        IdMoves(a, b, id);
        assert ById(a)[id] in multiset(b);
        var j :| 0 <= j < |b| && b[j] == ById(a)[id];
        ByIdAt(b, j);
      } else if id in Ids(b) {
        IdMoves(b, a, id);
      }
    }
  }

  lemma OrderIgnoresInputOrder(a: seq<Action>, b: seq<Action>)
    requires multiset(a) == multiset(b)
    ensures OrderActions(a) == OrderActions(b)
  {
    hide ValidIds, ById, VisitAll, Ids;
    if ValidIds(a) {
      IdsPermute(a, b);
      SameTable(a, b);
      TextOrder(Ids(a));
      SortOfPermutation(Ids(a), Ids(b), TextLeq);
    } else if ValidIds(b) {
      IdsPermute(b, a);
    }
  }

  // --- The result is in canonical order already.

  ghost predicate SameUpToOrder(a: map<string, Action>, b: map<string, Action>) {
    a.Keys == b.Keys && forall id :: id in a ==> Canonical(a[id]) == Canonical(b[id])
  }

  lemma {:induction false} VisitAgrees(a: map<string, Action>, b: map<string, Action>, id: string, visiting: set<string>, walk: Walk)
    requires SameUpToOrder(a, b)
    ensures Visit(a, id, visiting, walk) == Visit(b, id, visiting, walk)
    decreases |a.Keys - visiting|, 0
  {
    hide Canonical;
    if walk.Walk? && id !in walk.visited && id !in visiting && id in a {
      assert a.Keys - (visiting + {id}) < a.Keys - visiting;
      Fewer(a.Keys - (visiting + {id}), a.Keys - visiting);
      VisitAllAgrees(a, b, Canonical(a[id]).dependsOn, visiting + {id}, walk);
    }
  }

  lemma {:induction false} VisitAllAgrees(a: map<string, Action>, b: map<string, Action>, ids: seq<string>, visiting: set<string>, walk: Walk)
    requires SameUpToOrder(a, b)
    ensures VisitAll(a, ids, visiting, walk) == VisitAll(b, ids, visiting, walk)
    decreases |a.Keys - visiting|, |ids| + 1
  {
    hide Visit, SameUpToOrder;
    if ids != [] {
      VisitAgrees(a, b, ids[0], visiting, walk);
      VisitAllAgrees(a, b, ids[1..], visiting, Visit(a, ids[0], visiting, walk));
    }
  }

  lemma CanonicalTable(actions: seq<Action>)
    requires ValidIds(actions)
    ensures ValidIds(CanonicalAll(actions)) && Ids(CanonicalAll(actions)) == Ids(actions)
    ensures SameUpToOrder(ById(actions), ById(CanonicalAll(actions)))
  {
    var canonical := CanonicalAll(actions);
    assert Ids(canonical) == Ids(actions);
    forall id ensures id in ById(actions) <==> id in ById(canonical)
              ensures id in ById(actions) ==> Canonical(ById(actions)[id]) == Canonical(ById(canonical)[id]) {
      ByIdHolds(actions, id);
      ByIdHolds(canonical, id);
      if id in Ids(actions) {
        var i :| 0 <= i < |actions| && Ids(actions)[i] == id;
        ByIdAt(actions, i);
        ByIdAt(canonical, i);
        SortTextsAgain(actions[i].dependsOn);
      }
    }
  }

  lemma OrderOfCanonical(actions: seq<Action>)
    requires ValidIds(actions)
    ensures OrderActions(CanonicalAll(actions)) == OrderActions(actions)
  {
    hide ValidIds, ById, VisitAll, SameUpToOrder;
    CanonicalTable(actions);
    VisitAllAgrees(ById(actions), ById(CanonicalAll(actions)), SortTexts(Ids(actions)), {}, Walk({}, []));
  }

  lemma OrderIsFixedPoint(actions: seq<Action>)
    requires OrderActions(actions).Some?
    ensures OrderActions(OrderActions(actions).value) == OrderActions(actions)
  {
    hide VisitAll, ById, CanonicalAll;
    OrderPermutes(actions);
    OrderIgnoresInputOrder(OrderActions(actions).value, CanonicalAll(actions));
    OrderOfCanonical(actions);
  }
}
