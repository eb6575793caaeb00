// Building and validating a host plan: the in-place traversal, the combination of the component
// responses, and the digest over the canonical form.
module PlanBuild {
  import opened Options
  import opened Sorting
  import opened PlanOrder

  // --- The traversal as the program runs it.

  class Traversal {
    const byId: map<string, Action>
    var visiting: set<string>
    var visited: set<string>
    var result: seq<Action>

    constructor (byId: map<string, Action>)
      ensures this.byId == byId && visiting == {} && Progress() == Walk({}, [])
    {
      this.byId := byId;
      visiting, visited, result := {}, {}, [];
    }

    function Progress(): Walk
      reads this
    {
      Walk(visited, result)
    }

    method Visit(id: string) returns (ok: bool)
      modifies this
      ensures ok <==> PlanOrder.Visit(byId, id, old(visiting), old(Progress())).Walk?
      ensures ok ==> visiting == old(visiting) && Progress() == PlanOrder.Visit(byId, id, old(visiting), old(Progress()))
      decreases |byId.Keys - visiting|, 0
    {
      hide SortTexts, VisitAll;
      if id in visited {
        return true;
      }
      if id in visiting {
        return false;
      }
      if id !in byId {
        return false;
      }
      var action := byId[id];
      assert byId.Keys - (visiting + {id}) < byId.Keys - visiting;
      Fewer(byId.Keys - (visiting + {id}), byId.Keys - visiting);
      visiting := visiting + {id};
      var dependencies := SortTexts(action.dependsOn);
      action := action.(dependsOn := dependencies);
      ok := VisitEach(dependencies);
      if !ok {
        return false;
      }
      visiting := visiting - {id};
      visited := visited + {id};
      result := result + [action];
      return true;
    }

    // The loop that the traversal and its caller share.
    method VisitEach(ids: seq<string>) returns (ok: bool)
      modifies this
      ensures ok <==> VisitAll(byId, ids, old(visiting), old(Progress())).Walk?
      ensures ok ==> visiting == old(visiting) && Progress() == VisitAll(byId, ids, old(visiting), old(Progress()))
      decreases |byId.Keys - visiting|, |ids| + 1
    {
      hide PlanOrder.Visit;
      ghost var all := VisitAll(byId, ids, visiting, Progress());
      assert ids[0..] == ids;
      for k := 0 to |ids|
        invariant visiting == old(visiting)
        invariant VisitAll(byId, ids[k..], visiting, Progress()) == all
      {
        assert ids[k..][1..] == ids[k + 1..];
        ok := Visit(ids[k]);
        if !ok {
          BrokenStaysBroken(byId, ids[k + 1..], old(visiting));
          return false;
        }
      }
      return true;
    }
  }

  lemma {:induction false} BrokenStaysBroken(byId: map<string, Action>, ids: seq<string>, visiting: set<string>)
    ensures VisitAll(byId, ids, visiting, Broken) == Broken
  {
    if ids != [] {
      BrokenStaysBroken(byId, ids[1..], visiting);
    }
  }

  // The keys of a map, in any order.
  method Keys(byId: map<string, Action>) returns (ids: seq<string>)
    ensures Distinct(ids) && forall id :: id in ids <==> id in byId
  {
    ids := [];
    var remaining := byId.Keys;
    while remaining != {}
      invariant remaining <= byId.Keys && Distinct(ids)
      invariant forall id :: id in ids <==> id in byId.Keys - remaining
      decreases |remaining|
    {
      var id :| id in remaining;
      assert id !in ids;
      forall i, j | 0 <= i < j < |ids + [id]| ensures (ids + [id])[i] != (ids + [id])[j] {
        assert i < |ids| && ids[i] in ids;
      }
      ids := ids + [id];
      remaining := remaining - {id};
    }
  }

  lemma SortedKeys(actions: seq<Action>, ids: seq<string>)
    requires ValidIds(actions) && Distinct(ids) && forall id :: id in ids <==> id in ById(actions)
    ensures SortTexts(ids) == SortTexts(Ids(actions))
  {
    forall id ensures id in ids <==> id in Ids(actions) { ByIdHolds(actions, id); }
    DistinctPermutes(ids, Ids(actions));
    TextOrder(ids);
    SortOfPermutation(ids, Ids(actions), TextLeq);
  }

  method Order(actions: seq<Action>) returns (ordered: Option<seq<Action>>)
    ensures ordered == OrderActions(actions)
  {
    hide VisitAll, SortTexts;
    var byId: map<string, Action> := map[];
    for i := 0 to |actions|
      invariant byId == ById(actions[..i]) && ValidIds(actions[..i])
    {
      ByIdHolds(actions[..i], actions[i].id);
      IdsStep(actions, i);
      if actions[i].id == "" || actions[i].id in byId {
        return None;
      }
      byId := byId[actions[i].id := actions[i]];
      assert actions[..i + 1][..i] == actions[..i];
    }
    assert actions[..|actions|] == actions;
    var ids := Keys(byId);
    SortedKeys(actions, ids);
    var traversal := new Traversal(byId);
    var ok := traversal.VisitEach(SortTexts(ids));
    if !ok {
      return None;
    }
    return Some(traversal.result);
  }

  lemma IdsStep(actions: seq<Action>, i: nat)
    requires i < |actions| && ValidIds(actions[..i])
    ensures if actions[i].id == "" || actions[i].id in Ids(actions[..i]) then !ValidIds(actions) else ValidIds(actions[..i + 1])
  {
    var id := actions[i].id;
    assert Ids(actions)[i] == id;
    assert Ids(actions[..i + 1]) == Ids(actions[..i]) + [id];
    if id in Ids(actions[..i]) {
      var j :| 0 <= j < i && Ids(actions[..i])[j] == id;
      assert Ids(actions)[j] == Ids(actions)[i];
    }
  }

  // --- Plans.

  datatype Credential = Credential(slot: string, action: string)

  datatype Planned = Planned(
    id: string,
    kind: string,
    risk: string,
    resource: string,
    currentDigest: string,
    desiredDigest: string,
    restart: bool,
    dependsOn: seq<string>
  )

  datatype Response = Response(
    componentId: string,
    status: string,
    planDigest: string,
    actions: seq<Planned>,
    credentials: seq<Credential>,
    verification: seq<string>,
    blockedReason: string
  )

  datatype Component = Component(
    id: string,
    planDigest: string,
    credentials: seq<Credential>,
    verification: seq<string>,
    blockedReason: string
  )

  datatype Kind = Noop | Install | Reconcile | Upgrade | Blocked

  datatype Snapshot = Snapshot(name: string, digest: string, bundleId: string)

  datatype Plan = Plan(
    apiVersion: string,
    deploymentName: string,
    deploymentDigest: string,
    observedFingerprint: string,
    runtimeBundleId: string,
    kind: Kind,
    actions: seq<Action>,
    components: seq<Component>,
    digest: string
  )

  const API_VERSION := "unyolo.io/system-plan/v1"

  predicate ValidDigest(value: string) {
    && |value| == 71 && value[..7] == "sha256:"
    && forall i :: 7 <= i < 71 ==> '0' <= value[i] <= '9' || 'a' <= value[i] <= 'f'
  }

  function Qualified(componentId: string, dependencies: seq<string>): seq<string> {
    seq(|dependencies|, i requires 0 <= i < |dependencies| =>
      if '.' in dependencies[i] then dependencies[i] else componentId + "." + dependencies[i])
  }

  method QualifyDependencies(componentId: string, dependencies: seq<string>) returns (result: seq<string>)
    ensures result == SortTexts(Qualified(componentId, dependencies))
  {
    result := [];
    for i := 0 to |dependencies|
      invariant result == Qualified(componentId, dependencies)[..i]
    {
      if '.' in dependencies[i] {
        result := result + [dependencies[i]];
      } else {
        result := result + [componentId + "." + dependencies[i]];
      }
    }
    assert result == Qualified(componentId, dependencies);
    result := SortTexts(result);
  }

  function ActionOf(componentId: string, planned: Planned): Action {
    Action(componentId + "." + planned.id, componentId, planned.kind, planned.risk, planned.resource,
           planned.currentDigest, planned.desiredDigest, planned.restart, SortTexts(Qualified(componentId, planned.dependsOn)))
  }

  function ActionsOf(response: Response): (r: seq<Action>) {
    seq(|response.actions|, i requires 0 <= i < |response.actions| => ActionOf(response.componentId, response.actions[i]))
  }

  function AllActions(responses: seq<Response>): seq<Action> {
    if responses == [] then []
    else AllActions(responses[..|responses| - 1]) + ActionsOf(responses[|responses| - 1])
  }

  predicate SlotLeq(a: Credential, b: Credential) { TextLeq(a.slot, b.slot) }

  predicate ComponentLeq(a: Component, b: Component) { TextLeq(a.id, b.id) }

  function ComponentOf(response: Response): Component {
    Component(response.componentId, response.planDigest, response.credentials, response.verification, response.blockedReason)
  }

  function ComponentsOf(responses: seq<Response>): seq<Component> {
    seq(|responses|, i requires 0 <= i < |responses| => ComponentOf(responses[i]))
  }

  function ComponentIds(responses: seq<Response>): seq<string> {
    seq(|responses|, i requires 0 <= i < |responses| => responses[i].componentId)
  }

  function Tidy(component: Component): Component {
    component.(credentials := Sort(component.credentials, SlotLeq), verification := SortTexts(component.verification))
  }

  function TidyAll(components: seq<Component>): seq<Component> {
    seq(|components|, i requires 0 <= i < |components| => Tidy(components[i]))
  }

  predicate AnyBlocked(responses: seq<Response>) {
    exists i :: 0 <= i < |responses| && responses[i].status == "blocked"
  }

  function PlanKind(snapshot: Snapshot, active: string, blocked: bool, changes: bool): Kind {
    if blocked then Blocked
    else if active == "" then Install
    else if active != snapshot.bundleId then Upgrade
    else if changes then Reconcile
    else Noop
  }

  ghost predicate Acceptable(responses: seq<Response>, accepts: Response -> bool) {
    (forall i :: 0 <= i < |responses| ==> accepts(responses[i])) && Distinct(ComponentIds(responses))
  }

  // The plan that any processing order must arrive at; the digest covers the plan without it.
  ghost function PlanOf(snapshot: Snapshot, fingerprint: string, responses: seq<Response>, active: string,
                        accepts: Response -> bool, hash: Plan -> string): Option<Plan>
  {
    if !ValidDigest(fingerprint) || !Acceptable(responses, accepts) then None
    else
      match OrderActions(AllActions(responses))
      case None => None
      case Some(actions) =>
        var plan := Plan(API_VERSION, snapshot.name, snapshot.digest, fingerprint, snapshot.bundleId,
                         PlanKind(snapshot, active, AnyBlocked(responses), AllActions(responses) != []),
                         actions, TidyAll(Sort(ComponentsOf(responses), ComponentLeq)), "");
        Some(plan.(digest := hash(plan)))
  }

  method PlannedActions(response: Response) returns (actions: seq<Action>)
    ensures actions == ActionsOf(response)
  {
    hide SortTexts;
    actions := [];
    for i := 0 to |response.actions|
      invariant actions == ActionsOf(response)[..i]
    {
      var planned := response.actions[i];
      var dependsOn := QualifyDependencies(response.componentId, planned.dependsOn);
      actions := actions + [Action(response.componentId + "." + planned.id, response.componentId, planned.kind, planned.risk,
                                   planned.resource, planned.currentDigest, planned.desiredDigest, planned.restart, dependsOn)];
    }
  }

  lemma ResponsesStep(responses: seq<Response>, i: nat, accepts: Response -> bool)
    requires i < |responses| && Acceptable(responses[..i], accepts)
    ensures AllActions(responses[..i + 1]) == AllActions(responses[..i]) + ActionsOf(responses[i])
    ensures ComponentsOf(responses[..i + 1]) == ComponentsOf(responses[..i]) + [ComponentOf(responses[i])]
    ensures ComponentIds(responses[..i + 1]) == ComponentIds(responses[..i]) + [responses[i].componentId]
    ensures if !accepts(responses[i]) || responses[i].componentId in ComponentIds(responses[..i]) then !Acceptable(responses, accepts)
            else Acceptable(responses[..i + 1], accepts)
  {
    assert responses[..i + 1][..i] == responses[..i];
    assert ComponentIds(responses[..i + 1]) == ComponentIds(responses[..i]) + [responses[i].componentId];
    if responses[i].componentId in ComponentIds(responses[..i]) {
      var j :| 0 <= j < i && ComponentIds(responses[..i])[j] == responses[i].componentId;
      assert ComponentIds(responses)[j] == ComponentIds(responses)[i];
    }
  }

  method TidyComponents(components: seq<Component>) returns (tidied: seq<Component>)
    ensures tidied == TidyAll(Sort(components, ComponentLeq))
  {
    hide Sort, SortTexts;
    tidied := Sort(components, ComponentLeq);
    ghost var sorted := tidied;
    for i := 0 to |tidied|
      invariant |tidied| == |sorted|
      invariant forall j :: 0 <= j < i ==> tidied[j] == Tidy(sorted[j])
      invariant forall j :: i <= j < |sorted| ==> tidied[j] == sorted[j]
    {
      var component := tidied[i];
      component := component.(credentials := Sort(component.credentials, SlotLeq));
      component := component.(verification := SortTexts(component.verification));
      tidied := tidied[i := component];
    }
  }

  method Build(snapshot: Snapshot, fingerprint: string, responses: seq<Response>, active: string,
               accepts: Response -> bool, hash: Plan -> string) returns (built: Option<Plan>)
    ensures built == PlanOf(snapshot, fingerprint, responses, active, accepts, hash)
  {
    hide ActionsOf, Sort, Tidy, Acceptable;
    if !ValidDigest(fingerprint) {
      return None;
    }
    var kind := if active == "" then Install else if active != snapshot.bundleId then Upgrade else Noop;
    ghost var start := kind;
    var components: seq<Component>, actions: seq<Action>, seen: set<string> := [], [], {};
    NoResponses(responses, accepts);
    for i := 0 to |responses|
      invariant Acceptable(responses[..i], accepts)
      invariant forall id :: id in seen <==> id in ComponentIds(responses[..i])
      invariant components == ComponentsOf(responses[..i]) && actions == AllActions(responses[..i])
      invariant kind == if AnyBlocked(responses[..i]) then Blocked else start
    {
      var response := responses[i];
      ResponsesStep(responses, i, accepts);
      if !accepts(response) {
        return None;
      }
      if response.componentId in seen {
        return None;
      }
      seen := seen + {response.componentId};
      components := components + [ComponentOf(response)];
      BlockedStep(responses, i);
      if response.status == "blocked" {
        kind := Blocked;
      }
      var more := PlannedActions(response);
      actions := actions + more;
    }
    assert responses[..|responses|] == responses;
    if |actions| > 0 && kind == Noop {
      kind := Reconcile;
    }
    var ordered := Order(actions);
    if ordered.None? {
      return None;
    }
    components := TidyComponents(components);
    var plan := Plan(API_VERSION, snapshot.name, snapshot.digest, fingerprint, snapshot.bundleId, kind,
                     ordered.value, components, "");
    return Some(plan.(digest := hash(plan)));
  }

  lemma NoResponses(responses: seq<Response>, accepts: Response -> bool)
    ensures Acceptable(responses[..0], accepts) && ComponentIds(responses[..0]) == []
    ensures ComponentsOf(responses[..0]) == [] && AllActions(responses[..0]) == [] && !AnyBlocked(responses[..0])
  {
  }

  lemma BlockedStep(responses: seq<Response>, i: nat)
    requires i < |responses|
    ensures AnyBlocked(responses[..i + 1]) <==> AnyBlocked(responses[..i]) || responses[i].status == "blocked"
  {
    if AnyBlocked(responses[..i]) {
      var j :| 0 <= j < i && responses[..i][j].status == "blocked";
      assert responses[..i + 1][j].status == "blocked";
    }
    if responses[i].status == "blocked" {
      assert responses[..i + 1][i].status == "blocked";
    }
  }

  predicate ValidIdentity(plan: Plan) {
    && plan.apiVersion == API_VERSION && plan.deploymentName != "" && ValidDigest(plan.deploymentDigest)
    && ValidDigest(plan.observedFingerprint) && plan.runtimeBundleId != "" && ValidDigest(plan.digest)
  }

  method Validate(plan: Plan, hash: Plan -> string) returns (valid: bool)
    ensures valid <==>
            && plan.apiVersion == "unyolo.io/system-plan/v1" && plan.deploymentName != "" && plan.runtimeBundleId != ""
            && ValidDigest(plan.deploymentDigest) && ValidDigest(plan.observedFingerprint) && ValidDigest(plan.digest)
            && OrderActions(plan.actions).Some? && Ids(OrderActions(plan.actions).value) == Ids(plan.actions)
            && hash(plan.(digest := "")) == plan.digest
  {
    if !ValidIdentity(plan) {
      return false;
    }
    var ordered := Order(plan.actions);
    if ordered.None? || Ids(ordered.value) != Ids(plan.actions) {
      return false;
    }
    return hash(plan.(digest := "")) == plan.digest;
  }

  // --- Every order of the responses gives the same plan.

  lemma {:induction false} AllActionsPermute(a: seq<Response>, b: seq<Response>)
    requires multiset(a) == multiset(b)
    ensures multiset(AllActions(a)) == multiset(AllActions(b))
    decreases |a|
  {
    hide ActionsOf;
    assert |a| == |multiset(a)| == |multiset(b)| == |b|;
    if a != [] {
      var last := |a| - 1;
      var x := a[last];
      assert x in multiset(b);
      var j :| 0 <= j < |b| && b[j] == x;
      LastRemoved(a);
      ElementRemoved(b, j);
      AllActionsPermute(a[..last], b[..j] + b[j + 1..]);
      AllActionsWithout(b, j);
    }
  }

  lemma LastRemoved(a: seq<Response>)
    requires a != []
    ensures multiset(a[..|a| - 1]) == multiset(a) - multiset{a[|a| - 1]}
  {
    assert a == a[..|a| - 1] + [a[|a| - 1]];
  }

  lemma ElementRemoved(b: seq<Response>, j: nat)
    requires j < |b|
    ensures multiset(b[..j] + b[j + 1..]) == multiset(b) - multiset{b[j]}
  {
    assert b == b[..j] + [b[j]] + b[j + 1..];
  }

  lemma {:induction false} AllActionsJoin(a: seq<Response>, b: seq<Response>)
    ensures AllActions(a + b) == AllActions(a) + AllActions(b)
    decreases |b|
  {
    hide ActionsOf;
    if b == [] {
      assert a + b == a;
    } else {
      var last := |b| - 1;
      assert (a + b)[..|a + b| - 1] == a + b[..last];
      AllActionsJoin(a, b[..last]);
    }
  }

  lemma AllActionsAt(b: seq<Response>, j: nat)
    requires j < |b|
    ensures AllActions(b) == AllActions(b[..j]) + ActionsOf(b[j]) + AllActions(b[j + 1..])
  {
    hide ActionsOf;
    AllActionsJoin(b[..j + 1], b[j + 1..]);
    assert b == b[..j + 1] + b[j + 1..] && b[..j + 1][..j] == b[..j];
  }

  lemma MiddleMoved(p: seq<Action>, x: seq<Action>, q: seq<Action>)
    ensures multiset(p + x + q) == multiset(p + q) + multiset(x)
  {
  }

  lemma AllActionsWithout(b: seq<Response>, j: nat)
    requires j < |b|
    ensures multiset(AllActions(b)) == multiset(AllActions(b[..j] + b[j + 1..])) + multiset(ActionsOf(b[j]))
  {
    hide ActionsOf, AllActions;
    AllActionsAt(b, j);
    AllActionsJoin(b[..j], b[j + 1..]);
    MiddleMoved(AllActions(b[..j]), ActionsOf(b[j]), AllActions(b[j + 1..]));
  }

  lemma AcceptablePermutes(a: seq<Response>, b: seq<Response>, accepts: Response -> bool)
    requires multiset(a) == multiset(b) && Acceptable(a, accepts)
    ensures Acceptable(b, accepts)
  {
    forall i, j | 0 <= i < j < |a| ensures a[i] != a[j] {
      assert ComponentIds(a)[i] != ComponentIds(a)[j];
    }
    PermutationIsDistinct(a, b);
    forall i | 0 <= i < |b| ensures accepts(b[i]) {
      var k := IndexIn(a, b, i);
    }
    forall i, j | 0 <= i < j < |b| ensures ComponentIds(b)[i] != ComponentIds(b)[j] {
      var k := IndexIn(a, b, i);
      var l := IndexIn(a, b, j);
      assert ComponentIds(a)[k] == b[i].componentId && ComponentIds(a)[l] == b[j].componentId;
    }
  }

  lemma IndexIn(a: seq<Response>, b: seq<Response>, i: nat) returns (k: nat)
    requires multiset(a) == multiset(b) && i < |b|
    ensures k < |a| && a[k] == b[i]
  {
    assert b[i] in multiset(a);
    k :| k < |a| && a[k] == b[i];
  }

  lemma BlockedPermutes(a: seq<Response>, b: seq<Response>)
    requires multiset(a) == multiset(b) && AnyBlocked(a)
    ensures AnyBlocked(b)
  {
    var i :| 0 <= i < |a| && a[i].status == "blocked";
    var k := IndexIn(b, a, i);
  }

  lemma ComponentsPermute(a: seq<Response>, b: seq<Response>)
    requires multiset(a) == multiset(b) && Distinct(ComponentIds(a)) && Distinct(ComponentIds(b))
    ensures Sort(ComponentsOf(a), ComponentLeq) == Sort(ComponentsOf(b), ComponentLeq)
  {
    ComponentsDistinct(a);
    ComponentsDistinct(b);
    forall c: Component ensures c in ComponentsOf(a) <==> c in ComponentsOf(b) {
      if c in ComponentsOf(a) {
        var i :| 0 <= i < |a| && ComponentsOf(a)[i] == c;
        var k := IndexIn(b, a, i);
        assert ComponentsOf(b)[k] == c;
      }
      if c in ComponentsOf(b) {
        var i :| 0 <= i < |b| && ComponentsOf(b)[i] == c;
        var k := IndexIn(a, b, i);
        assert ComponentsOf(a)[k] == c;
      }
    }
    DistinctPermutes(ComponentsOf(a), ComponentsOf(b));
    ComponentOrder(a);
    SortOfPermutation(ComponentsOf(a), ComponentsOf(b), ComponentLeq);
  }

  lemma ComponentsDistinct(a: seq<Response>)
    requires Distinct(ComponentIds(a))
    ensures Distinct(ComponentsOf(a))
  {
    forall i, j | 0 <= i < j < |a| ensures ComponentsOf(a)[i] != ComponentsOf(a)[j] {
      assert ComponentIds(a)[i] != ComponentIds(a)[j];
    }
  }

  lemma ComponentOrder(a: seq<Response>)
    requires Distinct(ComponentIds(a))
    ensures TotalOrder(ComponentLeq) && Separates(ComponentLeq, ComponentsOf(a))
  {
    forall x, y ensures ComponentLeq(x, y) || ComponentLeq(y, x) { TextIsTotal(x.id, y.id); }
    forall x, y, z | ComponentLeq(x, y) && ComponentLeq(y, z) ensures ComponentLeq(x, z) {
      TextIsTransitive(x.id, y.id, z.id);
    }
    forall x, y | x in ComponentsOf(a) && y in ComponentsOf(a) && ComponentLeq(x, y) && ComponentLeq(y, x) ensures x == y {
      TextIsAntisymmetric(x.id, y.id);
      var i :| 0 <= i < |a| && ComponentsOf(a)[i] == x;
      var j :| 0 <= j < |a| && ComponentsOf(a)[j] == y;
      assert ComponentIds(a)[i] == ComponentIds(a)[j];
    }
  }

  lemma BuildIgnoresResponseOrder(snapshot: Snapshot, fingerprint: string, a: seq<Response>, b: seq<Response>, active: string,
                                  accepts: Response -> bool, hash: Plan -> string)
    requires multiset(a) == multiset(b)
    ensures PlanOf(snapshot, fingerprint, a, active, accepts, hash) == PlanOf(snapshot, fingerprint, b, active, accepts, hash)
  {
    hide AllActions, OrderActions, AnyBlocked, ComponentsOf, Sort, TidyAll, ValidDigest;
    if Acceptable(a, accepts) {
      AcceptablePermutes(a, b, accepts);
      AllActionsPermute(a, b);
      OrderIgnoresInputOrder(AllActions(a), AllActions(b));
      ComponentsPermute(a, b);
      assert AllActions(a) == [] <==> AllActions(b) == [] by {
        assert |multiset(AllActions(a))| == |AllActions(a)| && |multiset(AllActions(b))| == |AllActions(b)|;
      }
      assert AnyBlocked(a) == AnyBlocked(b) by {
        if AnyBlocked(a) { BlockedPermutes(a, b); }
        if AnyBlocked(b) { BlockedPermutes(b, a); }
      }
    } else if Acceptable(b, accepts) {
      AcceptablePermutes(b, a, accepts);
    }
  }

  // A plan that was built from valid identity fields passes validation.
  lemma BuiltPlanIsValid(snapshot: Snapshot, fingerprint: string, responses: seq<Response>, active: string,
                         accepts: Response -> bool, hash: Plan -> string)
    requires snapshot.name != "" && ValidDigest(snapshot.digest) && snapshot.bundleId != ""
    requires forall plan :: ValidDigest(hash(plan))
    ensures var built := PlanOf(snapshot, fingerprint, responses, active, accepts, hash);
            built.Some? ==>
              && ValidIdentity(built.value)
              && OrderActions(built.value.actions) == Some(built.value.actions)
              && hash(built.value.(digest := "")) == built.value.digest
  {
    hide AllActions, OrderActions, AnyBlocked, ComponentsOf, Sort, TidyAll, ValidDigest, Acceptable;
    if OrderActions(AllActions(responses)).Some? {
      OrderIsFixedPoint(AllActions(responses));
    }
  }

  lemma {:induction false} NoActionsExactly(responses: seq<Response>)
    ensures AllActions(responses) == [] <==> forall i :: 0 <= i < |responses| ==> responses[i].actions == []
  {
    if responses != [] {
      var last := |responses| - 1;
      NoActionsExactly(responses[..last]);
      assert |ActionsOf(responses[last])| == |responses[last].actions|;
      assert forall i :: 0 <= i < last ==> responses[..last][i] == responses[i];
    }
  }

  lemma OrderKeepsCount(actions: seq<Action>)
    requires OrderActions(actions).Some?
    ensures |OrderActions(actions).value| == |actions|
  {
    hide OrderActions, DependenciesFirst;
    OrderPermutes(actions);
    var result := OrderActions(actions).value;
    assert |multiset(result)| == |result| && |multiset(CanonicalAll(actions))| == |CanonicalAll(actions)|;
  }

  // A built plan is a no-op if and only if the wanted bundle is already active, no component is blocked
  // and the ordered plan has no action, which is so exactly if no component planned one; the same plan
  // with actions is a reconciliation.
  lemma BuiltKindMeans(snapshot: Snapshot, fingerprint: string, responses: seq<Response>, active: string,
                       accepts: Response -> bool, hash: Plan -> string)
    ensures var built := PlanOf(snapshot, fingerprint, responses, active, accepts, hash);
            built.Some? ==>
              var plan := built.value;
              var current := active != "" && active == plan.runtimeBundleId && !AnyBlocked(responses);
              && (plan.kind == Noop <==> current && plan.actions == [])
              && (plan.kind == Reconcile <==> current && plan.actions != [])
              && (plan.actions == [] <==> forall i :: 0 <= i < |responses| ==> responses[i].actions == [])
  {
    hide AllActions, OrderActions, AnyBlocked, ComponentsOf, Sort, TidyAll, ValidDigest, Acceptable;
    NoActionsExactly(responses);
    if OrderActions(AllActions(responses)).Some? {
      OrderKeepsCount(AllActions(responses));
    }
  }
}
