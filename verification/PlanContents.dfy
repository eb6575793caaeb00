// What a built plan says: every planned action and every component of the responses, each with its own
// values, and nothing else.
module PlanContents {
  import opened Options
  import opened Sorting
  import opened PlanOrder
  import opened PlanBuild

  // --- Actions.

  function QualifiedName(componentId: string, name: string): string {
    if '.' in name then name else componentId + "." + name
  }

  // The dependencies of a plan action are the qualified ones of the planned action, in order.
  ghost predicate DependsAlike(action: Action, componentId: string, planned: Planned) {
    && SortedBy(action.dependsOn, TextLeq)
    && |action.dependsOn| == |planned.dependsOn|
    && (forall name :: name in planned.dependsOn ==> QualifiedName(componentId, name) in action.dependsOn)
    && (forall name :: name in action.dependsOn ==>
          exists i :: 0 <= i < |planned.dependsOn| && name == QualifiedName(componentId, planned.dependsOn[i]))
  }

  ghost predicate Carries(action: Action, componentId: string, planned: Planned) {
    && action.id == componentId + "." + planned.id && action.componentId == componentId
    && action.kind == planned.kind && action.risk == planned.risk && action.resource == planned.resource
    && action.currentDigest == planned.currentDigest && action.desiredDigest == planned.desiredDigest
    && action.restart == planned.restart
    && DependsAlike(action, componentId, planned)
  }

  lemma ActionCarries(componentId: string, planned: Planned)
    ensures Carries(ActionOf(componentId, planned), componentId, planned)
  {
    hide Sort;
    var qualified := Qualified(componentId, planned.dependsOn);
    TextOrder(qualified);
    SortSorts(qualified, TextLeq);
    SortPermutes(qualified, TextLeq);
    forall name | name in planned.dependsOn ensures QualifiedName(componentId, name) in SortTexts(qualified) {
      var i :| 0 <= i < |planned.dependsOn| && planned.dependsOn[i] == name;
      assert qualified[i] == QualifiedName(componentId, name);
      SortTextsMembers(qualified, qualified[i]);
    }
    forall name | name in SortTexts(qualified)
      ensures exists i :: 0 <= i < |planned.dependsOn| && name == QualifiedName(componentId, planned.dependsOn[i])
    {
      SortTextsMembers(qualified, name);
      var i :| 0 <= i < |qualified| && qualified[i] == name;
      assert name == QualifiedName(componentId, planned.dependsOn[i]);
    }
  }

  // Actions whose dependencies are sorted are canonical as they are.
  lemma {:induction false} AllAreCanonical(responses: seq<Response>, i: nat)
    requires i < |AllActions(responses)|
    ensures PlanOrder.Canonical(AllActions(responses)[i]) == AllActions(responses)[i]
  {
    hide SortTexts;
    var last := |responses| - 1;
    var earlier := AllActions(responses[..last]);
    if i < |earlier| {
      AllAreCanonical(responses[..last], i);
    } else {
      var planned := responses[last].actions[i - |earlier|];
      SortTextsAgain(Qualified(responses[last].componentId, planned.dependsOn));
    }
  }

  // The actions to order are those that the responses plan, one for each.
  lemma {:induction false} PlannedAreAll(responses: seq<Response>, i: nat, j: nat)
    requires i < |responses| && j < |responses[i].actions|
    ensures ActionOf(responses[i].componentId, responses[i].actions[j]) in AllActions(responses)
  {
    hide ActionOf;
    var last := |responses| - 1;
    if i < last {
      PlannedAreAll(responses[..last], i, j);
    } else {
      assert ActionsOf(responses[last])[j] in ActionsOf(responses[last]);
    }
  }

  lemma {:induction false} AllArePlanned(responses: seq<Response>, action: Action) returns (i: nat, j: nat)
    requires action in AllActions(responses)
    ensures i < |responses| && j < |responses[i].actions|
    ensures action == ActionOf(responses[i].componentId, responses[i].actions[j])
  {
    hide ActionOf;
    var last := |responses| - 1;
    if action in AllActions(responses[..last]) {
      i, j := AllArePlanned(responses[..last], action);
    } else {
      i := last;
      j :| 0 <= j < |ActionsOf(responses[last])| && ActionsOf(responses[last])[j] == action;
    }
  }

  function PlannedCount(responses: seq<Response>): nat {
    if responses == [] then 0 else PlannedCount(responses[..|responses| - 1]) + |responses[|responses| - 1].actions|
  }

  lemma {:induction false} CountOfAll(responses: seq<Response>)
    ensures |AllActions(responses)| == PlannedCount(responses)
  {
    if responses != [] {
      CountOfAll(responses[..|responses| - 1]);
    }
  }

  lemma OrderedMembers(responses: seq<Response>)
    requires OrderActions(AllActions(responses)).Some?
    ensures var actions := OrderActions(AllActions(responses)).value;
            && (forall action :: action in actions <==> action in AllActions(responses))
            && |actions| == |AllActions(responses)| && ValidIds(actions)
  {
    hide OrderActions, AllActions, PlanOrder.Canonical, DependenciesFirst;
    var all := AllActions(responses);
    OrderPermutes(all);
    OrderKeepsCount(all);
    forall i | 0 <= i < |all| ensures PlanOrder.Canonical(all[i]) == all[i] {
      AllAreCanonical(responses, i);
    }
    assert CanonicalAll(all) == all;
    SameMembers(OrderActions(all).value, all);
  }

  lemma SameMembers(a: seq<Action>, b: seq<Action>)
    requires multiset(a) == multiset(b)
    ensures forall action :: action in a <==> action in b
  {
    forall action: Action ensures action in a <==> action in b {
      assert (action in a <==> action in multiset(a)) && (action in b <==> action in multiset(b));
    }
  }

  // For each response and each action it planned the plan has exactly one action, which carries its
  // values; and the plan has no other action.
  lemma EveryActionIsPlanned(snapshot: Snapshot, fingerprint: string, responses: seq<Response>, active: string,
                             accepts: Response -> bool, hash: Plan -> string, i: nat, j: nat)
    requires i < |responses| && j < |responses[i].actions|
    ensures var built := PlanOf(snapshot, fingerprint, responses, active, accepts, hash);
            built.Some? ==>
              var actions, id := built.value.actions, responses[i].componentId + "." + responses[i].actions[j].id;
              && (exists k :: 0 <= k < |actions| && Carries(actions[k], responses[i].componentId, responses[i].actions[j]))
              && (forall k, l :: 0 <= k < |actions| && 0 <= l < |actions| && actions[k].id == id && actions[l].id == id ==> k == l)
  {
    hide AllActions, OrderActions, ActionOf, Acceptable, Sort, TidyAll, Carries;
    if PlanOf(snapshot, fingerprint, responses, active, accepts, hash).Some? {
      var actions := OrderActions(AllActions(responses)).value;
      OrderedMembers(responses);
      PlannedAreAll(responses, i, j);
      ActionCarries(responses[i].componentId, responses[i].actions[j]);
      var k :| 0 <= k < |actions| && actions[k] == ActionOf(responses[i].componentId, responses[i].actions[j]);
      forall k, l | 0 <= k < l < |actions| ensures actions[k].id != actions[l].id {
        assert Ids(actions)[k] != Ids(actions)[l];
      }
    }
  }

  lemma EveryActionHasSource(snapshot: Snapshot, fingerprint: string, responses: seq<Response>, active: string,
                             accepts: Response -> bool, hash: Plan -> string, k: nat)
    ensures var built := PlanOf(snapshot, fingerprint, responses, active, accepts, hash);
            built.Some? && k < |built.value.actions| ==>
              && |built.value.actions| == PlannedCount(responses)
              && exists i, j :: 0 <= i < |responses| && 0 <= j < |responses[i].actions|
                                && Carries(built.value.actions[k], responses[i].componentId, responses[i].actions[j])
  {
    hide AllActions, OrderActions, ActionOf, Acceptable, Sort, TidyAll, Carries;
    var built := PlanOf(snapshot, fingerprint, responses, active, accepts, hash);
    if built.Some? && k < |built.value.actions| {
      OrderedMembers(responses);
      CountOfAll(responses);
      assert built.value.actions[k] in built.value.actions;
      var i, j := AllArePlanned(responses, built.value.actions[k]);
      ActionCarries(responses[i].componentId, responses[i].actions[j]);
    }
  }

  // --- Components.

  // The component of a response, with its credentials and verification in order.
  ghost predicate Describes(component: Component, response: Response) {
    && component.id == response.componentId && component.planDigest == response.planDigest
    && component.blockedReason == response.blockedReason
    && multiset(component.credentials) == multiset(response.credentials) && SortedBy(component.credentials, SlotLeq)
    && multiset(component.verification) == multiset(response.verification) && SortedBy(component.verification, TextLeq)
  }

  lemma TidyDescribes(response: Response)
    ensures Describes(Tidy(ComponentOf(response)), response)
  {
    hide Sort;
    SlotOrder();
    TextOrder([]);
    SortSorts(response.credentials, SlotLeq);
    SortPermutes(response.credentials, SlotLeq);
    SortSorts(response.verification, TextLeq);
    SortPermutes(response.verification, TextLeq);
  }

  lemma SlotOrder()
    ensures TotalOrder(SlotLeq)
  {
    forall x, y ensures SlotLeq(x, y) || SlotLeq(y, x) { TextIsTotal(x.slot, y.slot); }
    forall x, y, z | SlotLeq(x, y) && SlotLeq(y, z) ensures SlotLeq(x, z) { TextIsTransitive(x.slot, y.slot, z.slot); }
  }

  ghost predicate Described(components: seq<Component>, response: Response) {
    exists k :: 0 <= k < |components| && Describes(components[k], response)
  }

  ghost predicate Known(component: Component, responses: seq<Response>) {
    exists i :: 0 <= i < |responses| && Describes(component, responses[i])
  }

  // One component for each response and no other, in the order of their identities.
  ghost predicate DescribesAll(components: seq<Component>, responses: seq<Response>) {
    && |components| == |responses|
    && (forall i :: 0 <= i < |responses| ==> Described(components, responses[i]))
    && (forall k :: 0 <= k < |components| ==> Known(components[k], responses))
    && SortedBy(components, ComponentLeq)
  }

  function Tidied(responses: seq<Response>): seq<Component> { TidyAll(Sort(ComponentsOf(responses), ComponentLeq)) }

  lemma ResponseIsDescribed(responses: seq<Response>, i: nat) returns (k: nat)
    requires i < |responses|
    ensures k < |Tidied(responses)| && Describes(Tidied(responses)[k], responses[i])
  {
    hide Sort, Tidy, Describes, ComponentLeq;
    var raw := ComponentsOf(responses);
    SortMembers(raw, ComponentLeq, raw[i]);
    k :| 0 <= k < |Sort(raw, ComponentLeq)| && Sort(raw, ComponentLeq)[k] == raw[i];
    TidyDescribes(responses[i]);
  }

  lemma ComponentDescribes(responses: seq<Response>, k: nat) returns (i: nat)
    requires k < |Tidied(responses)|
    ensures i < |responses| && Describes(Tidied(responses)[k], responses[i])
  {
    hide Sort, Tidy, Describes, ComponentLeq;
    var raw := ComponentsOf(responses);
    SortMembers(raw, ComponentLeq, Sort(raw, ComponentLeq)[k]);
    i :| 0 <= i < |raw| && raw[i] == Sort(raw, ComponentLeq)[k];
    TidyDescribes(responses[i]);
  }

  lemma AllDescribed(responses: seq<Response>)
    ensures forall i :: 0 <= i < |responses| ==> Described(Tidied(responses), responses[i])
  {
    hide Tidied, Describes;
    forall i | 0 <= i < |responses| ensures Described(Tidied(responses), responses[i]) {
      var k := ResponseIsDescribed(responses, i);
    }
  }

  lemma AllKnown(responses: seq<Response>)
    ensures forall k :: 0 <= k < |Tidied(responses)| ==> Known(Tidied(responses)[k], responses)
  {
    hide Tidied, Describes;
    forall k | 0 <= k < |Tidied(responses)| ensures Known(Tidied(responses)[k], responses) {
      var i := ComponentDescribes(responses, k);
    }
  }

  lemma TidiedDescribe(responses: seq<Response>)
    ensures DescribesAll(Tidied(responses), responses)
  {
    TidiedInOrder(ComponentsOf(responses));
    TidiedCount(responses);
    AllDescribed(responses);
    AllKnown(responses);
    hide Described, Known, SortedBy;
  }

  lemma TidiedCount(responses: seq<Response>)
    ensures |Tidied(responses)| == |responses|
  {
    SortPermutes(ComponentsOf(responses), ComponentLeq);
  }

  lemma EveryComponentIsDescribed(snapshot: Snapshot, fingerprint: string, responses: seq<Response>, active: string,
                                  accepts: Response -> bool, hash: Plan -> string)
    ensures var built := PlanOf(snapshot, fingerprint, responses, active, accepts, hash);
            built.Some? ==> DescribesAll(built.value.components, responses)
  {
    TidiedDescribe(responses);
    hide AllActions, OrderActions, Acceptable, Sort, TidyAll, ComponentsOf, DescribesAll;
  }

  lemma TidiedInOrder(components: seq<Component>)
    ensures SortedBy(TidyAll(Sort(components, ComponentLeq)), ComponentLeq)
  {
    hide Sort, TextLeq;
    forall x: Component, y: Component ensures ComponentLeq(x, y) || ComponentLeq(y, x) { TextIsTotal(x.id, y.id); }
    forall x: Component, y: Component, z: Component | ComponentLeq(x, y) && ComponentLeq(y, z) ensures ComponentLeq(x, z) {
      TextIsTransitive(x.id, y.id, z.id);
    }
    SortSorts(components, ComponentLeq);
  }

  // --- The rest.

  // A plan is built exactly from a valid fingerprint and acceptable responses of different components,
  // whose actions can be ordered; it names what the snapshot names, and carries the digest of the rest.
  lemma BuildSucceedsExactly(snapshot: Snapshot, fingerprint: string, responses: seq<Response>, active: string,
                             accepts: Response -> bool, hash: Plan -> string)
    ensures var built, byId := PlanOf(snapshot, fingerprint, responses, active, accepts, hash), ById(AllActions(responses));
            && (built.Some? <==>
                  && ValidDigest(fingerprint) && (forall i :: 0 <= i < |responses| ==> accepts(responses[i]))
                  && (forall i, j :: 0 <= i < j < |responses| ==> responses[i].componentId != responses[j].componentId)
                  && ValidIds(AllActions(responses)) && !HasMissing(byId) && !HasCycle(byId))
            && (built.Some? ==>
                  var plan := built.value;
                  && plan.apiVersion == "unyolo.io/system-plan/v1" && plan.deploymentName == snapshot.name
                  && plan.deploymentDigest == snapshot.digest && plan.observedFingerprint == fingerprint
                  && plan.runtimeBundleId == snapshot.bundleId && plan.digest == hash(plan.(digest := ""))
                  && (plan.kind == Blocked <==> exists i :: 0 <= i < |responses| && responses[i].status == "blocked")
                  && (plan.kind == Install <==> plan.kind != Blocked && active == "")
                  && (plan.kind == Upgrade <==> plan.kind != Blocked && active != "" && active != snapshot.bundleId))
  {
    hide AllActions, OrderActions, Sort, TidyAll, HasMissing, HasCycle, ById, ValidIds;
    OrderSucceedsExactly(AllActions(responses));
    assert forall i :: 0 <= i < |responses| ==> ComponentIds(responses)[i] == responses[i].componentId;
  }
}
