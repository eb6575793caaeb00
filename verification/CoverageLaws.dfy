// What an active grant lets through: the request it was given for, and nothing that differs from it in
// client, operation or kind, or in more than the constraints leave open.
module CoverageLaws {
  import opened Options
  import opened Text
  import opened Sorting
  import Glob
  import opened Rules
  import opened ManagedDecision
  import Ambiguity

  // --- Modes.

  // An unset mode matches globs, as do the two glob modes; a text without special characters matches
  // exactly itself.
  lemma UnsetIsGlob(effect: Effect, patterns: seq<string>, values: seq<string>)
    ensures EffectValuesMatch(effect, Unset, patterns, values) <==> EffectValuesMatch(effect, GlobMode, patterns, values)
  {
  }

  lemma PlainIsItself(plain: string, value: string, mode: MatchMode)
    requires Ambiguity.LiteralValue(plain) == Some(plain) && (mode.Unset? || mode.GlobMode? || mode.AnyGlob?)
    ensures ValueMatches(mode, [plain], value) <==> value == plain && !Blank(value)
  {
    Ambiguity.LiteralMatchesItself(plain, value);
    assert [plain][0] == plain;
  }

  // --- The grant of a request.

  // A policy grant as the store hands it out for an accepted request.
  function GrantFor(request: Request, id: string, expiresAt: nat, usesLeft: nat, unlimited: bool): ActiveGrant {
    ActiveGrant(id, request.client, request.operation, request.target, request.attrs, expiresAt, usesLeft, unlimited)
  }

  // The values of the request match themselves in the modes that the registry asks for.
  ghost predicate SelfMatching(registry: Registry, request: Request) {
    && (forall name :: name in request.target.fields && request.target.kind in registry.targets
                       && name in registry.targets[request.target.kind] ==>
          AllValuesMatch(registry.targets[request.target.kind][name].match_, request.target.fields[name], request.target.fields[name]))
    && (forall name :: name in request.attrs ==>
          Covers(GrantAttrOf(registry, name), request.attrs[name], request.attrs[name]))
  }

  // The request that a grant was given for is covered until the grant expires or its uses are spent.
  lemma OwnRequestIsCovered(registry: Registry, request: Request, id: string, expiresAt: nat, usesLeft: nat, unlimited: bool, now: nat)
    requires ValidRequest(registry, request) && SelfMatching(registry, request)
    ensures Usable(registry, GrantFor(request, id, expiresAt, usesLeft, unlimited), request, now)
            <==> now < expiresAt && (unlimited || usesLeft > 0)
  {
    hide AllValuesMatch, Covers;
  }

  // Nothing else is covered: a grant that covers a request names its client, operation and kind, and
  // constrains every required field and every attribute that it may not leave open.
  lemma CoveredIsNamed(registry: Registry, grant: ActiveGrant, request: Request, now: nat)
    requires Usable(registry, grant, request, now)
    ensures grant.client == request.client && grant.operation == request.operation && grant.target.kind == request.target.kind
    ensures now < grant.expiresAt && (grant.unlimited || grant.usesLeft >= 1)
    ensures forall name :: name in FieldsOf(registry, request.target.kind) && FieldsOf(registry, request.target.kind)[name].required ==>
                             ValuesOf(grant.target.fields, name) != []
    ensures forall name :: name in request.attrs && !GrantAttrOf(registry, name).mayOmit ==> name in grant.attrs
    ensures forall name :: name in grant.attrs ==> name in request.attrs
  {
    hide AllValuesMatch, Covers;
  }

  // Two requests that one grant covers have the same values of every attribute that the grant
  // constrains without a mode, and in the others their values are all within the constraint.
  lemma CoveredAgree(registry: Registry, grant: ActiveGrant, a: Request, b: Request, name: string)
    requires GrantCovers(registry, grant, a) && GrantCovers(registry, grant, b) && name in grant.attrs
    ensures name in a.attrs && name in b.attrs
    ensures GrantAttrOf(registry, name).match_.Unset? ==> SameElements(a.attrs[name], b.attrs[name])
    ensures !GrantAttrOf(registry, name).match_.Unset? ==>
              AllValuesMatch(GrantAttrOf(registry, name).match_, grant.attrs[name], a.attrs[name])
  {
    hide AllValuesMatch, TargetCovered;
    assert Covers(GrantAttrOf(registry, name), grant.attrs[name], a.attrs[name]);
    assert Covers(GrantAttrOf(registry, name), grant.attrs[name], b.attrs[name]);
  }

  // Every field that the grant constrains is matched in all its values.
  lemma CoveredFields(registry: Registry, grant: ActiveGrant, request: Request, name: string)
    requires GrantCovers(registry, grant, request) && name in grant.target.fields
    ensures name in FieldsOf(registry, request.target.kind)
    ensures AllValuesMatch(ModeOf(FieldsOf(registry, request.target.kind), name), grant.target.fields[name],
                           ValuesOf(request.target.fields, name))
  {
    hide AllValuesMatch, AttrsCovered;
  }
}
