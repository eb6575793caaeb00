// Policy rules and how they match a classified request:
// authorization/policy/types.go, registry.go, match.go and decide.go.
module Rules {
  import opened Options
  import opened Text
  import Glob
  import PathPatterns

  datatype MatchMode = Unset | GlobMode | AnyGlob | PathGlob | RecursivePathGlob | PathOutsidePrefix | IntegerMaximum
  datatype Effect = Allow | Ask | Deny | NoMatch
  datatype CredentialUse = Anonymous | Managed

  type Values = map<string, seq<string>>

  datatype Target = Target(kind: string, fields: Values)
  datatype Request = Request(client: string, operation: string, target: Target, attrs: Values)

  datatype GrantPolicy = GrantPolicy(
    mode: string, defaultMinutes: int, maxMinutes: int, requestTTLMinutes: int, defaultMaxUses: int, maxUses: int)

  datatype Rule = Rule(
    id: string, effect: Effect, clients: seq<string>, operations: seq<string>, targets: seq<Target>,
    attrs: Values, credentialUses: seq<CredentialUse>, grantPolicy: Option<GrantPolicy>)

  datatype OperationSpec = OperationSpec(
    targetKinds: seq<string>, attrs: seq<string>, grantable: bool, credentialUses: seq<CredentialUse>)
  datatype FieldSpec = FieldSpec(required: bool, match_: MatchMode)
  // `grantAttrs` says how a grant constrains an attribute: an unset mode asks for the same values.
  datatype GrantAttrSpec = GrantAttrSpec(match_: MatchMode, mayOmit: bool)
  datatype Registry = Registry(
    operations: map<string, OperationSpec>, targets: map<string, map<string, FieldSpec>>, attrs: map<string, MatchMode>,
    grantAttrs: map<string, GrantAttrSpec>)

  // Lookups give the zero value for a missing key, as Go maps do.
  function OperationOf(registry: Registry, name: string): OperationSpec {
    if name in registry.operations then registry.operations[name] else OperationSpec([], [], false, [])
  }

  function FieldsOf(registry: Registry, kind: string): map<string, FieldSpec> {
    if kind in registry.targets then registry.targets[kind] else map[]
  }

  function ModeOf(fields: map<string, FieldSpec>, name: string): MatchMode {
    if name in fields then fields[name].match_ else Unset
  }

  function AttrModeOf(registry: Registry, name: string): MatchMode {
    if name in registry.attrs then registry.attrs[name] else Unset
  }

  function ValuesOf(values: Values, name: string): seq<string> {
    if name in values then values[name] else []
  }

  function Defaulted(mode: MatchMode): MatchMode {
    if mode.Unset? then GlobMode else mode
  }

  // patternsMatch
  predicate PatternsMatch(patterns: seq<string>, value: string) {
    !Blank(value) && exists i :: 0 <= i < |patterns| && Glob.Matches(patterns[i], value)
  }

  predicate HasPrefix(s: string, prefix: string) {
    prefix <= s
  }

  function TrimSlash(s: string): string {
    if s != "" && s[|s| - 1] == '/' then s[..|s| - 1] else s
  }

  // pathOutsidePrefixes
  predicate OutsidePrefixes(prefixes: seq<string>, value: string) {
    forall i :: 0 <= i < |prefixes| ==>
      var prefix := TrimSlash(prefixes[i]);
      value != prefix && !HasPrefix(value, prefix + "/")
  }

  // strconv.ParseInt(s, 10, 64)
  function ParseInt(s: string): Option<int> {
    if s != "" && (s[0] == '+' || s[0] == '-') then
      match ParseDigits(s[1..])
      case None => None
      case Some(n) => InRange(if s[0] == '-' then -n else n)
    else
      match ParseDigits(s)
      case None => None
      case Some(n) => InRange(n)
  }

  function InRange(n: int): Option<int> {
    if -0x8000_0000_0000_0000 <= n < 0x8000_0000_0000_0000 then Some(n) else None
  }

  function ParseDigits(s: string): Option<int> {
    if s == "" then None
    else if !('0' <= s[|s| - 1] <= '9') then None
    else
      var digit := s[|s| - 1] as int - '0' as int;
      if |s| == 1 then Some(digit)
      else
        match ParseDigits(s[..|s| - 1])
        case None => None
        case Some(n) => Some(10 * n + digit)
  }

  // integerMaximumMatches
  predicate IntegerMaximumMatches(ceilings: seq<string>, value: string) {
    && ParseInt(value).Some? && ParseInt(value).value >= 0
    && exists i :: 0 <= i < |ceilings| && ParseInt(ceilings[i]).Some? && ParseInt(value).value <= ParseInt(ceilings[i]).value
  }

  ghost predicate ValueMatches(mode: MatchMode, patterns: seq<string>, value: string) {
    match Defaulted(mode)
    case PathGlob => PathPatterns.PathMatch(patterns, value)
    case RecursivePathGlob => PathPatterns.RecursivePathMatch(patterns, value)
    case PathOutsidePrefix => OutsidePrefixes(patterns, value)
    case IntegerMaximum => IntegerMaximumMatches(patterns, value)
    case _ => PatternsMatch(patterns, value)
  }

  ghost predicate AnyValueMatches(mode: MatchMode, patterns: seq<string>, values: seq<string>) {
    exists i :: 0 <= i < |values| && ValueMatches(mode, patterns, values[i])
  }

  ghost predicate AllValuesMatch(mode: MatchMode, patterns: seq<string>, values: seq<string>) {
    && values != []
    && if Defaulted(mode).AnyGlob? then AnyValueMatches(mode, patterns, values)
       else forall i :: 0 <= i < |values| ==> ValueMatches(mode, patterns, values[i])
  }

  // A deny rule matches on any value, every other rule needs all of them.
  ghost predicate EffectValuesMatch(effect: Effect, mode: MatchMode, patterns: seq<string>, values: seq<string>) {
    if effect.Deny? then AnyValueMatches(mode, patterns, values) else AllValuesMatch(mode, patterns, values)
  }

  ghost predicate TargetFieldsMatch(fields: map<string, FieldSpec>, effect: Effect, patterns: Values, values: Values) {
    forall name :: name in patterns ==>
      EffectValuesMatch(effect, ModeOf(fields, name), patterns[name], ValuesOf(values, name))
  }

  ghost predicate TargetsMatch(registry: Registry, effect: Effect, matchers: seq<Target>, target: Target) {
    exists i :: 0 <= i < |matchers|
      && matchers[i].kind == target.kind
      && TargetFieldsMatch(FieldsOf(registry, target.kind), effect, matchers[i].fields, target.fields)
  }

  ghost predicate AttrsMatch(registry: Registry, effect: Effect, patterns: Values, operation: string, attrs: Values) {
    forall name :: name in patterns && name in OperationOf(registry, operation).attrs ==>
      name in attrs && EffectValuesMatch(effect, AttrModeOf(registry, name), patterns[name], attrs[name])
  }

  predicate RuleCredentialUseMatches(rule: Rule, use: CredentialUse) {
    if rule.credentialUses == [] then rule.effect.Deny? || use.Managed? else use in rule.credentialUses
  }

  ghost predicate RuleMatches(registry: Registry, rule: Rule, request: Request, use: CredentialUse) {
    && RuleCredentialUseMatches(rule, use)
    && PatternsMatch(rule.clients, request.client)
    && PatternsMatch(rule.operations, request.operation)
    && TargetsMatch(registry, rule.effect, rule.targets, request.target)
    && AttrsMatch(registry, rule.effect, rule.attrs, request.operation, request.attrs)
  }

  // ----- decide.go

  datatype Decision = Decision(effect: Effect, allowed: bool, ruleIds: seq<string>, grantPolicy: Option<GrantPolicy>)

  // matchingRuleIDs
  ghost function MatchingRuleIds(rules: seq<Rule>, registry: Registry, request: Request, effect: Effect, use: CredentialUse): seq<string> {
    if rules == [] then []
    else
      (if rules[0].effect == effect && RuleMatches(registry, rules[0], request, use) then [rules[0].id] else [])
      + MatchingRuleIds(rules[1..], registry, request, effect, use)
  }

  // firstGrantPolicy
  function FirstGrantPolicy(rules: seq<Rule>, id: string): Option<GrantPolicy> {
    if rules == [] then None
    else if rules[0].id == id && rules[0].grantPolicy.Some? then rules[0].grantPolicy
    else FirstGrantPolicy(rules[1..], id)
  }

  // staticRuleDecision
  ghost function StaticRuleDecision(rules: seq<Rule>, registry: Registry, request: Request, grantRequest: bool, use: CredentialUse): Decision {
    var allows := MatchingRuleIds(rules, registry, request, Allow, use);
    var asks := MatchingRuleIds(rules, registry, request, Ask, use);
    if allows != [] then Decision(Allow, true, allows, None)
    else if asks == [] then Decision(NoMatch, false, [], None)
    else if grantRequest then Decision(Ask, false, asks, FirstGrantPolicy(rules, asks[0]))
    else Decision(Deny, false, asks, None)
  }

  // OperationSpec.SupportsCredentialUse
  predicate SupportsCredentialUse(spec: OperationSpec, use: CredentialUse) {
    if spec.credentialUses == [] then use.Managed? else use in spec.credentialUses
  }

  // What strings.TrimSpace leaves of a text that is not blank.
  predicate Trimmed(s: string) {
    s != "" && !IsSpace(s[0]) && !IsSpace(s[|s| - 1])
  }

  // normalizePatternsWithoutValidation: trimmed entries, each of them once.
  predicate Listed(values: seq<string>) {
    && values != []
    && (forall i :: 0 <= i < |values| ==> Trimmed(values[i]))
    && forall i, j :: 0 <= i < j < |values| ==> values[i] != values[j]
  }

  ghost predicate NormalizedTarget(target: Target, registry: Registry) {
    && target.kind in registry.targets
    && (forall name :: name in registry.targets[target.kind] && registry.targets[target.kind][name].required ==>
          ValuesOf(target.fields, name) != [])
    && forall name :: name in target.fields ==>
         && name in registry.targets[target.kind]
         && Listed(target.fields[name])
         && ValidMatchValues(target.fields[name], registry.targets[target.kind][name].match_)
  }

  ghost predicate NormalizedOperation(name: string, rule: Rule, registry: Registry) {
    && ValidGlob(name)
    && name in registry.operations
    && var spec := registry.operations[name];
       && (rule.effect.Ask? ==> spec.grantable)
       && (rule.credentialUses != [Managed] ==> forall use :: use in rule.credentialUses ==> SupportsCredentialUse(spec, use))
       && (forall attr :: attr in rule.attrs ==> attr in spec.attrs)
       && forall i :: 0 <= i < |rule.targets| ==> rule.targets[i].kind in spec.targetKinds
  }

  predicate NormalizedUses(rule: Rule) {
    && (rule.effect.Deny? <==> rule.credentialUses == [])
    && (rule.effect.Ask? ==> Anonymous !in rule.credentialUses)
    && forall i, j :: 0 <= i < j < |rule.credentialUses| ==> rule.credentialUses[i] != rule.credentialUses[j]
  }

  // What normalizeRule guarantees about a rule it accepts (parse.go:93-316, 538-569). An absent list of
  // credential uses becomes the managed one without a look at the operations.
  ghost predicate Normalized(rule: Rule, registry: Registry) {
    && (rule.effect.Allow? || rule.effect.Ask? || rule.effect.Deny?)
    && Trimmed(rule.id)
    && NormalizedUses(rule)
    && (rule.effect.Ask? <==> rule.grantPolicy.Some?)
    && Listed(rule.clients) && Listed(rule.operations) && rule.targets != []
    && (forall i :: 0 <= i < |rule.clients| ==> ValidGlob(rule.clients[i]))
    && (forall i :: 0 <= i < |rule.operations| ==> NormalizedOperation(rule.operations[i], rule, registry))
    && (forall i :: 0 <= i < |rule.targets| ==> NormalizedTarget(rule.targets[i], registry))
    && (forall name :: name in rule.attrs ==>
          name in registry.attrs && Listed(rule.attrs[name]) && ValidMatchValues(rule.attrs[name], registry.attrs[name]))
  }

  predicate ValidGlob(pattern: string) {
    !PathPatterns.ContainsDoubleStar(pattern) && Glob.Parse(pattern).Some?
  }

  predicate ValidMatchValues(values: seq<string>, mode: MatchMode) {
    && values != []
    && forall i :: 0 <= i < |values| ==>
         match Defaulted(mode)
         case PathGlob => PathPatterns.ValidPathGlob(values[i])
         case RecursivePathGlob => PathPatterns.ValidRecursivePathGlob(values[i])
         case PathOutsidePrefix => ValidPathPrefix(values[i])
         case IntegerMaximum => ParseInt(values[i]).Some? && ParseInt(values[i]).value >= 0
         case _ => ValidGlob(values[i])
  }

  // validatePathPrefix
  predicate ValidPathPrefix(prefix: string) {
    && (prefix == "" || prefix[0] != '/')
    && '*' !in prefix && '?' !in prefix && '[' !in prefix && '\\' !in prefix
    && ByteLength(prefix) <= PathPatterns.MAX_PATTERN_BYTES
    && |Split(TrimSlash(prefix))| <= PathPatterns.MAX_SEGMENTS
    && forall i :: 0 <= i < |Split(TrimSlash(prefix))| ==>
         Split(TrimSlash(prefix))[i] != "" && Split(TrimSlash(prefix))[i] != ".."
  }

  ghost predicate NormalizedRules(rules: seq<Rule>, registry: Registry) {
    && (forall i :: 0 <= i < |rules| ==> Normalized(rules[i], registry))
    && forall i, j :: 0 <= i < j < |rules| ==> rules[i].id != rules[j].id
  }

  // validateRequest (registry.go:309-374), as far as names are concerned: what a
  // request carries is registered, required fields are there and lists are not empty.
  ghost predicate ValidRequest(registry: Registry, request: Request) {
    && request.operation in registry.operations
    && request.target.kind in registry.targets
    && request.target.kind in registry.operations[request.operation].targetKinds
    && (forall name :: name in registry.targets[request.target.kind] && registry.targets[request.target.kind][name].required ==>
          ValuesOf(request.target.fields, name) != [])
    && (forall name :: name in request.target.fields ==>
          name in registry.targets[request.target.kind] && request.target.fields[name] != [])
    && (forall name :: name in request.attrs ==>
          name in registry.attrs && name in registry.operations[request.operation].attrs && request.attrs[name] != [])
  }
}
