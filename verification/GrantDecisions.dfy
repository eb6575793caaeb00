// Operator decisions: approval, denial and revocation bound to a revision, and their replay.
module GrantDecisions {
  import opened Options
  import opened Text
  import opened GrantData
  import opened GrantLifecycle
  import opened GrantOperations

  // What the activation check reports for an approval.
  datatype Check = Passes | Fails(code: FailureCode) | Breaks

  datatype DecisionError =
    | InvalidCommand
    | KeyConflict
    | UnknownGrant
    | RevisionConflict
    | InvalidTransition
    | BoundsExceeded
    | ActivationFailure(code: FailureCode)
    | CheckError

  datatype DecisionResult =
    | NoResult
    | Result(grant: Grant, previous: Grant, cursor: Option<nat>, replay: bool)

  datatype DecisionOutcome = Outcome(data: Data, result: DecisionResult, error: Option<DecisionError>)

  predicate Terminal(code: FailureCode) {
    code == PlanUnavailable || code == PlanMismatch || code == CredentialChanged || code == CredentialInsufficient
  }

  // --- Commands.

  predicate LimitSpecified(command: Decision) { command.maxUsesSpecified || IsFinite(command.maxUses) }

  predicate ValidCommand(command: Decision, correlation: string) {
    && command.id != "" && command.approver != "" && command.expectedRevision >= 1 && command.key != ""
    && SafeIdentity(command.key) && SafeIdentity(command.approver) && SafeIdentity(command.onBehalfOf)
    && ByteLength(correlation) <= 128 && SafeIdentity(correlation)
    && (command.action == Approve || (command.duration == 0 && !LimitSpecified(command)))
  }

  function ActionName(action: Action): string {
    match action case Approve => "approve" case Deny => "deny" case Revoke => "revoke"
  }

  function Scope(command: Decision): string {
    command.id + "\0" + ActionName(command.action) + "\0" + command.key
  }

  lemma NoNulAfter(a: string, x: string)
    requires '\0' !in x
    ensures var s := a + "\0" + x; s[|a|] == '\0' && forall i :: |a| < i < |s| ==> s[i] != '\0'
  {
    var s := a + "\0" + x;
    forall i | |a| < i < |s| ensures s[i] != '\0' {
      assert s[i] == x[i - |a| - 1];
    }
  }

  // The last NUL before a NUL-free tail is determined by the whole string.
  lemma LastNulAgrees(a: string, x: string, b: string, y: string)
    requires a + "\0" + x == b + "\0" + y
    requires '\0' !in x && '\0' !in y
    ensures a == b && x == y
  {
    NoNulAfter(a, x);
    NoNulAfter(b, y);
    var s := a + "\0" + x;
    assert a == s[..|a|] && b == s[..|b|];
    assert x == s[|a| + 1..] && y == s[|b| + 1..];
  }

  // Two commands have the same scope only if they agree on grant, action and key.
  lemma ScopeIsInjective(a: Decision, b: Decision)
    requires SafeIdentity(a.key) && SafeIdentity(b.key)
    ensures Scope(a) == Scope(b) <==> a.id == b.id && a.action == b.action && a.key == b.key
  {
    if Scope(a) == Scope(b) {
      NoNul(a.key);
      NoNul(b.key);
      LastNulAgrees(a.id + "\0" + ActionName(a.action), a.key, b.id + "\0" + ActionName(b.action), b.key);
      LastNulAgrees(a.id, ActionName(a.action), b.id, ActionName(b.action));
      assert ActionName(Approve)[0] == 'a' && ActionName(Deny)[0] == 'd' && ActionName(Revoke)[0] == 'r';
    }
  }

  lemma NoNul(s: string)
    requires SafeIdentity(s)
    ensures '\0' !in s
  {
    assert Control('\0');
  }

  // --- The transition.

  function RequestedDuration(grant: Grant): nat {
    if grant.requestedDuration == 0 then grant.duration else grant.requestedDuration
  }

  function RequestedUses(grant: Grant): int {
    if grant.requestedMaxUses < 0 then grant.maxUses else grant.requestedMaxUses
  }

  predicate ValidConstraints(command: Decision, duration: nat, maxUses: int) {
    && 0 <= command.duration <= duration && command.maxUses >= 0
    && (!LimitSpecified(command)
        || (if IsUnlimited(command.maxUses) then IsUnlimited(maxUses)
            else IsUnlimited(maxUses) || command.maxUses <= maxUses))
  }

  function Approved(grant: Grant, command: Decision, now: Time): Grant {
    var narrowed := grant.(
                    duration := if command.duration > 0 then command.duration else grant.duration,
                    maxUses := if LimitSpecified(command) then command.maxUses else grant.maxUses);
    narrowed.(status := Active, expiresAt := now + narrowed.duration)
  }

  function FailedGrant(grant: Grant, command: Decision, correlation: string, code: FailureCode, now: Time): Grant {
    grant.(status := Failed, decidedAt := now, decidedBy := command.approver, onBehalfOf := command.onBehalfOf,
    failureCode := Some(code), failureReference := correlation, failedAt := now)
  }

  function Decided(grant: Grant, command: Decision, now: Time): Grant {
    grant.(decidedAt := now, decidedBy := command.approver, onBehalfOf := command.onBehalfOf)
  }

  function ApplyDecision(grant: Grant, command: Decision, correlation: string, check: Check, now: Time)
    : (Grant, Option<DecisionError>)
  {
    match command.action
    case Approve =>
      if grant.status != Pending then (grant, Some(InvalidTransition))
      else if !ValidConstraints(command, RequestedDuration(grant), RequestedUses(grant)) then (grant, Some(BoundsExceeded))
      else (
        match check
        case Passes => (Decided(Approved(grant, command, now), command, now), None)
        case Breaks => (grant, Some(CheckError))
        case Fails(code) =>
          (if Terminal(code) then FailedGrant(grant, command, correlation, code, now) else grant, Some(ActivationFailure(code)))
      )
    case Deny =>
      if grant.status != Pending then (grant, Some(InvalidTransition))
      else (Decided(grant.(status := Denied), command, now), None)
    case Revoke =>
      if grant.status != Active then (grant, Some(InvalidTransition))
      else (Decided(grant.(status := Revoked), command, now), None)
  }

  // --- The log of decisions.

  function FindRecord(records: seq<Record>, scope: string): (r: Option<Record>)
    ensures r.Some? ==> r.value in records && r.value.scope == scope
    ensures r.None? ==> forall i :: 0 <= i < |records| ==> records[i].scope != scope
  {
    if records == [] then None
    else if records[0].scope == scope then Some(records[0])
    else FindRecord(records[1..], scope)
  }

  function Replay(record: Record, command: Decision): (DecisionResult, Option<DecisionError>) {
    if record.command != command then (NoResult, Some(KeyConflict))
    else
      (Result(record.result, record.previous, record.cursor, true),
       match record.failureCode case Some(code) => Some(ActivationFailure(code)) case None => None)
  }

  function CurrentCursor(data: Data): Option<nat> {
    if data.nextEvent <= 1 then None else Some(data.nextEvent - 1)
  }

  // The state after preparation, reconciled only if preparation changed anything.
  function Prepared(data: Data, settings: Settings, times: Times): Data
    requires ValidSettings(settings)
  {
    var prepared := Prepare(data, times.first, times.second, settings.reservationTimeout);
    if prepared == data then data else Reconcile(prepared, Snapshots(data.grants), settings.maxEvents)
  }

  // Against which snapshots the mutation is reconciled: after a change by preparation, only the
  // decided grant is compared with its prepared state.
  function Baseline(data: Data, current: Grant, settings: Settings, times: Times): map<string, Grant>
    requires ValidSettings(settings)
  {
    if Prepare(data, times.first, times.second, settings.reservationTimeout) == data then Snapshots(data.grants)
    else Snapshots(data.grants)[current.id := current]
  }

  function Commit(data: Data, prepared: Data, index: nat, updated: Grant, settings: Settings, times: Times): Data
    requires ValidSettings(settings) && index < |prepared.grants|
  {
    Reconcile(prepared.(grants := prepared.grants[index := updated]),
              Baseline(data, prepared.grants[index], settings, times), settings.maxEvents)
  }

  function FailureOf(error: Option<DecisionError>): Option<FailureCode> {
    match error case Some(ActivationFailure(code)) => Some(code) case _ => None
  }

  function RecordOf(command: Decision, result: Grant, previous: Grant, cursor: Option<nat>, error: Option<DecisionError>)
    : Record
  {
    var failure := FailureOf(error);
    Record(Scope(command), command, result, previous, cursor, failure,
           if failure.Some? then result.failureReference else "")
  }

  function CommitDecision(data: Data, index: nat, command: Decision, correlation: string, check: Check,
                          settings: Settings, times: Times): DecisionOutcome
    requires ValidSettings(settings) && index < |Prepared(data, settings, times).grants|
  {
    var prepared := Prepared(data, settings, times);
    var current := prepared.grants[index];
    var (updated, error) := ApplyDecision(current, command, correlation, check, times.third);
    if error.Some? && updated.status != Failed then Outcome(prepared, Result(current, current, None, false), error)
    else
      var after := Commit(data, prepared, index, updated, settings, times);
      var record := RecordOf(command, after.grants[index], current, CurrentCursor(after), error);
      Outcome(after.(records := after.records + [record]),
              Result(after.grants[index], current, CurrentCursor(after), false), error)
  }

  function Decide(data: Data, command: Decision, correlation: string, check: Check, settings: Settings, times: Times)
    : DecisionOutcome
    requires ValidSettings(settings)
  {
    var prepared := Prepared(data, settings, times);
    var found := FindRecord(prepared.records, Scope(command));
    if found.Some? then
      var (result, error) := Replay(found.value, command);
      Outcome(prepared, result, error)
    else
      var index := GrantIndex(prepared.grants, command.id);
      if index.None? then Outcome(prepared, NoResult, Some(UnknownGrant))
      else if command.expectedRevision != prepared.grants[index.value].revision then
        Outcome(prepared, Result(prepared.grants[index.value], prepared.grants[index.value], None, false), Some(RevisionConflict))
      else CommitDecision(data, index.value, command, correlation, check, settings, times)
  }

  // A decision commits when it leaves a record behind.
  predicate Commits(data: Data, command: Decision, correlation: string, check: Check, settings: Settings, times: Times)
    requires ValidSettings(settings)
  {
    |Decide(data, command, correlation, check, settings, times).data.records| > |data.records|
  }

  // --- Decisions keep the invariant.

  lemma ApplyDecisionKeeps(grant: Grant, uses: seq<Use>, command: Decision, correlation: string, check: Check, now: Time)
    requires GrantKept(grant, uses) && ValidCommand(command, correlation) && now > 0
    ensures GrantKept(ApplyDecision(grant, command, correlation, check, now).0, uses)
  {
    hide ValidSubject, SafeIdentity, ByteLength, Tally, RevisionTotal;
  }

  lemma PreparedKeeps(data: Data, earlier: Time, settings: Settings, times: Times)
    requires ValidSettings(settings) && Ordered(times) && Kept(data, earlier) && earlier <= times.first
    ensures Kept(Prepared(data, settings, times), times.second)
  {
    hide GrantsKept, UsesKept, Prepare, Reconcile, Snapshots, EventsKept;
    var prepared := Prepare(data, times.first, times.second, settings.reservationTimeout);
    PrepareKeeps(data, earlier, times.first, times.second, settings.reservationTimeout);
    PrepareKeepsEvents(data, times.first, times.second, settings.reservationTimeout);
    if prepared != data {
      ReconcileKeeps(prepared, Snapshots(data.grants), settings.maxEvents, times.second);
    }
  }

  lemma CommitKeeps(data: Data, prepared: Data, index: nat, updated: Grant, settings: Settings, times: Times)
    requires ValidSettings(settings) && index < |prepared.grants|
    requires Kept(prepared, times.third)
    requires updated.id == prepared.grants[index].id && updated.subject == prepared.grants[index].subject
    requires updated.revision == prepared.grants[index].revision && GrantKept(updated, prepared.uses)
    ensures Kept(Commit(data, prepared, index, updated, settings, times), times.third)
  {
    hide GrantsKept, UsesKept, GrantKept, Baseline, Reconcile, EventsKept;
    ReplaceGrantKeeps(prepared, index, updated, times.third);
    ReconcileKeeps(prepared.(grants := prepared.grants[index := updated]),
                   Baseline(data, prepared.grants[index], settings, times), settings.maxEvents, times.third);
  }

  lemma ApplyDecisionIdentity(grant: Grant, command: Decision, correlation: string, check: Check, now: Time)
    ensures var updated := ApplyDecision(grant, command, correlation, check, now).0;
            updated.id == grant.id && updated.subject == grant.subject && updated.revision == grant.revision
  {
  }

  lemma DecideKeeps(data: Data, earlier: Time, command: Decision, correlation: string, check: Check,
                    settings: Settings, times: Times)
    requires ValidSettings(settings) && Ordered(times) && ValidCommand(command, correlation)
    requires Kept(data, earlier) && earlier <= times.first
    ensures Kept(Decide(data, command, correlation, check, settings, times).data, times.fourth)
  {
    hide Coherent, GrantKept, Prepared, Commit, ApplyDecision, EventsKept, ValidCommand, Replay, Scope;
    PreparedKeeps(data, earlier, settings, times);
    var prepared := Prepared(data, settings, times);
    CoherentLater(prepared, times.second, times.third);
    CoherentLater(prepared, times.third, times.fourth);
    var index := GrantIndex(prepared.grants, command.id);
    if index.Some? {
      var current := prepared.grants[index.value];
      var updated := ApplyDecision(current, command, correlation, check, times.third).0;
      assert GrantKept(current, prepared.uses) by { KeptGrant(prepared, times.third, index.value); }
      ApplyDecisionKeeps(current, prepared.uses, command, correlation, check, times.third);
      ApplyDecisionIdentity(current, command, correlation, check, times.third);
      CommitKeeps(data, prepared, index.value, updated, settings, times);
      var after := Commit(data, prepared, index.value, updated, settings, times);
      CoherentLater(after, times.third, times.fourth);
      forall record { WithRecord(after, record, times.fourth); }
    }
  }

  lemma KeptGrant(data: Data, now: Time, i: nat)
    requires Coherent(data, now) && i < |data.grants|
    ensures GrantKept(data.grants[i], data.uses)
  {
  }

  lemma WithRecord(data: Data, record: Record, now: Time)
    ensures Kept(data.(records := data.records + [record]), now) == Kept(data, now)
  {
  }
}
