// What becomes of each operator command: when it commits, and what it makes of the grant.
module GrantVerdicts {
  import opened Options
  import opened Text
  import opened GrantData
  import opened GrantLifecycle
  import opened GrantOperations
  import opened GrantDecisions
  import opened GrantEvolution
  import opened GrantRecords
  import opened GrantRuns
  import opened GrantFailures

  // The approval narrows what was requested, or leaves it as it is.
  predicate WithinRequest(command: Decision, grant: Grant) {
    && 0 <= command.duration <= grant.requestedDuration && command.maxUses >= 0
    && (command.maxUsesSpecified || command.maxUses > 0 ==> Within(command.maxUses, grant.requestedMaxUses))
  }

  // The grant is in the state that the action asks for.
  predicate Open(command: Decision, grant: Grant) {
    grant.status == (if command.action == Revoke then Active else Pending)
  }

  predicate Granted(command: Decision, grant: Grant, check: Check) {
    Open(command, grant) && (command.action == Approve ==> WithinRequest(command, grant) && check == Passes)
  }

  // A failed activation is final for these four codes.
  predicate Ruined(command: Decision, grant: Grant, check: Check) {
    && Open(command, grant) && command.action == Approve && WithinRequest(command, grant)
    && check.Fails? && check.code in {PlanUnavailable, PlanMismatch, CredentialChanged, CredentialInsufficient}
  }

  // The grant after the command, field by field; every other field is as before.
  ghost predicate Becomes(command: Decision, correlation: string, check: Check, now: Time, grant: Grant, after: Grant) {
    if Granted(command, grant, check) || Ruined(command, grant, check) then
      && after == grant.(status := after.status, revision := grant.revision + 1, decidedAt := now, decidedBy := command.approver,
                         onBehalfOf := command.onBehalfOf, duration := after.duration, maxUses := after.maxUses,
                         expiresAt := after.expiresAt, failureCode := after.failureCode,
                         failureReference := after.failureReference, failedAt := after.failedAt)
      && (if Granted(command, grant, check) && command.action == Approve then
            && after.status == Active && after.expiresAt == now + after.duration
            && after.duration == (if command.duration > 0 then command.duration else grant.duration)
            && after.maxUses == (if command.maxUsesSpecified || command.maxUses > 0 then command.maxUses else grant.maxUses)
          else after.duration == grant.duration && after.maxUses == grant.maxUses && after.expiresAt == grant.expiresAt)
      && (if Ruined(command, grant, check) then
            && after.status == Failed && after.failureCode == Some(check.code)
            && after.failureReference == correlation && after.failedAt == now
          else
            && after.failureCode == grant.failureCode && after.failureReference == grant.failureReference
            && after.failedAt == grant.failedAt)
      && (command.action == Deny ==> after.status == Denied)
      && (command.action == Revoke ==> after.status == Revoked)
    else after == grant
  }

  // Why the command is refused, if it is.
  ghost predicate RefusedWith(command: Decision, grant: Grant, check: Check, error: Option<DecisionError>) {
    if Granted(command, grant, check) then error == None
    else if !Open(command, grant) then error == Some(InvalidTransition)
    else if !WithinRequest(command, grant) then error == Some(BoundsExceeded)
    else if check.Fails? then error == Some(ActivationFailure(check.code))
    else error == Some(CheckError)
  }

  lemma TransitionMeans(grant: Grant, uses: seq<Use>, command: Decision, correlation: string, check: Check, now: Time)
    requires GrantKept(grant, uses)
    ensures var (updated, error) := ApplyDecision(grant, command, correlation, check, now);
            && RefusedWith(command, grant, check, error)
            && (grant.status != Failed ==>
                  (error.None? || updated.status == Failed <==> Granted(command, grant, check) || Ruined(command, grant, check)))
            && (Granted(command, grant, check) || Ruined(command, grant, check) ==>
                  Becomes(command, correlation, check, now, grant, updated.(revision := grant.revision + 1)))
            && (!Granted(command, grant, check) && !Ruined(command, grant, check) ==> updated == grant)
  {
    hide ValidSubject, SafeIdentity, Tally, RevisionTotal;
  }

  // Committing changes no grant but the decided one, even if preparation has changed others.
  lemma CommitLeavesOthers(data: Data, now: Time, index: nat, updated: Grant, settings: Settings, times: Times)
    requires ValidSettings(settings) && Ordered(times) && Kept(data, now) && now <= times.first
    requires var prepared := Prepared(data, settings, times);
             index < |prepared.grants| && updated.id == prepared.grants[index].id
    ensures var prepared := Prepared(data, settings, times);
            var after := Commit(data, prepared, index, updated, settings, times);
            && |after.grants| == |prepared.grants| && after.uses == prepared.uses
            && forall j :: 0 <= j < |prepared.grants| && j != index ==> after.grants[j] == prepared.grants[j]
  {
    hide Coherent, Prepared, Prepare, Snapshots, ReviseAll, Reconcile, EventsKept, Baseline, Revise;
    var prepared := Prepared(data, settings, times);
    var compared := Baseline(data, prepared.grants[index], settings, times);
    var replaced := prepared.grants[index := updated];
    ReconciledGrants(prepared.(grants := replaced), compared, settings.maxEvents);
    forall j | 0 <= j < |prepared.grants| && j != index ensures Revise(prepared.grants[j], compared) == prepared.grants[j] {
      OtherIsRevised(data, now, index, j, settings, times);
    }
    RevisedAt(replaced, compared);
  }

  lemma RevisedAt(grants: seq<Grant>, before: map<string, Grant>)
    ensures |ReviseAll(grants, before)| == |grants|
    ensures forall j :: 0 <= j < |grants| ==> ReviseAll(grants, before)[j] == Revise(grants[j], before)
  {
    hide Revise;
  }

  // Preparation has already given every other grant the revision that it is due.
  lemma OtherIsRevised(data: Data, now: Time, index: nat, j: nat, settings: Settings, times: Times)
    requires ValidSettings(settings) && Ordered(times) && Kept(data, now) && now <= times.first
    requires index < |Prepared(data, settings, times).grants| && j < |Prepared(data, settings, times).grants| && j != index
    ensures var prepared := Prepared(data, settings, times);
            Revise(prepared.grants[j], Baseline(data, prepared.grants[index], settings, times)) == prepared.grants[j]
  {
    hide Coherent, Prepare, Snapshots, EventsKept, NewEvents, Kinds, Append;
    var prepared := Prepared(data, settings, times);
    PreparedKeeps(data, now, settings, times);
    CoherentIsDistinct(prepared, times.second);
    CoherentIsDistinct(data, now);
    SnapshotsOfSelf(data.grants);
    PreparedIdentity(data, now, settings, times);
    assert prepared.grants[j].id != prepared.grants[index].id;
    var ready := Prepare(data, times.first, times.second, settings.reservationTimeout);
    if ready == data {
      SelfHasNoKinds(data.grants[j]);
    } else {
      ReconciledGrants(ready, Snapshots(data.grants), settings.maxEvents);
      RevisedAt(ready.grants, Snapshots(data.grants));
      RevisedTwice(ready.grants[j], Snapshots(data.grants));
      hide Revise;
    }
  }

  lemma PreparedIdentity(data: Data, now: Time, settings: Settings, times: Times)
    requires ValidSettings(settings) && Ordered(times) && Kept(data, now) && now <= times.first
    ensures SameIdentity(data.grants, Prepared(data, settings, times).grants)
  {
    hide Prepared, Coherent, EventsKept, Numbered, GrantEvolves;
    PreparedEvolves(data, now, settings, times);
    var prepared := Prepared(data, settings, times);
    forall i | 0 <= i < |data.grants| ensures data.grants[i].id == prepared.grants[i].id && data.grants[i].subject == prepared.grants[i].subject {
      EvolvedIdentity(data.grants[i], prepared.grants[i]);
    }
  }

  lemma EvolvedIdentity(a: Grant, b: Grant)
    requires GrantEvolves(a, b)
    ensures a.id == b.id && a.subject == b.subject
  {
  }

  lemma SelfHasNoKinds(grant: Grant)
    ensures Kinds(Some(grant), grant) == []
  {
  }

  lemma RevisedTwice(grant: Grant, before: map<string, Grant>)
    ensures Revise(Revise(grant, before), before) == Revise(grant, before)
  {
  }

  // --- The verdict on a command.

  // A command with a new key at the current revision: it commits exactly if it is granted, ruins the
  // activation, or finds the grant failed already. Nothing but its grant changes, and the answer shows
  // that grant before and after.
  ghost predicate Judged(prepared: Data, outcome: DecisionOutcome, index: nat, command: Decision, correlation: string,
                         check: Check, now: Time)
    requires index < |prepared.grants|
  {
    var grant := prepared.grants[index];
    var commits := Granted(command, grant, check) || Ruined(command, grant, check) || grant.status == Failed;
    && |outcome.data.grants| == |prepared.grants| && outcome.data.uses == prepared.uses
    && |outcome.data.records| == |prepared.records| + (if commits then 1 else 0)
    && Becomes(command, correlation, check, now, grant, outcome.data.grants[index])
    && (forall j :: 0 <= j < |prepared.grants| && j != index ==> outcome.data.grants[j] == prepared.grants[j])
    && RefusedWith(command, grant, check, outcome.error)
    && outcome.result == Result(outcome.data.grants[index], grant, if commits then CurrentCursor(outcome.data) else None, false)
  }

  lemma DecisionExactly(data: Data, now: Time, index: nat, command: Decision, correlation: string, check: Check,
                        settings: Settings, times: Times)
    requires ValidSettings(settings) && Ordered(times) && AtRest(data, now) && now <= times.first
    requires FindRecord(data.records, Scope(command)).None?
    requires var prepared := Prepared(data, settings, times);
             GrantIndex(prepared.grants, command.id) == Some(index) && prepared.grants[index].revision == command.expectedRevision
    ensures var prepared := Prepared(data, settings, times);
            var outcome := Decide(data, command, correlation, check, settings, times);
            && Judged(prepared, outcome, index, command, correlation, check, times.third)
            && (Commits(data, command, correlation, check, settings, times)
                <==> Granted(command, prepared.grants[index], check) || Ruined(command, prepared.grants[index], check)
                     || prepared.grants[index].status == Failed)
  {
    hide Scope, Kept, RecordsKept, Prepared, CommitDecision, FindRecord, Decide, Judged, Granted, Ruined;
    PreparedRecords(data, settings, times);
    DecideReachesCommit(data, index, command, correlation, check, settings, times);
    CommitIsJudged(data, now, index, command, correlation, check, settings, times);
    JudgedCounts(Prepared(data, settings, times), Decide(data, command, correlation, check, settings, times), index, command,
                 correlation, check, times.third);
  }

  lemma JudgedCounts(prepared: Data, outcome: DecisionOutcome, index: nat, command: Decision, correlation: string,
                     check: Check, now: Time)
    requires index < |prepared.grants| && Judged(prepared, outcome, index, command, correlation, check, now)
    ensures |outcome.data.records| > |prepared.records|
            <==> Granted(command, prepared.grants[index], check) || Ruined(command, prepared.grants[index], check)
                 || prepared.grants[index].status == Failed
  {
    hide Granted, Ruined, Becomes, RefusedWith, CurrentCursor;
  }

  lemma CommitIsJudged(data: Data, now: Time, index: nat, command: Decision, correlation: string, check: Check,
                       settings: Settings, times: Times)
    requires ValidSettings(settings) && Ordered(times) && Kept(data, now) && now <= times.first
    requires index < |Prepared(data, settings, times).grants|
    ensures Judged(Prepared(data, settings, times), CommitDecision(data, index, command, correlation, check, settings, times), index,
                   command, correlation, check, times.third)
  {
    hide Kept, Prepared, Commit, ApplyDecision, CurrentCursor, Granted, Ruined, Becomes, RefusedWith, RecordOf, GrantKept;
    var prepared := Prepared(data, settings, times);
    var grant := prepared.grants[index];
    var (updated, error) := ApplyDecision(grant, command, correlation, check, times.third);
    PreparedKeeps(data, now, settings, times);
    CurrentIsKept(prepared, times.second, index);
    TransitionMeans(grant, prepared.uses, command, correlation, check, times.third);
    ApplyDecisionIdentity(grant, command, correlation, check, times.third);
    ApplyDecisionMoves(grant, command, correlation, check, times.third);
    SameUnlessCommitted(command, correlation, check, times.third, grant);
    if error.None? || updated.status == Failed {
      CommitRaises(data, now, index, updated, settings, times);
      CommitRecords(data, prepared, index, updated, settings, times);
      CommitLeavesOthers(data, now, index, updated, settings, times);
      SameCursor(Commit(data, prepared, index, updated, settings, times));
    }
  }

  lemma SameCursor(data: Data)
    ensures forall records :: CurrentCursor(data.(records := records)) == CurrentCursor(data)
  {
  }

  lemma SameUnlessCommitted(command: Decision, correlation: string, check: Check, now: Time, grant: Grant)
    ensures !Granted(command, grant, check) && !Ruined(command, grant, check) ==>
              Becomes(command, correlation, check, now, grant, grant)
    ensures grant.status == Failed ==> !Granted(command, grant, check) && !Ruined(command, grant, check)
  {
  }

  // What is recorded of a command that commits is what it was answered with.
  lemma RecordExactly(data: Data, now: Time, index: nat, command: Decision, correlation: string, check: Check,
                      settings: Settings, times: Times)
    requires ValidSettings(settings) && Ordered(times) && Kept(data, now) && now <= times.first
    requires index < |Prepared(data, settings, times).grants|
    ensures var prepared := Prepared(data, settings, times);
            var grant := prepared.grants[index];
            var outcome := CommitDecision(data, index, command, correlation, check, settings, times);
            var ruined := Ruined(command, grant, check);
            Granted(command, grant, check) || ruined || grant.status == Failed ==>
              && index < |outcome.data.grants|
              && outcome.data.records
                 == prepared.records + [Record(Scope(command), command, outcome.data.grants[index], grant, CurrentCursor(outcome.data),
                                               if ruined then Some(check.code) else None, if ruined then correlation else "")]
  {
    hide Kept, Prepared, Commit, ApplyDecision, CurrentCursor, Granted, Ruined, Becomes, RefusedWith, GrantKept, Scope;
    var prepared := Prepared(data, settings, times);
    var grant := prepared.grants[index];
    var (updated, error) := ApplyDecision(grant, command, correlation, check, times.third);
    PreparedKeeps(data, now, settings, times);
    CurrentIsKept(prepared, times.second, index);
    TransitionMeans(grant, prepared.uses, command, correlation, check, times.third);
    FailureIsTold(grant, command, correlation, check, times.third);
    SameUnlessCommitted(command, correlation, check, times.third, grant);
    ApplyDecisionIdentity(grant, command, correlation, check, times.third);
    ApplyDecisionMoves(grant, command, correlation, check, times.third);
    if error.None? || updated.status == Failed {
      CommitRaises(data, now, index, updated, settings, times);
      CommitRecords(data, prepared, index, updated, settings, times);
      SameCursor(Commit(data, prepared, index, updated, settings, times));
    }
  }

  lemma FailureIsTold(grant: Grant, command: Decision, correlation: string, check: Check, now: Time)
    ensures var (updated, error) := ApplyDecision(grant, command, correlation, check, now);
            && (Ruined(command, grant, check) && error == Some(ActivationFailure(check.code)) ==>
                  FailureOf(error) == Some(check.code))
            && (Ruined(command, grant, check) && RefusedWith(command, grant, check, error) ==>
                  error == Some(ActivationFailure(check.code)))
            && (Ruined(command, grant, check) && updated.status == Failed ==> updated.failureReference == correlation)
            && (Granted(command, grant, check) && RefusedWith(command, grant, check, error) ==> FailureOf(error) == None)
            && (grant.status == Failed ==> FailureOf(error) == None && !Ruined(command, grant, check))
            && !(Granted(command, grant, check) && Ruined(command, grant, check))
  {
  }

  // Which commands are valid at all: with a grant, an approver, a revision and a key, in safe texts, and
  // with constraints only on an approval.
  lemma ValidExactly(command: Decision, correlation: string)
    ensures ValidCommand(command, correlation) <==>
            && command.id != "" && command.approver != "" && command.key != "" && command.expectedRevision > 0
            && Safe(command.approver) && Safe(command.onBehalfOf) && Safe(command.key) && Safe(correlation) && ByteLength(correlation) <= 128
            && (command.action == Deny || command.action == Revoke ==>
                  command.duration == 0 && !command.maxUsesSpecified && command.maxUses <= 0)
  {
  }

  predicate Safe(s: string) {
    ByteLength(s) <= 200 && forall i :: 0 <= i < |s| ==> !(s[i] < ' ') && !(0x7f <= s[i] as int <= 0x9f)
  }

  // Every other command changes nothing but what preparation does, and says why: its key was used
  // before, for the same command or for another one; its grant is unknown; or its revision is not the
  // current one.
  lemma OthersAreRefused(data: Data, command: Decision, correlation: string, check: Check, settings: Settings, times: Times)
    requires ValidSettings(settings)
    ensures var prepared := Prepared(data, settings, times);
            var outcome := Decide(data, command, correlation, check, settings, times);
            var record, index := FindRecord(data.records, Scope(command)), GrantIndex(prepared.grants, command.id);
            if record.Some? then
              && outcome.data == prepared
              && (record.value.command != command ==> outcome.error == Some(KeyConflict) && outcome.result == NoResult)
              && (record.value.command == command ==>
                    && outcome.result == Result(record.value.result, record.value.previous, record.value.cursor, true)
                    && (outcome.error == None <==> record.value.failureCode == None)
                    && (record.value.failureCode.Some? ==> outcome.error == Some(ActivationFailure(record.value.failureCode.value))))
            else if index.None? then outcome == Outcome(prepared, NoResult, Some(UnknownGrant))
            else
              var grant := prepared.grants[index.value];
              grant.revision != command.expectedRevision ==>
                outcome == Outcome(prepared, Result(grant, grant, None, false), Some(RevisionConflict))
  {
    hide Prepared, CommitDecision, Scope;
    PreparedRecords(data, settings, times);
  }

  // --- Events that are recorded twice.

  // The events that preparation records, and those that the commit records after it.
  ghost function PreparedEvents(data: Data, settings: Settings, times: Times): seq<Event>
    requires ValidSettings(settings)
  {
    NewEvents(Prepare(data, times.first, times.second, settings.reservationTimeout).grants, Snapshots(data.grants), data.nextEvent)
  }

  ghost function CommittedEvents(data: Data, index: nat, updated: Grant, settings: Settings, times: Times): seq<Event>
    requires ValidSettings(settings) && index < |Prepared(data, settings, times).grants|
  {
    var prepared := Prepared(data, settings, times);
    NewEvents(prepared.grants[index := updated], Baseline(data, prepared.grants[index], settings, times), prepared.nextEvent)
  }

  // A decision that commits records what preparation did to every other grant a second time: such a
  // change is told again, with the same grant, if and only if preparation had already told it.
  lemma OthersAreToldAgain(data: Data, now: Time, index: nat, updated: Grant, j: nat, kind: EventKind, settings: Settings, times: Times)
    requires ValidSettings(settings) && Ordered(times) && Kept(data, now) && now <= times.first
    requires var prepared := Prepared(data, settings, times);
             && index < |prepared.grants| && updated.id == prepared.grants[index].id
             && j < |data.grants| && j < |prepared.grants| && j != index
    ensures var grant, previous := Prepared(data, settings, times).grants[j], Some(data.grants[j]);
            && (Told(PreparedEvents(data, settings, times), kind, grant, previous) <==> Describes(kind, previous, grant))
            && (Told(CommittedEvents(data, index, updated, settings, times), kind, grant, previous) <==> Describes(kind, previous, grant))
  {
    hide Kept, Prepared, Prepare, Snapshots, NewEvents, Tells, Revise, Describes, Baseline;
    var prepared := Prepared(data, settings, times);
    var ready := Prepare(data, times.first, times.second, settings.reservationTimeout);
    OtherIsRevised(data, now, index, j, settings, times);
    ToldOnce(data, now, j, kind, settings, times);
    PreparedKeeps(data, now, settings, times);
    KeptIsDistinct(prepared, times.second);
    BaselineOfOther(data, now, index, j, settings, times);
    var replaced := prepared.grants[index := updated];
    assert DistinctGrants(replaced);
    ChangesAreTold(replaced, Baseline(data, prepared.grants[index], settings, times), prepared.nextEvent, j, kind);
  }

  lemma KeptIsDistinct(data: Data, now: Time)
    requires Kept(data, now)
    ensures DistinctGrants(data.grants)
  {
    hide EventsKept, Numbered, UsesKept;
  }

  lemma BaselineOfOther(data: Data, now: Time, index: nat, j: nat, settings: Settings, times: Times)
    requires ValidSettings(settings) && Ordered(times) && Kept(data, now) && now <= times.first
    requires var prepared := Prepared(data, settings, times);
             index < |prepared.grants| && j < |prepared.grants| && j < |data.grants| && j != index
    ensures var prepared := Prepared(data, settings, times);
            Previous(Baseline(data, prepared.grants[index], settings, times), prepared.grants[j].id) == Some(data.grants[j])
  {
    hide Kept, Prepared, Prepare, Snapshots;
    var prepared := Prepared(data, settings, times);
    KeptIsDistinct(data, now);
    SnapshotsOfSelf(data.grants);
    PreparedKeeps(data, now, settings, times);
    KeptIsDistinct(prepared, times.second);
    PreparedIdentity(data, now, settings, times);
  }

  lemma ToldOnce(data: Data, now: Time, j: nat, kind: EventKind, settings: Settings, times: Times)
    requires ValidSettings(settings) && Ordered(times) && Kept(data, now) && now <= times.first
    requires j < |data.grants| && j < |Prepared(data, settings, times).grants|
    ensures var grant, previous := Prepared(data, settings, times).grants[j], Some(data.grants[j]);
            Told(PreparedEvents(data, settings, times), kind, grant, previous) <==> Describes(kind, previous, grant)
  {
    hide Coherent, Prepare, Snapshots, NewEvents, Tells, EventsKept, Numbered;
    var ready := Prepare(data, times.first, times.second, settings.reservationTimeout);
    CoherentIsDistinct(data, now);
    SnapshotsOfSelf(data.grants);
    PrepareKeeps(data, now, times.first, times.second, settings.reservationTimeout);
    CoherentIsDistinct(ready, times.second);
    ChangesAreTold(ready.grants, Snapshots(data.grants), data.nextEvent, j, kind);
    ReconciledGrants(ready, Snapshots(data.grants), settings.maxEvents);
    RevisedUsage(ready.grants[j], Snapshots(data.grants));
    if ready == data {
      SelfHasNoKinds(data.grants[j]);
    }
  }
}
