// The log of operator decisions: what a committed decision did to its grant, which decisions can
// commit, and what a repeated command returns.
module GrantRecords {
  import opened Options
  import opened Text
  import opened GrantData
  import opened GrantLifecycle
  import opened GrantOperations
  import opened GrantDecisions
  import opened GrantEvolution

  // A recorded decision did what its command asked: an approval activates the pending grant within the
  // given constraints or fails it, a denial denies it, a revocation revokes the active one; and a
  // grant that had failed stays as it was.
  predicate Obeys(command: Decision, previous: Grant, result: Grant, failure: Option<FailureCode>) {
    if previous.status == Failed then result == previous && failure.None?
    else
      && previous.status == (if command.action == Revoke then Active else Pending)
      && result.decidedBy == command.approver && result.onBehalfOf == command.onBehalfOf
      && match command.action
         case Deny => result.status == Denied && failure.None?
         case Revoke => result.status == Revoked && failure.None?
         case Approve =>
           if failure.Some? then result.status == Failed && Terminal(failure.value) && result.failureCode == failure
           else
             && result.status == Active && result.expiresAt == result.decidedAt + result.duration
             && result.duration == (if command.duration > 0 then command.duration else previous.duration)
             && result.maxUses == (if LimitSpecified(command) then command.maxUses else previous.maxUses)
  }

  predicate RecordKept(record: Record, grants: seq<Grant>) {
    var index := GrantIndex(grants, record.command.id);
    && record.scope == Scope(record.command)
    && Obeys(record.command, record.previous, record.result, record.failureCode)
    && record.previous.id == record.command.id && record.previous.revision == record.command.expectedRevision
    && record.result.revision == record.previous.revision + (if record.previous.status == Failed then 0 else 1)
    && GrantEvolves(record.previous, record.result)
    && index.Some? && GrantEvolves(record.result, grants[index.value])
  }

  // Scopes are unique, and two decisions at one revision of one grant are both about a failed grant.
  predicate Compatible(a: Record, b: Record) {
    && a.scope != b.scope
    && (a.command.id == b.command.id && a.command.expectedRevision == b.command.expectedRevision ==>
          a.previous.status == Failed && b.previous.status == Failed)
  }

  predicate RecordsKept(records: seq<Record>, grants: seq<Grant>) {
    && (forall i :: 0 <= i < |records| ==> RecordKept(records[i], grants))
    && forall i, j :: 0 <= i < j < |records| ==> Compatible(records[i], records[j])
  }

  lemma RecordsKeptLater(records: seq<Record>, a: seq<Grant>, b: seq<Grant>)
    requires RecordsKept(records, a) && Evolves(a, b)
    ensures RecordsKept(records, b)
  {
    hide GrantEvolves, Compatible, Scope, Obeys;
    forall i | 0 <= i < |records| ensures RecordKept(records[i], b) {
      RecordKeptLater(records[i], a, b);
    }
  }

  lemma RecordKeptLater(record: Record, a: seq<Grant>, b: seq<Grant>)
    requires RecordKept(record, a) && Evolves(a, b)
    ensures RecordKept(record, b)
  {
    hide Scope, Obeys;
    IndexEvolves(a, b, record.command.id);
    var i := GrantIndex(a, record.command.id).value;
    assert GrantEvolves(a[i], b[i]);
  }

  // --- What a committed decision does.

  // The decided grant is compared with its state just before the decision.
  lemma BaselineOfCurrent(data: Data, earlier: Time, index: nat, settings: Settings, times: Times)
    requires ValidSettings(settings) && Ordered(times) && Kept(data, earlier) && earlier <= times.first
    requires index < |Prepared(data, settings, times).grants|
    ensures var current := Prepared(data, settings, times).grants[index];
            Previous(Baseline(data, current, settings, times), current.id) == Some(current)
  {
    hide GrantKept, UseKept, Prepare, Reconcile, Snapshots, EventsKept, Numbered;
    if Prepare(data, times.first, times.second, settings.reservationTimeout) == data {
      SnapshotOf(data.grants, data.grants[index].id);
      IndexOfGrant(data.grants, index);
    }
  }

  // Committing raises the revision of the grant by exactly one, unless it had already failed.
  lemma CommitRaises(data: Data, earlier: Time, index: nat, updated: Grant, settings: Settings, times: Times)
    requires ValidSettings(settings) && Ordered(times) && Kept(data, earlier) && earlier <= times.first
    requires var prepared := Prepared(data, settings, times);
             && index < |prepared.grants| && updated.id == prepared.grants[index].id
             && updated.revision == prepared.grants[index].revision
             && (if prepared.grants[index].status == Failed then updated == prepared.grants[index]
                 else updated.status != prepared.grants[index].status && updated.status != Pending && updated.status != Consumed)
    ensures var prepared := Prepared(data, settings, times);
            var current, result := prepared.grants[index], Commit(data, prepared, index, updated, settings, times).grants[index];
            && result == updated.(revision := result.revision)
            && result.revision == current.revision + if current.status == Failed then 0 else 1
  {
    hide Prepared, Prepare, Baseline, EventsKept, Numbered, Coherent, NewEvents, Append;
    BaselineOfCurrent(data, earlier, index, settings, times);
    var prepared := Prepared(data, settings, times);
    ReconciledGrants(prepared.(grants := prepared.grants[index := updated]),
                     Baseline(data, prepared.grants[index], settings, times), settings.maxEvents);
  }

  lemma ApplyDecisionObeys(grant: Grant, command: Decision, correlation: string, check: Check, now: Time, revision: nat)
    ensures var (updated, error) := ApplyDecision(grant, command, correlation, check, now);
            error.None? || updated.status == Failed ==>
              (grant.status == Failed ==> revision == grant.revision) ==>
                Obeys(command, grant, updated.(revision := revision), FailureOf(error))
  {
  }

  // A decision that is not refused leaves the pending or active grant in another state.
  lemma ApplyDecisionMoves(grant: Grant, command: Decision, correlation: string, check: Check, now: Time)
    ensures var (updated, error) := ApplyDecision(grant, command, correlation, check, now);
            error.None? || updated.status == Failed ==>
              if grant.status == Failed then updated == grant && error == Some(InvalidTransition)
              else updated.status != grant.status && updated.status != Pending && updated.status != Consumed
  {
  }

  lemma RevisableReplaced(grants: seq<Grant>, before: map<string, Grant>, index: nat, grant: Grant)
    requires Revisable(grants, before) && DistinctGrants(grants) && index < |grants|
    requires grant.id == grants[index].id && grant.revision == grants[index].revision
    ensures Revisable(grants[index := grant], before)
    ensures Revisable(grants[index := grant], before[grant.id := grants[index]])
  {
  }

  lemma CommitEvolves(data: Data, earlier: Time, index: nat, updated: Grant, settings: Settings, times: Times)
    requires ValidSettings(settings) && Ordered(times) && Kept(data, earlier) && earlier <= times.first
    requires var prepared := Prepared(data, settings, times);
             index < |prepared.grants| && GrantEvolves(prepared.grants[index], updated)
             && updated.revision == prepared.grants[index].revision && updated.id == prepared.grants[index].id
    ensures var prepared := Prepared(data, settings, times);
            Evolves(prepared.grants, Commit(data, prepared, index, updated, settings, times).grants)
  {
    hide Prepared, Prepare, Snapshots, EventsKept, Numbered, Coherent, NewEvents, Append, Evolves, GrantEvolves, Reconcile, ReviseAll;
    var prepared := Prepared(data, settings, times);
    var current := prepared.grants[index];
    var before := Baseline(data, current, settings, times);
    var replaced := prepared.grants[index := updated];
    PreparedEvolves(data, earlier, settings, times);
    PreparedKeeps(data, earlier, settings, times);
    assert DistinctGrants(prepared.grants) by { CoherentIsDistinct(prepared, times.second); }
    RevisableReplaced(prepared.grants, Snapshots(data.grants), index, updated);
    EvolvesAt(prepared.grants, index, updated);
    ReviseEvolves(replaced, before);
    ReconciledGrants(prepared.(grants := replaced), before, settings.maxEvents);
    EvolvesTrans(prepared.grants, replaced, ReviseAll(replaced, before));
  }

  // --- The log is kept.

  lemma AppendCompatible(records: seq<Record>, grants: seq<Grant>, index: nat, record: Record)
    requires RecordsKept(records, grants) && GrantIndex(grants, record.command.id) == Some(index)
    requires FindRecord(records, record.scope).None?
    requires record.previous == grants[index] && record.command.expectedRevision == grants[index].revision
    ensures forall i :: 0 <= i < |records| ==> Compatible(records[i], record)
  {
    hide Scope;
    forall i | 0 <= i < |records| ensures Compatible(records[i], record) {
      assert RecordKept(records[i], grants);
    }
  }

  lemma AppendKeeps(records: seq<Record>, before: seq<Grant>, after: seq<Grant>, index: nat, record: Record)
    requires RecordsKept(records, before) && Evolves(before, after)
    requires GrantIndex(before, record.command.id) == Some(index)
    requires FindRecord(records, record.scope).None? && record.scope == Scope(record.command)
    requires record.previous == before[index] && record.command.expectedRevision == before[index].revision
    requires record.result == after[index] && Obeys(record.command, record.previous, record.result, record.failureCode)
    requires record.result.revision == record.previous.revision + (if record.previous.status == Failed then 0 else 1)
    ensures RecordsKept(records + [record], after)
  {
    hide Scope, Compatible, Obeys;
    AppendCompatible(records, before, index, record);
    RecordsKeptLater(records, before, after);
    IndexEvolves(before, after, record.command.id);
    assert GrantEvolves(before[index], after[index]);
    assert GrantEvolves(after[index], after[index]);
    assert RecordKept(record, after);
    hide RecordKept;
  }

  lemma PreparedRecords(data: Data, settings: Settings, times: Times)
    requires ValidSettings(settings)
    ensures Prepared(data, settings, times).records == data.records
  {
    hide Snapshots;
    var prepared := Prepare(data, times.first, times.second, settings.reservationTimeout);
    ReconciledGrants(prepared, Snapshots(data.grants), settings.maxEvents);
    hide Prepare, Reconcile;
  }

  lemma CommitRecords(data: Data, prepared: Data, index: nat, updated: Grant, settings: Settings, times: Times)
    requires ValidSettings(settings) && index < |prepared.grants|
    ensures Commit(data, prepared, index, updated, settings, times).records == prepared.records
    ensures |Commit(data, prepared, index, updated, settings, times).grants| == |prepared.grants|
  {
    hide Baseline;
    ReconciledGrants(prepared.(grants := prepared.grants[index := updated]),
                     Baseline(data, prepared.grants[index], settings, times), settings.maxEvents);
  }

  // What a transition that is recorded makes of the grant, whatever revision it is given afterwards.
  ghost predicate Takes(current: Grant, updated: Grant, command: Decision, error: Option<DecisionError>) {
    && GrantEvolves(current, updated) && updated.id == current.id && updated.revision == current.revision
    && (if current.status == Failed then updated == current
        else updated.status != current.status && updated.status != Pending && updated.status != Consumed)
    && forall revision: nat :: (current.status == Failed ==> revision == current.revision) ==>
                                 Obeys(command, current, updated.(revision := revision), FailureOf(error))
  }

  lemma CommitKeepsRecords(data: Data, earlier: Time, index: nat, updated: Grant, command: Decision,
                           error: Option<DecisionError>, settings: Settings, times: Times)
    requires ValidSettings(settings) && Ordered(times) && Kept(data, earlier) && earlier <= times.first
    requires RecordsKept(data.records, data.grants)
    requires var prepared := Prepared(data, settings, times);
             && GrantIndex(prepared.grants, command.id) == Some(index)
             && command.expectedRevision == prepared.grants[index].revision
             && FindRecord(prepared.records, Scope(command)).None?
             && Takes(prepared.grants[index], updated, command, error)
    ensures var prepared := Prepared(data, settings, times);
            var after := Commit(data, prepared, index, updated, settings, times);
            var record := RecordOf(command, after.grants[index], prepared.grants[index], CurrentCursor(after), error);
            RecordsKept(after.records + [record], after.grants) && Evolves(data.grants, after.grants)
  {
    hide Kept, RecordsKept, Evolves, GrantEvolves, Prepared, Commit, Scope, CurrentCursor, Obeys;
    var prepared := Prepared(data, settings, times);
    var after := Commit(data, prepared, index, updated, settings, times);
    PreparedEvolves(data, earlier, settings, times);
    PreparedRecords(data, settings, times);
    RecordsKeptLater(data.records, data.grants, prepared.grants);
    CommitEvolves(data, earlier, index, updated, settings, times);
    CommitRaises(data, earlier, index, updated, settings, times);
    CommitRecords(data, prepared, index, updated, settings, times);
    EvolvesTrans(data.grants, prepared.grants, after.grants);
    AppendKeeps(prepared.records, prepared.grants, after.grants, index,
                RecordOf(command, after.grants[index], prepared.grants[index], CurrentCursor(after), error));
  }

  // What a decision that reaches the transition leaves behind.
  lemma CommitDecisionKeepsRecords(data: Data, earlier: Time, index: nat, command: Decision, correlation: string,
                                   check: Check, settings: Settings, times: Times)
    requires ValidSettings(settings) && Ordered(times) && Kept(data, earlier) && earlier <= times.first
    requires RecordsKept(data.records, data.grants)
    requires var prepared := Prepared(data, settings, times);
             && GrantIndex(prepared.grants, command.id) == Some(index)
             && command.expectedRevision == prepared.grants[index].revision
             && FindRecord(prepared.records, Scope(command)).None?
    ensures var after := CommitDecision(data, index, command, correlation, check, settings, times).data;
            RecordsKept(after.records, after.grants) && Evolves(data.grants, after.grants)
  {
    hide Kept, RecordsKept, Evolves, GrantEvolves, GrantKept, Prepared, Commit, Scope, CurrentCursor, ApplyDecision, RecordOf, Obeys;
    PreparedEvolves(data, earlier, settings, times);
    PreparedRecords(data, settings, times);
    PreparedKeeps(data, earlier, settings, times);
    var prepared := Prepared(data, settings, times);
    var current := prepared.grants[index];
    var (updated, error) := ApplyDecision(current, command, correlation, check, times.third);
    if error.Some? && updated.status != Failed {
      RecordsKeptLater(data.records, data.grants, prepared.grants);
    } else {
      CurrentIsKept(prepared, times.second, index);
      ApplyDecisionEvolves(current, prepared.uses, command, correlation, check, times.third);
      ApplyDecisionIdentity(current, command, correlation, check, times.third);
      ApplyDecisionMoves(current, command, correlation, check, times.third);
      forall revision: nat | current.status == Failed ==> revision == current.revision
        ensures Obeys(command, current, updated.(revision := revision), FailureOf(error))
      {
        ApplyDecisionObeys(current, command, correlation, check, times.third, revision);
      }
      CommitKeepsRecords(data, earlier, index, updated, command, error, settings, times);
      CommitRecords(data, prepared, index, updated, settings, times);
    }
  }

  lemma CurrentIsKept(data: Data, now: Time, i: nat)
    requires Kept(data, now) && i < |data.grants|
    ensures GrantKept(data.grants[i], data.uses)
  {
  }

  lemma DecideKeepsRecords(data: Data, earlier: Time, command: Decision, correlation: string, check: Check,
                           settings: Settings, times: Times)
    requires ValidSettings(settings) && Ordered(times) && Kept(data, earlier) && earlier <= times.first
    requires RecordsKept(data.records, data.grants)
    ensures var after := Decide(data, command, correlation, check, settings, times).data;
            RecordsKept(after.records, after.grants) && Evolves(data.grants, after.grants)
  {
    hide Kept, RecordsKept, Evolves, Prepared, Scope, CommitDecision, Replay;
    PreparedEvolves(data, earlier, settings, times);
    PreparedRecords(data, settings, times);
    var prepared := Prepared(data, settings, times);
    RecordsKeptLater(data.records, data.grants, prepared.grants);
    var index := GrantIndex(prepared.grants, command.id);
    if && FindRecord(prepared.records, Scope(command)).None? && index.Some?
       && command.expectedRevision == prepared.grants[index.value].revision {
      CommitDecisionKeepsRecords(data, earlier, index.value, command, correlation, check, settings, times);
    }
  }

  // --- Replay.

  lemma {:induction false} FoundStaysFound(records: seq<Record>, more: seq<Record>, scope: string)
    requires FindRecord(records, scope).Some?
    ensures FindRecord(records + more, scope) == FindRecord(records, scope)
  {
    assert (records + more)[0] == records[0];
    if records[0].scope != scope {
      assert (records + more)[1..] == records[1..] + more;
      FoundStaysFound(records[1..], more, scope);
    }
  }

  lemma {:induction false} AppendedIsFound(records: seq<Record>, record: Record)
    requires FindRecord(records, record.scope).None?
    ensures FindRecord(records + [record], record.scope) == Some(record)
  {
    if records != [] {
      assert (records + [record])[1..] == records[1..] + [record];
      assert FindRecord(records[1..], record.scope).None?;
      AppendedIsFound(records[1..], record);
    }
  }

  // The last record of the log holds what the decision returned.
  predicate Logged(records: seq<Record>, outcome: DecisionOutcome, command: Decision) {
    var after := outcome.data.records;
    && |after| == |records| + 1
    && after == records + [after[|records|]]
    && after[|records|].scope == Scope(command) && after[|records|].command == command
    && FindRecord(records, Scope(command)).None?
    && outcome.result == Result(after[|records|].result, after[|records|].previous, after[|records|].cursor, false)
  }

  lemma DecisionIsLogged(data: Data, command: Decision, correlation: string, check: Check, settings: Settings, times: Times)
    requires ValidSettings(settings)
    ensures var outcome := Decide(data, command, correlation, check, settings, times);
            outcome.data.records == data.records || Logged(data.records, outcome, command)
  {
    hide Prepared, Commit, ApplyDecision, Scope, CurrentCursor;
    PreparedRecords(data, settings, times);
    var prepared := Prepared(data, settings, times);
    var index := GrantIndex(prepared.grants, command.id);
    if && FindRecord(prepared.records, Scope(command)).None? && index.Some?
       && command.expectedRevision == prepared.grants[index.value].revision {
      var current := prepared.grants[index.value];
      var (updated, error) := ApplyDecision(current, command, correlation, check, times.third);
      CommitRecords(data, prepared, index.value, updated, settings, times);
      if error.None? || updated.status == Failed {
        var after := Commit(data, prepared, index.value, updated, settings, times);
        var record := RecordOf(command, after.grants[index.value], current, CurrentCursor(after), error);
        assert Decide(data, command, correlation, check, settings, times).data.records == data.records + [record];
      }
    }
  }

  // Whatever has been added to the log and to the grants since, the command that committed returns
  // the grant, the previous state and the cursor that it returned then.
  lemma ReplayReturnsOriginal(data: Data, command: Decision, correlation: string, check: Check, settings: Settings, times: Times,
                              later: Data,
                              correlation': string, check': Check, settings': Settings, times': Times)
    requires ValidSettings(settings) && ValidSettings(settings')
    requires Commits(data, command, correlation, check, settings, times)
    requires Decide(data, command, correlation, check, settings, times).data.records <= later.records
    ensures var first := Decide(data, command, correlation, check, settings, times).result;
            first.Result? && Decide(later, command, correlation', check', settings', times').result
            == Result(first.grant, first.previous, first.cursor, true)
  {
    hide Scope, Decide;
    var outcome := Decide(data, command, correlation, check, settings, times);
    DecisionIsLogged(data, command, correlation, check, settings, times);
    var record := outcome.data.records[|data.records|];
    AppendedIsFound(data.records, record);
    var more := later.records[|outcome.data.records|..];
    assert later.records == data.records + [record] + more;
    FoundStaysFound(data.records + [record], more, record.scope);
    RecordIsReplayed(later, record, command, correlation', check', settings', times');
  }

  lemma RecordIsReplayed(data: Data, record: Record, command: Decision, correlation: string, check: Check,
                         settings: Settings, times: Times)
    requires ValidSettings(settings)
    requires FindRecord(data.records, Scope(command)) == Some(record) && record.command == command
    ensures Decide(data, command, correlation, check, settings, times).result
            == Result(record.result, record.previous, record.cursor, true)
  {
    hide Scope, Prepared, CommitDecision;
    PreparedRecords(data, settings, times);
  }
}
