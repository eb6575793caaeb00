// A decision that commits while its preparation changes other grants: their changes are recorded twice.
module GrantRepeats {
  import opened Options
  import opened Text
  import opened GrantData
  import opened GrantLifecycle
  import opened GrantOperations
  import opened GrantDecisions
  import opened GrantEvolution
  import opened GrantRecords
  import opened GrantRuns
  import opened GrantFailures
  import opened GrantVerdicts
  import opened GrantCalls
  import opened GrantEvents

  // The full history after a commit: what preparation recorded, and then what the commit recorded.
  lemma CommitHistory(data: Data, history: seq<Event>, index: nat, updated: Grant, settings: Settings, times: Times)
    requires ValidSettings(settings) && Remembers(data, history) && index < |Prepared(data, settings, times).grants|
    requires Prepare(data, times.first, times.second, settings.reservationTimeout) != data
    ensures Remembers(Commit(data, Prepared(data, settings, times), index, updated, settings, times),
                      history + PreparedEvents(data, settings, times) + CommittedEvents(data, index, updated, settings, times))
  {
    hide Prepare, Snapshots, NewEvents, Reconcile, Baseline, Remembers;
    var ready := Prepare(data, times.first, times.second, settings.reservationTimeout);
    PrepareKeepsEvents(data, times.first, times.second, settings.reservationTimeout);
    SameLog(data, ready, history);
    ReconcileRemembers(ready, history, Snapshots(data.grants), settings.maxEvents);
    var prepared := Prepared(data, settings, times);
    var known := history + PreparedEvents(data, settings, times);
    var replaced := prepared.(grants := prepared.grants[index := updated]);
    SameLog(prepared, replaced, known);
    ReconcileRemembers(replaced, known, Baseline(data, prepared.grants[index], settings, times), settings.maxEvents);
  }

  ghost predicate ToldTwice(history: seq<Event>, kind: EventKind, grant: Grant, previous: Option<Grant>) {
    exists p, q :: 0 <= p < q < |history| && Tells(history[p], kind, grant, previous) && Tells(history[q], kind, grant, previous)
  }

  lemma ToldInBoth(history: seq<Event>, a: seq<Event>, b: seq<Event>, kind: EventKind, grant: Grant, previous: Option<Grant>)
    requires Told(a, kind, grant, previous) && Told(b, kind, grant, previous)
    ensures ToldTwice(history + a + b, kind, grant, previous)
  {
    hide Tells;
    var p :| 0 <= p < |a| && Tells(a[p], kind, grant, previous);
    var q :| 0 <= q < |b| && Tells(b[q], kind, grant, previous);
    var all := history + a + b;
    assert all[|history| + p] == a[p] && all[|history| + |a| + q] == b[q];
  }

  // Every change that preparation makes to another grant is in the history twice after the commit.
  lemma CommitTellsTwice(data: Data, now: Time, history: seq<Event>, index: nat, command: Decision, correlation: string, check: Check,
                         j: nat, kind: EventKind, settings: Settings, times: Times)
    returns (longer: seq<Event>)
    requires ValidSettings(settings) && Ordered(times) && AtRest(data, now) && now <= times.first && Remembers(data, history)
    requires FindRecord(data.records, Scope(command)).None?
    requires var prepared := Prepared(data, settings, times);
             && GrantIndex(prepared.grants, command.id) == Some(index)
             && prepared.grants[index].revision == command.expectedRevision
             && j < |data.grants| && j < |prepared.grants| && j != index
             && Describes(kind, Some(data.grants[j]), prepared.grants[j])
    requires Commits(data, command, correlation, check, settings, times)
    ensures Remembers(Decide(data, command, correlation, check, settings, times).data, longer) && history <= longer
    ensures ToldTwice(longer, kind, Prepared(data, settings, times).grants[j], Some(data.grants[j]))
  {
    hide Scope, Kept, RecordsKept, Prepared, Commit, ApplyDecision, CurrentCursor, FindRecord, Tells, ToldTwice, Remembers,
      PreparedEvents, CommittedEvents, Describes, RecordOf;
    var prepared := Prepared(data, settings, times);
    var updated := ApplyDecision(prepared.grants[index], command, correlation, check, times.third).0;
    ApplyDecisionIdentity(prepared.grants[index], command, correlation, check, times.third);
    PreparedRecords(data, settings, times);
    DecideReachesCommit(data, index, command, correlation, check, settings, times);
    ChangedByPreparation(data, j, kind, settings, times);
    CommitHistory(data, history, index, updated, settings, times);
    OthersAreToldAgain(data, now, index, updated, j, kind, settings, times);
    ToldInBoth(history, PreparedEvents(data, settings, times), CommittedEvents(data, index, updated, settings, times), kind,
               prepared.grants[j], Some(data.grants[j]));
    longer := history + PreparedEvents(data, settings, times) + CommittedEvents(data, index, updated, settings, times);
    var after := Commit(data, prepared, index, updated, settings, times);
    RememberedWith(after, longer);
  }

  lemma RememberedWith(data: Data, history: seq<Event>)
    ensures forall records :: Remembers(data.(records := records), history) <==> Remembers(data, history)
  {
  }

  lemma ChangedByPreparation(data: Data, j: nat, kind: EventKind, settings: Settings, times: Times)
    requires ValidSettings(settings) && j < |data.grants| && j < |Prepared(data, settings, times).grants|
    requires Describes(kind, Some(data.grants[j]), Prepared(data, settings, times).grants[j])
    ensures Prepare(data, times.first, times.second, settings.reservationTimeout) != data
  {
    hide Prepare, Reconcile;
  }

  // --- A run that gets there.

  const FIRST := Request(SUBJECT, 1, 10, 1, true, true)
  const SECOND := Request(SUBJECT.(client := "other"), 1, 1, 1, true, true)
  const LATER := Times(5, 5, 5, 5)
  const DENIAL := Decision("g", Deny, "operator", "", 1, "a", 0, 0, false)

  const REQUESTED := [Entry(Change(Create(FIRST, Some("g"))), TIMES, true), Entry(Change(Create(SECOND, Some("h"))), TIMES, true)]
  const DECIDED := REQUESTED + [Entry(DecideBy(DENIAL, "", Passes), LATER, true)]

  function Asked(request: Request, id: string): Grant
    requires Normal(request)
  {
    Grant(id, request.subject, Pending, 1, 1, 1 + request.pendingTimeout, 0, request.duration, request.duration,
          request.pendingTimeout, 0, "", "", None, "", 0, UNUSED, 0, 0, request.maxUses, request.maxUses, request.maxUsesDefaulted, None)
  }

  predicate Stores(data: Data, grants: seq<Grant>) { data.grants == grants && data.uses == [] && data.records == [] }

  lemma RequestsAreNormal()
    ensures Normal(FIRST) && Normal(SECOND)
  {
    hide ValidMetadata;
    WindowIsValid();
  }

  lemma FirstIsStored(settings: Settings)
    requires ValidSettings(settings) && Normal(FIRST)
    ensures Stores(Update(EMPTY, Create(FIRST, Some("g")), settings, TIMES).data, [Asked(FIRST, "g")])
  {
    hide Reconcile, Normal;
    var change := CreateGrant(EMPTY, FIRST, Some("g"), settings, TIMES);
    assert Prepare(EMPTY, 1, 1, settings.reservationTimeout) == EMPTY;
    assert change.data.grants == [NewGrant(FIRST, "g", 1)];
    ReconciledAlone(change.data, map[], NewGrant(FIRST, "g", 1), settings.maxEvents);
  }

  lemma NothingIsDue(data: Data, grant: Grant, timeout: nat)
    requires Stores(data, [grant]) && grant.status == Pending && grant.pendingExpiresAt > 1
    ensures Prepare(data, 1, 1, timeout) == data && ExpireDue(data, 1) == data
  {
    assert ExpireGrants(data.grants, 1) == data.grants;
    assert RetainUses(data.uses, data.grants, 1, timeout) == data.uses;
    assert RetainGrants(data.uses, data.grants, 1, timeout) == data.grants;
  }

  lemma SecondIsStored(data: Data, settings: Settings)
    requires ValidSettings(settings) && settings.maxPendingGlobal >= 2 && Normal(FIRST) && Normal(SECOND)
    requires Stores(data, [Asked(FIRST, "g")])
    ensures Stores(Update(data, Create(SECOND, Some("h")), settings, TIMES).data, [Asked(FIRST, "g"), Asked(SECOND, "h")])
  {
    hide Reconcile, Normal, Prepare, ExpireDue;
    var first := Asked(FIRST, "g");
    NothingIsDue(data, first, settings.reservationTimeout);
    RoomForSecond(first, settings);
    var change := CreateGrant(data, SECOND, Some("h"), settings, TIMES);
    assert change.data.grants == [first, NewGrant(SECOND, "h", 1)];
    ReconciledGrants(change.data, Snapshots(data.grants), settings.maxEvents);
    SnapshotOfOne(first);
    RevisedPair(first, NewGrant(SECOND, "h", 1));
  }

  lemma RoomForSecond(first: Grant, settings: Settings)
    requires ValidSettings(settings) && settings.maxPendingGlobal >= 2 && first.subject.client == "client"
    ensures HasCapacity([first], "other", settings)
  {
    assert [first][..0] == [];
  }

  lemma SnapshotOfOne(grant: Grant)
    ensures Snapshots([grant]) == map[grant.id := grant]
  {
    assert [grant][..0] == [];
  }

  lemma RevisedPair(a: Grant, b: Grant)
    requires a.id != b.id
    ensures ReviseAll([a, b], map[a.id := a]) == [a, b.(revision := 1)]
  {
  }

  lemma RequestedRun(settings: Settings)
    requires ValidSettings(settings) && settings.maxPendingGlobal >= 2
    ensures Normal(FIRST) && Normal(SECOND) && LegalRun(EMPTY, REQUESTED, 0, settings)
    ensures Stores(After(EMPTY, REQUESTED, 0, settings), [Asked(FIRST, "g"), Asked(SECOND, "h")])
  {
    hide Update, Stores, Normal, Asked;
    RequestsAreNormal();
    FirstIsStored(settings);
    FirstRun(settings);
    var data := After(EMPTY, REQUESTED[..1], 0, settings);
    SecondIsStored(data, settings);
    StoredChange(data, REQUESTED[1], settings);
    SecondIsFresh(data);
    RunAppend(EMPTY, REQUESTED[..1], 0, REQUESTED[1], settings);
    assert REQUESTED[..1] + [REQUESTED[1]] == REQUESTED;
  }

  lemma FirstRun(settings: Settings)
    requires ValidSettings(settings) && Normal(FIRST)
    requires Stores(Update(EMPTY, Create(FIRST, Some("g")), settings, TIMES).data, [Asked(FIRST, "g")])
    ensures LegalRun(EMPTY, REQUESTED[..1], 0, settings) && LastTime(REQUESTED[..1], 0) == 1
    ensures Stores(After(EMPTY, REQUESTED[..1], 0, settings), [Asked(FIRST, "g")])
  {
    hide Update, Stores, Normal, Asked;
    assert REQUESTED[..1] == [REQUESTED[0]];
  }

  lemma SecondIsFresh(data: Data)
    requires Normal(FIRST) && Stores(data, [Asked(FIRST, "g")])
    ensures Fresh(data, Create(SECOND, Some("h")))
  {
    hide Normal;
  }

  // The second grant has expired, with the next revision, and the first one waits as before.
  lemma LaterIsPrepared(data: Data, now: Time, settings: Settings)
    requires ValidSettings(settings) && Normal(FIRST) && Normal(SECOND) && Kept(data, now) && now <= 1
    requires Stores(data, [Asked(FIRST, "g"), Asked(SECOND, "h")])
    ensures var grants := Prepared(data, settings, LATER).grants;
            && |grants| == 2 && GrantIndex(grants, "g") == Some(0)
            && grants[0] == data.grants[0] && grants[1].id == "h" && grants[1].status == Expired && grants[1].revision == 2
  {
    hide Coherent, Prepare, Snapshots, NewEvents, Append, EventsKept, Normal;
    var ready := Prepare(data, 5, 5, settings.reservationTimeout);
    PreparedGrant(data, now, LATER, settings.reservationTimeout, 0);
    PreparedGrant(data, now, LATER, settings.reservationTimeout, 1);
    NoUsesRetained(data, settings.reservationTimeout);
    CoherentIsDistinct(data, now);
    SnapshotsOfSelf(data.grants);
    ReconciledGrants(ready, Snapshots(data.grants), settings.maxEvents);
    assert ready != data;
    hide Reconcile;
  }

  lemma NoUsesRetained(data: Data, timeout: nat)
    requires data.uses == []
    ensures forall i :: 0 <= i < |data.grants| ==>
                          i < |Prepare(data, 5, 5, timeout).grants|
                          && Prepare(data, 5, 5, timeout).grants[i] == ExpireGrant(data.grants[i], 5)
  {
    var expired := ExpireGrants(data.grants, 5);
    var after := RetainGrants(data.uses, expired, 5, timeout);
    assert Prepare(data, 5, 5, timeout).grants == after;
    forall i | 0 <= i < |data.grants| ensures after[i] == expired[i] {
      assert StaleUses(expired[i].id, data.uses, expired, 5, timeout) == 0;
    }
  }

  lemma DenialIsValidNow()
    ensures ValidCommand(DENIAL, "")
  {
    ShortText("");
    ShortText("a");
    ShortText("operator");
    hide ByteLength;
  }

  lemma DenialTellsTwice(data: Data, known: seq<Event>, settings: Settings) returns (history: seq<Event>)
    requires ValidSettings(settings) && Normal(FIRST) && Normal(SECOND) && AtRest(data, 1) && Remembers(data, known)
    requires Stores(data, [Asked(FIRST, "g"), Asked(SECOND, "h")])
    ensures Remembers(Decide(data, DENIAL, "", Passes, settings, LATER).data, history)
    ensures exists p, q :: 0 <= p < q < |history| && IsExpiryOf(history[p], "h") && IsExpiryOf(history[q], "h")
  {
    hide Kept, RecordsKept, Decide, ValidCommand, Scope, FindRecord, Remembers, Prepared, Commits, Granted, Ruined, Judged, ToldTwice, Normal;
    AtRestIsKept(data, 1);
    LaterIsPrepared(data, 1, settings);
    NothingRecorded(data);
    DecisionExactly(data, 1, 0, DENIAL, "", Passes, settings, LATER);
    DenialIsGranted(Prepared(data, settings, LATER).grants[0]);
    history := CommitTellsTwice(data, 1, known, 0, DENIAL, "", Passes, 1, RequestExpired, settings, LATER);
    ExpiriesOf(history, Prepared(data, settings, LATER).grants[1], Some(data.grants[1]));
  }

  // Two clients ask at one time, the second request lapses, and the first is denied afterwards: the
  // history then shows the second one expire twice.
  lemma ExpiryToldTwice(settings: Settings) returns (history: seq<Event>)
    requires ValidSettings(settings) && settings.maxPendingGlobal >= 2
    ensures LegalRun(EMPTY, DECIDED, 0, settings)
    ensures Remembers(After(EMPTY, DECIDED, 0, settings), history)
    ensures exists p, q :: 0 <= p < q < |history| && IsExpiryOf(history[p], "h") && IsExpiryOf(history[q], "h")
  {
    hide LegalRun, After, AtRest, Decide, ValidCommand, Remembers, Evolves, Stores, Asked, Normal, IsExpiryOf;
    RequestedRun(settings);
    EmptyIsAtRest();
    RunKeeps(EMPTY, REQUESTED, 0, settings);
    var data := After(EMPTY, REQUESTED, 0, settings);
    NothingRemembered();
    history := RunRemembers(EMPTY, [], REQUESTED, 0, settings);
    history := DenialTellsTwice(data, history, settings);
    DenialIsValidNow();
    var entry := Entry(DecideBy(DENIAL, "", Passes), LATER, true);
    StoredDecision(data, entry, settings);
    RunAppend(EMPTY, REQUESTED, 0, entry, settings);
  }

  predicate IsExpiryOf(event: Event, id: string) { event.kind == RequestExpired && event.grantId == id && event.revision == 2 }

  lemma ExpiriesOf(history: seq<Event>, grant: Grant, previous: Option<Grant>)
    requires ToldTwice(history, RequestExpired, grant, previous) && grant.id == "h" && grant.revision == 2
    ensures exists p, q :: 0 <= p < q < |history| && IsExpiryOf(history[p], "h") && IsExpiryOf(history[q], "h")
  {
  }

  lemma AtRestIsKept(data: Data, now: Time)
    requires AtRest(data, now)
    ensures Kept(data, now)
  {
  }

  lemma NothingRemembered()
    ensures Remembers(EMPTY, [])
  {
  }

  lemma NothingRecorded(data: Data)
    requires data.records == []
    ensures FindRecord(data.records, Scope(DENIAL)).None?
  {
  }

  lemma DenialIsGranted(grant: Grant)
    requires grant.status == Pending
    ensures Granted(DENIAL, grant, Passes)
  {
  }
}
