// Reading the event log by cursor.
module GrantEvents {
  import opened Options
  import opened GrantData
  import opened GrantLifecycle
  import opened GrantOperations
  import opened GrantDecisions
  import opened GrantRecords
  import opened GrantRuns

  // --- The full history behind the retained events.

  lemma MutateRemembers(data: Data, history: seq<Event>, command: Command, settings: Settings, times: Times)
    returns (longer: seq<Event>)
    requires ValidSettings(settings) && Admissible(command) && Remembers(data, history)
    ensures Remembers(Mutate(data, command, settings, times).data, longer) && history <= longer
  {
    hide Normal, ValidUseIdentity, FindIdempotent, HasCapacity, SameRequest, CanUse, Tally, GrantIndex, UseIndex, Append;
    longer := history;
    if command.RecordExecution? && GrantIndex(data.grants, command.id).Some? {
      var grant := data.grants[GrantIndex(data.grants, command.id).value];
      var event := EventOf(data.nextEvent, command.kind, grant, Some(grant));
      AppendRemembers(data, history, [event], settings.maxEvents);
      longer := history + [event];
    }
  }

  lemma UpdateRemembers(data: Data, history: seq<Event>, command: Command, settings: Settings, times: Times)
    returns (longer: seq<Event>)
    requires ValidSettings(settings) && Admissible(command) && Remembers(data, history)
    ensures Remembers(Update(data, command, settings, times).data, longer) && history <= longer
  {
    hide Prepare, Mutate, Reconcile, Snapshots, Admissible, NewEvents;
    var prepared := Prepare(data, times.first, times.second, settings.reservationTimeout);
    PrepareKeepsEvents(data, times.first, times.second, settings.reservationTimeout);
    var changed := Mutate(prepared, command, settings, times).data;
    longer := MutateRemembers(prepared, history, command, settings, times);
    ReconcileRemembers(changed, longer, Snapshots(data.grants), settings.maxEvents);
    longer := longer + NewEvents(changed.grants, Snapshots(data.grants), changed.nextEvent);
  }

  // Recording an execution adds exactly one event of that kind about the grant, and then those of what
  // preparation changed.
  lemma ExecutionIsRecorded(data: Data, history: seq<Event>, id: string, kind: EventKind, settings: Settings, times: Times)
    returns (longer: seq<Event>)
    requires ValidSettings(settings) && IsExecutionKind(kind) && Remembers(data, history)
    ensures var change := Update(data, RecordExecution(id, kind), settings, times);
            var prepared := Prepare(data, times.first, times.second, settings.reservationTimeout);
            var index := GrantIndex(prepared.grants, id);
            && change.error == (if index.None? then Some(NotFound) else None)
            && Remembers(change.data, longer)
            && longer == history
                         + (if index.None? then [] else [ExecutionEvent(|history| + 1, kind, prepared.grants[index.value])])
                         + NewEvents(prepared.grants, Snapshots(data.grants), |history| + 1 + if index.None? then 0 else 1)
  {
    hide Prepare, Reconcile, Snapshots, NewEvents, Append, Remembers;
    var prepared := Prepare(data, times.first, times.second, settings.reservationTimeout);
    var index := GrantIndex(prepared.grants, id);
    PrepareKeepsEvents(data, times.first, times.second, settings.reservationTimeout);
    SameLog(data, prepared, history);
    var recorded, known := prepared, history;
    if index.Some? {
      var event := EventOf(prepared.nextEvent, kind, prepared.grants[index.value], Some(prepared.grants[index.value]));
      AppendRemembers(prepared, history, [event], settings.maxEvents);
      recorded, known := Append(prepared, [event], settings.maxEvents), history + [event];
      AppendKeepsGrants(prepared, [event], settings.maxEvents);
    }
    NextOfHistory(prepared, history);
    NextOfHistory(recorded, known);
    ReconcileRemembers(recorded, known, Snapshots(data.grants), settings.maxEvents);
    longer := known + NewEvents(recorded.grants, Snapshots(data.grants), recorded.nextEvent);
  }

  function ExecutionEvent(sequence: nat, kind: EventKind, grant: Grant): Event {
    Event(sequence, kind, grant.id, grant.status, grant.usage.used, grant.usage.reserved, grant.revision, grant.decidedBy,
          Some(grant.status), grant.revision, if grant.decidedBy == "" then 0 else grant.revision)
  }

  lemma SameLog(a: Data, b: Data, history: seq<Event>)
    requires Remembers(a, history) && b.events == a.events && b.nextEvent == a.nextEvent
    ensures Remembers(b, history)
  {
  }

  lemma NextOfHistory(data: Data, history: seq<Event>)
    requires Remembers(data, history)
    ensures data.nextEvent == |history| + 1
  {
  }

  lemma AppendKeepsGrants(data: Data, events: seq<Event>, limit: nat)
    ensures Append(data, events, limit).grants == data.grants
  {
  }

  lemma PreparedRemembers(data: Data, history: seq<Event>, settings: Settings, times: Times) returns (longer: seq<Event>)
    requires ValidSettings(settings) && Remembers(data, history)
    ensures Remembers(Prepared(data, settings, times), longer) && history <= longer
  {
    hide Prepare, Reconcile, Snapshots, NewEvents;
    longer := history;
    var prepared := Prepare(data, times.first, times.second, settings.reservationTimeout);
    PrepareKeepsEvents(data, times.first, times.second, settings.reservationTimeout);
    if prepared != data {
      ReconcileRemembers(prepared, history, Snapshots(data.grants), settings.maxEvents);
      longer := history + NewEvents(prepared.grants, Snapshots(data.grants), prepared.nextEvent);
    }
  }

  lemma DecideRemembers(data: Data, history: seq<Event>, command: Decision, correlation: string, check: Check,
                        settings: Settings, times: Times) returns (longer: seq<Event>)
    requires ValidSettings(settings) && Remembers(data, history)
    ensures Remembers(Decide(data, command, correlation, check, settings, times).data, longer) && history <= longer
  {
    hide Prepared, Reconcile, Baseline, NewEvents, ApplyDecision, Scope, FindRecord, Replay;
    longer := PreparedRemembers(data, history, settings, times);
    var prepared := Prepared(data, settings, times);
    var index := GrantIndex(prepared.grants, command.id);
    if && FindRecord(prepared.records, Scope(command)).None? && index.Some?
       && command.expectedRevision == prepared.grants[index.value].revision {
      var current := prepared.grants[index.value];
      var (updated, error) := ApplyDecision(current, command, correlation, check, times.third);
      if error.None? || updated.status == Failed {
        var replaced := prepared.(grants := prepared.grants[index.value := updated]);
        var before := Baseline(data, current, settings, times);
        ReconcileRemembers(replaced, longer, before, settings.maxEvents);
        longer := longer + NewEvents(replaced.grants, before, replaced.nextEvent);
      }
    }
  }

  lemma MaintainedRemembers(data: Data, changed: Data, history: seq<Event>, settings: Settings) returns (longer: seq<Event>)
    requires ValidSettings(settings) && Remembers(data, history)
    requires changed.events == data.events && changed.nextEvent == data.nextEvent
    ensures Remembers(Reconcile(changed, Snapshots(data.grants), settings.maxEvents), longer) && history <= longer
  {
    hide Reconcile, Snapshots, NewEvents;
    ReconcileRemembers(changed, history, Snapshots(data.grants), settings.maxEvents);
    longer := history + NewEvents(changed.grants, Snapshots(data.grants), changed.nextEvent);
  }

  lemma StepRemembers(data: Data, history: seq<Event>, entry: Entry, settings: Settings) returns (longer: seq<Event>)
    requires ValidSettings(settings) && Allowed(entry.call) && Remembers(data, history)
    ensures Remembers(Step(data, entry, settings), longer) && history <= longer
  {
    hide Remembers, Admissible, Update, Decide, Prepare, Reconcile, Snapshots, NewEvents;
    longer := history;
    if entry.stored {
      var t := entry.times;
      var prepared := Prepare(data, t.first, t.second, settings.reservationTimeout);
      PrepareKeepsEvents(data, t.first, t.second, settings.reservationTimeout);
      match entry.call {
        case Change(command) => longer := UpdateRemembers(data, history, command, settings, t);
        case DecideBy(decision, correlation, check) =>
          longer := DecideRemembers(data, history, decision, correlation, check, settings, t);
        case Read => longer := MaintainedRemembers(data, ExpireDue(data, t.first), history, settings);
        case Inspect => longer := MaintainedRemembers(data, prepared, history, settings);
        case MeetDeadline =>
          if NewEvents(prepared.grants, Snapshots(data.grants), data.nextEvent) != [] {
            longer := MaintainedRemembers(data, prepared, history, settings);
          }
      }
    }
  }

  // Over any run the history only grows, and the log retains the end of it.
  lemma {:induction false} RunRemembers(data: Data, history: seq<Event>, run: seq<Entry>, now: Time, settings: Settings)
    returns (longer: seq<Event>)
    requires ValidSettings(settings) && LegalRun(data, run, now, settings) && Remembers(data, history)
    ensures Remembers(After(data, run, now, settings), longer) && history <= longer
    decreases |run|
  {
    hide Remembers, Allowed, Step, Fresh, ValidCommand;
    longer := history;
    if run != [] {
      longer := StepRemembers(data, history, run[0], settings);
      longer := RunRemembers(Step(data, run[0], settings), longer, run[1..], run[0].times.fourth, settings);
    }
  }

  // --- Pages.

  datatype Page = Page(events: seq<Event>, next: Option<nat>, hasMore: bool)

  const DEFAULT_PAGE := 50
  const MAX_PAGE := 100

  function NormalLimit(limit: int): (r: Option<nat>)
    ensures r.Some? ==> 1 <= r.value <= MAX_PAGE
    ensures r.None? <==> limit < 0 || limit > MAX_PAGE
    ensures r.Some? ==> r.value == if limit == 0 then 50 else limit
  {
    if limit == 0 then Some(DEFAULT_PAGE) else if limit < 1 || limit > MAX_PAGE then None else Some(limit)
  }

  // Where a page starts, unless events past the cursor have been dropped.
  function StartingSequence(events: seq<Event>, cursor: Option<nat>): Option<int> {
    var sequence := if cursor.Some? then cursor.value else 0;
    if events == [] then Some(sequence)
    else if cursor.None? then Some(events[0].sequence - 1)
    else if sequence < events[0].sequence - 1 then None
    else Some(sequence)
  }

  // The events past a sequence number.
  function Later(events: seq<Event>, sequence: int): seq<Event> {
    if events == [] then []
    else (if events[0].sequence > sequence then [events[0]] else []) + Later(events[1..], sequence)
  }

  function FirstOf(records: seq<Event>, limit: nat): Page
    requires limit > 0
  {
    var shown := if |records| > limit then records[..limit] else records;
    Page(shown, if shown == [] then None else Some(shown[|shown| - 1].sequence), |records| > limit)
  }

  function ReadAfter(events: seq<Event>, cursor: Option<nat>, limit: nat): Option<Page>
    requires limit > 0
  {
    match StartingSequence(events, cursor)
    case None => None
    case Some(sequence) => Some(FirstOf(Later(events, sequence), limit))
  }

  lemma {:induction false} LaterSplit(a: seq<Event>, b: seq<Event>, sequence: int)
    ensures Later(a + b, sequence) == Later(a, sequence) + Later(b, sequence)
  {
    if a == [] {
      assert a + b == b;
    } else {
      assert (a + b)[1..] == a[1..] + b;
      LaterSplit(a[1..], b, sequence);
    }
  }

  lemma LaterStep(events: seq<Event>, i: nat, sequence: int)
    requires i < |events|
    ensures Later(events[..i + 1], sequence)
            == Later(events[..i], sequence) + if events[i].sequence > sequence then [events[i]] else []
  {
    LaterSplit(events[..i], [events[i]], sequence);
    assert events[..i + 1] == events[..i] + [events[i]];
  }

  // One event more than a page shows decides the page.
  lemma LaterCut(events: seq<Event>, i: nat, sequence: int, limit: nat)
    requires limit > 0 && i <= |events| && (i < |events| ==> |Later(events[..i], sequence)| > limit)
    ensures FirstOf(Later(events, sequence), limit) == FirstOf(Later(events[..i], sequence), limit)
  {
    LaterSplit(events[..i], events[i..], sequence);
    assert events == events[..i] + events[i..];
    hide Later;
    if i == |events| {
      assert events[..i] == events;
    } else {
      var head, tail := Later(events[..i], sequence), Later(events[i..], sequence);
      assert (head + tail)[..limit] == head[..limit];
    }
  }

  // The loop stops as soon as it has seen one event more than it shows.
  method EventPageAfter(events: seq<Event>, sequence: int, limit: nat) returns (page: Page)
    requires limit > 0
    ensures page == FirstOf(Later(events, sequence), limit)
  {
    assert Later(events[..0], sequence) == [];
    hide Later;
    var records: seq<Event>, i := [], 0;
    while i < |events| && |records| <= limit
      invariant i <= |events|
      invariant records == Later(events[..i], sequence)
    {
      LaterStep(events, i, sequence);
      if events[i].sequence > sequence {
        records := records + [events[i]];
      }
      i := i + 1;
    }
    LaterCut(events, i, sequence, limit);
    var hasMore := |records| > limit;
    if hasMore {
      records := records[..limit];
    }
    page := Page(records, if records == [] then None else Some(records[|records| - 1].sequence), hasMore);
  }

  lemma {:induction false} LaterIsSuffix(events: seq<Event>, first: nat, sequence: int)
    requires Consecutive(events, first)
    ensures Later(events, sequence) ==
            if sequence < first then events else if sequence - first + 1 >= |events| then [] else events[sequence - first + 1..]
  {
    if events != [] {
      assert Consecutive(events[1..], first + 1);
      LaterIsSuffix(events[1..], first + 1, sequence);
    }
  }

  // A store in a state that its own runs reach.
  ghost predicate Logs(data: Data, history: seq<Event>) {
    Remembers(data, history) && EventsKept(data.events, data.nextEvent)
  }

  // What is left of the history past a cursor.
  function Unread(history: seq<Event>, cursor: nat): seq<Event> {
    if cursor < |history| then history[cursor..] else []
  }

  // A page shows the next unread events of the full history, unless some of them have been dropped,
  // in which case the cursor is reported as expired.
  lemma PageIsNext(data: Data, history: seq<Event>, cursor: nat, limit: nat)
    requires Logs(data, history) && limit > 0
    ensures var page, unread := ReadAfter(data.events, Some(cursor), limit), Unread(history, cursor);
            && (page.None? <==> cursor < |history| - |data.events|)
            && (page.Some? ==>
                  && page.value.events == (if |unread| > limit then unread[..limit] else unread)
                  && page.value.hasMore == (|unread| > limit)
                  && page.value.next == if unread == [] then None else Some(cursor + |page.value.events|))
  {
    hide Later;
    var unread := Unread(history, cursor);
    if data.events == [] {
      NoneLater(cursor);
    } else if |history| - |data.events| <= cursor {
      LaterIsUnread(data, history, cursor);
      assert unread != [] ==> FirstOf(unread, limit).events[|FirstOf(unread, limit).events| - 1].sequence
                              == cursor + |FirstOf(unread, limit).events|;
    }
  }

  // The cursor that a decision returns stands at the end of the history: reading from it shows exactly
  // what happens afterwards.
  lemma CursorIsNow(data: Data, history: seq<Event>, later: Data, longer: seq<Event>, limit: nat)
    requires Remembers(data, history) && Logs(later, longer) && history <= longer && limit > 0
    ensures CurrentCursor(data) == if history == [] then None else Some(|history|)
    ensures var page := ReadAfter(later.events, CurrentCursor(data), limit);
            history != [] && page.Some? ==>
              page.value.events == if |longer| - |history| > limit then longer[|history|..|history| + limit] else longer[|history|..]
  {
    hide ReadAfter;
    if history != [] {
      PageIsNext(later, longer, |history|, limit);
      if |history| < |longer| && |longer| - |history| > limit {
        assert longer[|history|..][..limit] == longer[|history|..|history| + limit];
      }
    }
  }

  lemma NoneLater(sequence: int)
    ensures Later([], sequence) == []
  {
  }

  lemma LaterIsUnread(data: Data, history: seq<Event>, cursor: nat)
    requires Logs(data, history) && |history| - |data.events| <= cursor
    ensures Later(data.events, cursor) == Unread(history, cursor)
  {
    var dropped := |history| - |data.events|;
    LaterIsSuffix(data.events, dropped + 1, cursor);
    hide Later;
    if dropped < cursor < |history| {
      assert data.events[cursor - dropped..] == history[cursor..];
    }
  }

  // Without a cursor the page starts at the oldest retained event.
  lemma FirstPageIsOldest(data: Data, history: seq<Event>, limit: nat)
    requires Logs(data, history) && limit > 0
    ensures ReadAfter(data.events, None, limit) == ReadAfter(data.events, Some(|history| - |data.events|), limit)
  {
  }

  // --- A reader that follows the cursors it is given while the store runs.

  // A call on the store, or the reader asking for the page after its cursor.
  datatype Act = Perform(entry: Entry) | Turn(limit: int)

  ghost predicate LegalActs(data: Data, acts: seq<Act>, now: Time, settings: Settings)
    requires ValidSettings(settings)
    decreases |acts|
  {
    acts == []
    || match acts[0]
       case Turn(limit) => LegalActs(data, acts[1..], now, settings)
       case Perform(entry) =>
         Legal(data, entry, now) && LegalActs(Step(data, entry, settings), acts[1..], entry.times.fourth, settings)
  }

  datatype Reader = Reader(seen: seq<Event>, cursor: nat, expired: bool)

  // A reader keeps its cursor when a page is empty or its limit is refused, and stops when the cursor
  // has expired.
  ghost function Follow(data: Data, acts: seq<Act>, now: Time, settings: Settings, cursor: nat): Reader
    requires ValidSettings(settings) && LegalActs(data, acts, now, settings)
    decreases |acts|
  {
    if acts == [] then Reader([], cursor, false)
    else
      match acts[0]
      case Perform(entry) => Follow(Step(data, entry, settings), acts[1..], entry.times.fourth, settings, cursor)
      case Turn(limit) =>
        if NormalLimit(limit).None? then Follow(data, acts[1..], now, settings, cursor)
        else
          match ReadAfter(data.events, Some(cursor), NormalLimit(limit).value)
          case None => Reader([], cursor, true)
          case Some(page) =>
            var rest := Follow(data, acts[1..], now, settings, if page.next.Some? then page.next.value else cursor);
            Reader(page.events + rest.seen, rest.cursor, rest.expired)
  }

  // The store once all the calls have been made.
  ghost function AfterActs(data: Data, acts: seq<Act>, now: Time, settings: Settings): Data
    requires ValidSettings(settings) && LegalActs(data, acts, now, settings)
    decreases |acts|
  {
    if acts == [] then data
    else
      match acts[0]
      case Perform(entry) => AfterActs(Step(data, entry, settings), acts[1..], entry.times.fourth, settings)
      case Turn(limit) => AfterActs(data, acts[1..], now, settings)
  }

  lemma PageOfHistory(data: Data, known: seq<Event>, cursor: nat, limit: nat, history: seq<Event>)
    requires Logs(data, known) && limit > 0 && known <= history && cursor <= |history|
    ensures var page := ReadAfter(data.events, Some(cursor), limit);
            page.Some? ==>
              var next := cursor + |page.value.events|;
              && next <= |history| && page.value.events == history[cursor..next]
              && (if page.value.next.Some? then page.value.next.value else cursor) == next
  {
    hide ReadAfter, Logs;
    PageIsNext(data, known, cursor, limit);
  }

  lemma AtRestLogs(data: Data, history: seq<Event>, now: Time)
    requires AtRest(data, now) && Remembers(data, history)
    ensures Logs(data, history)
  {
    hide Coherent, RecordsKept, Remembers;
  }

  // Whatever the calls between the pages append to the log or drop from it, the reader has seen every
  // event of the full history between its first and its last cursor, exactly once and in order.
  lemma {:induction false} ReaderSeesAll(data: Data, history: seq<Event>, acts: seq<Act>, now: Time, settings: Settings, cursor: nat)
    returns (longer: seq<Event>)
    requires ValidSettings(settings) && AtRest(data, now) && Remembers(data, history)
    requires LegalActs(data, acts, now, settings) && cursor <= |history|
    ensures history <= longer && Remembers(AfterActs(data, acts, now, settings), longer)
    ensures var reading := Follow(data, acts, now, settings, cursor);
            cursor <= reading.cursor <= |longer| && reading.seen == longer[cursor..reading.cursor]
    decreases |acts|
  {
    hide AtRest, Remembers, Legal, ReadAfter, Step;
    longer := history;
    if acts != [] {
      match acts[0] {
        case Perform(entry) =>
          StepKeepsLegal(data, now, entry, settings);
          longer := StepRemembers(data, history, entry, settings);
          longer := ReaderSeesAll(Step(data, entry, settings), longer, acts[1..], entry.times.fourth, settings, cursor);
        case Turn(limit) =>
          AtRestLogs(data, history, now);
          var normal := NormalLimit(limit);
          var next := cursor;
          if normal.Some? {
            PageOfHistory(data, history, cursor, normal.value, history);
            var page := ReadAfter(data.events, Some(cursor), normal.value);
            next := if page.Some? then cursor + |page.value.events| else cursor;
          }
          longer := ReaderSeesAll(data, history, acts[1..], now, settings, next);
          var end := Follow(data, acts[1..], now, settings, next).cursor;
          assert longer[cursor..next] + longer[next..end] == longer[cursor..end];
      }
    }
  }

  lemma StepKeepsLegal(data: Data, now: Time, entry: Entry, settings: Settings)
    requires ValidSettings(settings) && AtRest(data, now) && Legal(data, entry, now)
    ensures Allowed(entry.call) && AtRest(Step(data, entry, settings), entry.times.fourth)
  {
    hide AtRest, Allowed, Step, Fresh, ValidCommand;
    StepKeeps(data, now, entry, settings);
  }
}
