// Waiting for a decision: writers save and then signal, while waiters capture the signal channel,
// read the log and only then block. Every interleaving of their atomic steps is a run.
module GrantWaiters {
  import opened Options
  import opened GrantData
  import opened GrantLifecycle
  import opened GrantOperations
  import opened GrantDecisions
  import opened GrantEvolution
  import opened GrantRecords
  import opened GrantRuns
  import opened GrantEvents
  import opened GrantFailures
  import opened GrantHistory

  // Where a waiter is: about to learn its cursor, to check the status, to capture the channel, to
  // read the log with a channel captured, blocked on a channel, done with the decision, or stopped by
  // an error.
  datatype Phase = Starting | Checking | Capturing | Reading(channel: nat) | Blocked(channel: nat) | Finished | Stopped

  // `seen` is the next event number at the moment the grant was last seen pending.
  datatype Waiter = Waiter(id: string, cursor: Option<nat>, phase: Phase, seen: nat)

  // Closing a channel replaces it, so channels are numbered; the open one is the current generation.
  // Between a save and its signal the writer holds the store's lock.
  datatype World = World(data: Data, now: Time, signalDue: bool, generation: nat, waiters: seq<Waiter>)

  datatype Move =
    | Write(entry: Entry)
    | Signal
    | Learn(w: nat)
    | Look(w: nat, entry: Entry)
    | Capture(w: nat)
    | ReadLog(w: nat)
    | Wake(w: nat)
    | Alarm(w: nat)

  // The cursor of the newest retained event of one grant.
  function LatestCursor(events: seq<Event>, id: string): (r: Option<nat>)
  {
    if events == [] then None
    else if events[|events| - 1].grantId == id then Some(events[|events| - 1].sequence)
    else LatestCursor(events[..|events| - 1], id)
  }

  ghost predicate Enabled(world: World, move: Move) {
    match move
    case Write(entry) => !world.signalDue && Legal(world.data, entry, world.now)
    case Signal => world.signalDue
    case Learn(w) => !world.signalDue && w < |world.waiters| && world.waiters[w].phase == Starting
    case Look(w, entry) =>
      && !world.signalDue && w < |world.waiters| && world.waiters[w].phase == Checking
      && entry.call == Read && Legal(world.data, entry, world.now)
    case Capture(w) => w < |world.waiters| && world.waiters[w].phase == Capturing
    case ReadLog(w) => !world.signalDue && w < |world.waiters| && world.waiters[w].phase.Reading?
    case Wake(w) =>
      w < |world.waiters| && world.waiters[w].phase.Blocked? && world.waiters[w].phase.channel < world.generation
    case Alarm(w) => w < |world.waiters| && world.waiters[w].phase.Blocked?
  }

  function Written(world: World, entry: Entry, settings: Settings): World
    requires ValidSettings(settings) && Allowed(entry.call)
  {
    var after := Step(world.data, entry, settings);
    world.(data := after, now := entry.times.fourth, signalDue := after.nextEvent != world.data.nextEvent)
  }

  function Learned(waiter: Waiter, data: Data): Waiter {
    var latest := LatestCursor(data.events, waiter.id);
    if latest.None? && GrantIndex(data.grants, waiter.id).None? then waiter.(phase := Stopped)
    else waiter.(cursor := latest, phase := Checking)
  }

  function Looked(waiter: Waiter, after: Data): Waiter {
    var index := GrantIndex(after.grants, waiter.id);
    if index.None? then waiter.(phase := Stopped)
    else if after.grants[index.value].status == Pending then waiter.(phase := Capturing, seen := after.nextEvent)
    else waiter.(phase := Finished)
  }

  function ReadBy(waiter: Waiter, data: Data): Waiter
    requires waiter.phase.Reading?
  {
    match ReadAfter(data.events, waiter.cursor, 1)
    case None => waiter.(phase := Starting)
    case Some(page) =>
      if page.events == [] then waiter.(phase := Blocked(waiter.phase.channel))
      else if page.events[0].grantId == waiter.id && page.events[0].status != Pending then waiter.(phase := Finished)
      else waiter.(cursor := page.next, phase := Checking)
  }

  ghost function Next(world: World, move: Move, settings: Settings): World
    requires ValidSettings(settings) && Enabled(world, move)
  {
    match move
    case Write(entry) => Written(world, entry, settings)
    case Signal => world.(signalDue := false, generation := world.generation + 1)
    case Learn(w) => world.(waiters := world.waiters[w := Learned(world.waiters[w], world.data)])
    case Look(w, entry) =>
      // A failed save is an error for the waiter; it has seen nothing.
      var seen := Performed(world.data, Read, entry.times, settings);
      var waiter := world.waiters[w];
      Written(world, entry, settings).(waiters := world.waiters[w :=
      if !entry.stored && seen != world.data then waiter.(phase := Stopped) else Looked(waiter, seen)])
    case Capture(w) => world.(waiters := world.waiters[w := world.waiters[w].(phase := Reading(world.generation))])
    case ReadLog(w) => world.(waiters := world.waiters[w := ReadBy(world.waiters[w], world.data)])
    case Wake(w) => world.(waiters := world.waiters[w := world.waiters[w].(phase := Capturing)])
    case Alarm(w) => world.(waiters := world.waiters[w := world.waiters[w].(phase := Capturing)])
  }

  ghost predicate LegalMoves(world: World, moves: seq<Move>, settings: Settings)
    requires ValidSettings(settings)
    decreases |moves|
  {
    moves == [] || (Enabled(world, moves[0]) && LegalMoves(Next(world, moves[0], settings), moves[1..], settings))
  }

  ghost function AfterMoves(world: World, moves: seq<Move>, settings: Settings): World
    requires ValidSettings(settings) && LegalMoves(world, moves, settings)
    decreases |moves|
  {
    if moves == [] then world else AfterMoves(Next(world, moves[0], settings), moves[1..], settings)
  }

  // --- The invariant.

  predicate IsPending(data: Data, id: string) {
    var index := GrantIndex(data.grants, id);
    index.Some? && data.grants[index.value].status == Pending
  }

  // The number of the first event past a cursor.
  function NextAfter(cursor: Option<nat>): nat { if cursor.Some? then cursor.value + 1 else 1 }

  predicate Watching(phase: Phase) { phase.Capturing? || phase.Reading? || phase.Blocked? }

  predicate WaiterKept(waiter: Waiter, data: Data, signalDue: bool, generation: nat) {
    && NextAfter(waiter.cursor) <= data.nextEvent
    && (Watching(waiter.phase) ==>
          && NextAfter(waiter.cursor) <= waiter.seen <= data.nextEvent
          && (waiter.seen == data.nextEvent ==> IsPending(data, waiter.id)))
    && (waiter.phase.Reading? ==> waiter.phase.channel <= generation)
    && (waiter.phase.Blocked? ==>
          && waiter.phase.channel <= generation
          && (waiter.phase.channel == generation && !signalDue ==> NextAfter(waiter.cursor) == data.nextEvent))
  }

  ghost predicate WorldKept(world: World) {
    && AtRest(world.data, world.now)
    && forall w :: 0 <= w < |world.waiters| ==>
                     WaiterKept(world.waiters[w], world.data, world.signalDue, world.generation)
  }

  // --- What stays pending when nothing is recorded.

  lemma QuietGrantStaysPending(before: Grant, after: Grant, usesBefore: seq<Use>, usesAfter: seq<Use>)
    requires GrantKept(before, usesBefore) && GrantKept(after, usesAfter)
    requires Kinds(Some(before), after) == [] && before.status == Pending
    ensures after.status == Pending
  {
    hide Formed, Counted, Narrowed;
  }

  // Reconciling a change that leaves no event leaves every pending grant pending.
  lemma QuietChangeKeepsPending(data: Data, earlier: Time, changed: Data, now: Time, next: nat, id: string)
    requires Coherent(data, earlier) && Coherent(changed, now)
    requires Evolves(data.grants, changed.grants)
    requires NewEvents(changed.grants, Snapshots(data.grants), next) == []
    requires IsPending(data, id)
    ensures IsPending(changed, id)
    ensures IsPending(changed.(grants := ReviseAll(changed.grants, Snapshots(data.grants))), id)
  {
    hide GrantKept, UsesKept, Kinds, NewEvents, Snapshots;
    IndexEvolves(data.grants, changed.grants, id);
    var i := GrantIndex(data.grants, id).value;
    SnapshotOf(data.grants, id);
    NoEventsNoKinds(changed.grants, Snapshots(data.grants), next, i);
    QuietGrantStaysPending(data.grants[i], changed.grants[i], data.uses, changed.uses);
    RevisedIsPending(changed, Snapshots(data.grants), id);
  }

  lemma RevisedIsPending(data: Data, before: map<string, Grant>, id: string)
    requires IsPending(data, id)
    ensures IsPending(data.(grants := ReviseAll(data.grants, before)), id)
  {
    hide Kinds;
    ReviseKeepsIdentity(data.grants, before);
    IndexOfIdentity(data.grants, ReviseAll(data.grants, before), id);
  }

  lemma ReconcileCounts(data: Data, before: map<string, Grant>, limit: nat)
    ensures Reconcile(data, before, limit).nextEvent == data.nextEvent + |NewEvents(data.grants, before, data.nextEvent)|
    ensures Reconcile(data, before, limit).grants == ReviseAll(data.grants, before)
  {
  }

  lemma PendingDependsOnGrants(a: Data, b: Data, id: string)
    requires a.grants == b.grants
    ensures IsPending(a, id) == IsPending(b, id)
  {
  }

  // A later state that has recorded nothing since has every pending grant still pending.
  predicate Hears(data: Data, after: Data, id: string) {
    && data.nextEvent <= after.nextEvent
    && (data.nextEvent == after.nextEvent && IsPending(data, id) ==> IsPending(after, id))
  }

  lemma ReconciledHears(data: Data, earlier: Time, changed: Data, now: Time, id: string, limit: nat)
    requires Coherent(data, earlier) && Coherent(changed, now) && Evolves(data.grants, changed.grants)
    requires data.nextEvent <= changed.nextEvent
    ensures Hears(data, Reconcile(changed, Snapshots(data.grants), limit), id)
  {
    hide Coherent, Evolves, IsPending, NewEvents, Reconcile, ReviseAll, Snapshots;
    var before := Snapshots(data.grants);
    ReconcileCounts(changed, before, limit);
    if NewEvents(changed.grants, before, changed.nextEvent) == [] && IsPending(data, id) {
      QuietChangeKeepsPending(data, earlier, changed, now, changed.nextEvent, id);
      PendingDependsOnGrants(changed.(grants := ReviseAll(changed.grants, before)), Reconcile(changed, before, limit), id);
    }
  }

  lemma MutateCounts(data: Data, command: Command, settings: Settings, times: Times)
    requires ValidSettings(settings) && Admissible(command)
    ensures data.nextEvent <= Mutate(data, command, settings, times).data.nextEvent
  {
    hide Normal, ValidUseIdentity, FindIdempotent, HasCapacity, SameRequest, CanUse, Tally, GrantIndex, UseIndex, Newest;
  }

  lemma UpdateHears(data: Data, earlier: Time, command: Command, settings: Settings, times: Times, id: string)
    requires ValidSettings(settings) && Admissible(command) && Ordered(times) && Fresh(data, command)
    requires Kept(data, earlier) && earlier <= times.first
    ensures Hears(data, Update(data, command, settings, times).data, id)
  {
    hide Coherent, Evolves, Prepare, Mutate, Reconcile, Snapshots, Hears, EventsKept, Numbered, Admissible, Fresh;
    var prepared := Prepare(data, times.first, times.second, settings.reservationTimeout);
    PrepareKeeps(data, earlier, times.first, times.second, settings.reservationTimeout);
    PrepareKeepsEvents(data, times.first, times.second, settings.reservationTimeout);
    PrepareEvolves(data, earlier, times.first, times.second, settings.reservationTimeout);
    FreshAfter(data, prepared, command);
    CoherentLater(prepared, times.second, times.third);
    MutateKeeps(prepared, command, settings, times);
    MutateEvolves(prepared, command, settings, times);
    MutateCounts(prepared, command, settings, times);
    var changed := Mutate(prepared, command, settings, times).data;
    EvolvesTrans(data.grants, prepared.grants, changed.grants);
    ReconciledHears(data, earlier, changed, times.fourth, id, settings.maxEvents);
  }

  lemma HearsSelf(data: Data, id: string)
    ensures Hears(data, data, id)
  {
  }

  lemma HearsTrans(a: Data, b: Data, c: Data, id: string)
    requires Hears(a, b, id) && Hears(b, c, id)
    ensures Hears(a, c, id)
  {
  }

  lemma PreparedHears(data: Data, earlier: Time, settings: Settings, times: Times, id: string)
    requires ValidSettings(settings) && Ordered(times) && Kept(data, earlier) && earlier <= times.first
    ensures Hears(data, Prepared(data, settings, times), id)
    ensures Hears(data, Performed(data, Inspect, times, settings), id)
    ensures Hears(data, Performed(data, MeetDeadline, times, settings), id)
  {
    hide Coherent, Evolves, Prepare, Reconcile, Snapshots, NewEvents, Hears, EventsKept, Numbered;
    var prepared := Prepare(data, times.first, times.second, settings.reservationTimeout);
    PrepareKeeps(data, earlier, times.first, times.second, settings.reservationTimeout);
    PrepareKeepsEvents(data, times.first, times.second, settings.reservationTimeout);
    PrepareEvolves(data, earlier, times.first, times.second, settings.reservationTimeout);
    HearsSelf(data, id);
    ReconciledHears(data, earlier, prepared, times.second, id, settings.maxEvents);
  }

  lemma ReadHears(data: Data, earlier: Time, settings: Settings, times: Times, id: string)
    requires ValidSettings(settings) && Ordered(times) && Kept(data, earlier) && earlier <= times.first
    ensures Hears(data, Performed(data, Read, times, settings), id)
  {
    hide Coherent, Evolves, ExpireGrants, Reconcile, Snapshots, Hears, EventsKept, Numbered;
    ExpireDueKeeps(data, earlier, times.first);
    ExpireEvolves(data.grants, times.first);
    ReconciledHears(data, earlier, ExpireDue(data, times.first), times.first, id, settings.maxEvents);
  }

  // A decision that leaves no event leaves the decided grant pending too.
  lemma CommitHears(data: Data, earlier: Time, index: nat, updated: Grant, settings: Settings, times: Times, id: string)
    requires ValidSettings(settings) && Ordered(times) && Kept(data, earlier) && earlier <= times.first
    requires index < |Prepared(data, settings, times).grants|
    requires var prepared := Prepared(data, settings, times);
             && updated.id == prepared.grants[index].id && updated.subject == prepared.grants[index].subject
             && GrantKept(updated, prepared.uses)
    ensures Hears(Prepared(data, settings, times),
                  Commit(data, Prepared(data, settings, times), index, updated, settings, times), id)
  {
    hide Coherent, GrantKept, Prepared, Prepare, Baseline, Reconcile, ReviseAll, NewEvents, EventsKept, Numbered, Kinds, Snapshots;
    var prepared := Prepared(data, settings, times);
    PreparedKeeps(data, earlier, settings, times);
    var current := prepared.grants[index];
    var before := Baseline(data, current, settings, times);
    var replaced := prepared.(grants := prepared.grants[index := updated]);
    ReconcileCounts(replaced, before, settings.maxEvents);
    if NewEvents(replaced.grants, before, replaced.nextEvent) == [] && IsPending(prepared, id) {
      BaselineOfCurrent(data, earlier, index, settings, times);
      NoEventsNoKinds(replaced.grants, before, replaced.nextEvent, index);
      CurrentIsKept(prepared, times.second, index);
      if current.status == Pending {
        QuietGrantStaysPending(current, updated, prepared.uses, prepared.uses);
      }
      IndexOfIdentity(prepared.grants, replaced.grants, id);
      assert IsPending(replaced, id);
      RevisedIsPending(replaced, before, id);
    }
  }

  lemma DecideHears(data: Data, earlier: Time, command: Decision, correlation: string, check: Check,
                    settings: Settings, times: Times, id: string)
    requires ValidSettings(settings) && Ordered(times) && ValidCommand(command, correlation)
    requires Kept(data, earlier) && earlier <= times.first
    ensures Hears(data, Decide(data, command, correlation, check, settings, times).data, id)
  {
    hide Kept, GrantKept, Hears, Prepared, Commit, ApplyDecision, Scope, FindRecord, Replay, ValidCommand, CurrentCursor;
    PreparedHears(data, earlier, settings, times, id);
    PreparedKeeps(data, earlier, settings, times);
    var prepared := Prepared(data, settings, times);
    var index := GrantIndex(prepared.grants, command.id);
    if && FindRecord(prepared.records, Scope(command)).None? && index.Some?
       && command.expectedRevision == prepared.grants[index.value].revision {
      var current := prepared.grants[index.value];
      var (updated, error) := ApplyDecision(current, command, correlation, check, times.third);
      if error.None? || updated.status == Failed {
        CurrentIsKept(prepared, times.second, index.value);
        ApplyDecisionKeeps(current, prepared.uses, command, correlation, check, times.third);
        ApplyDecisionIdentity(current, command, correlation, check, times.third);
        CommitHears(data, earlier, index.value, updated, settings, times, id);
        var after := Commit(data, prepared, index.value, updated, settings, times);
        HearsTrans(data, prepared, after, id);
        var logged := Decide(data, command, correlation, check, settings, times).data;
        HearsSameLog(data, after, logged, id);
      }
    }
  }

  lemma HearsSameLog(data: Data, after: Data, logged: Data, id: string)
    requires Hears(data, after, id) && logged.grants == after.grants && logged.nextEvent == after.nextEvent
    ensures Hears(data, logged, id)
  {
  }

  lemma PerformedHears(data: Data, earlier: Time, call: Call, times: Times, settings: Settings, id: string)
    requires ValidSettings(settings) && Kept(data, earlier) && Legal(data, Entry(call, times, true), earlier)
    ensures Hears(data, Performed(data, call, times, settings), id)
  {
    hide Kept, Hears, Admissible, Fresh, ValidCommand, Update, Decide, DeadlineMet, Prepare, Reconcile, ExpireDue;
    match call {
      case Change(command) => UpdateHears(data, earlier, command, settings, times, id);
      case DecideBy(decision, correlation, check) =>
        DecideHears(data, earlier, decision, correlation, check, settings, times, id);
      case Read => ReadHears(data, earlier, settings, times, id);
      case Inspect => PreparedHears(data, earlier, settings, times, id);
      case MeetDeadline => PreparedHears(data, earlier, settings, times, id);
    }
  }

  // --- The invariant is kept by every move.

  lemma WaiterStays(waiter: Waiter, world: World, after: Data)
    requires WaiterKept(waiter, world.data, world.signalDue, world.generation) && !world.signalDue
    requires Hears(world.data, after, waiter.id)
    ensures WaiterKept(waiter, after, after.nextEvent != world.data.nextEvent, world.generation)
  {
    hide IsPending;
  }

  lemma {:induction false} LatestIsPast(events: seq<Event>, nextEvent: nat, id: string)
    requires forall i :: 0 <= i < |events| ==> events[i].sequence < nextEvent
    ensures LatestCursor(events, id).Some? ==> LatestCursor(events, id).value < nextEvent
  {
    if events != [] {
      LatestIsPast(events[..|events| - 1], nextEvent, id);
    }
  }

  // An empty page means that the cursor is at the end; a page ends before the next event.
  lemma PageIsPast(events: seq<Event>, nextEvent: nat, cursor: Option<nat>)
    requires EventsKept(events, nextEvent) && NextAfter(cursor) <= nextEvent
    ensures var page := ReadAfter(events, cursor, 1);
            page.Some? ==> if page.value.events == [] then NextAfter(cursor) == nextEvent
                           else page.value.next.Some? && page.value.next.value < nextEvent
  {
    if events != [] {
      var start := StartingSequence(events, cursor);
      if start.Some? {
        LaterIsSuffix(events, nextEvent - |events|, start.value);
      }
    }
    hide Later;
  }

  lemma ReadKeepsWaiter(waiter: Waiter, data: Data, generation: nat)
    requires WaiterKept(waiter, data, false, generation) && waiter.phase.Reading?
    requires EventsKept(data.events, data.nextEvent)
    ensures WaiterKept(ReadBy(waiter, data), data, false, generation)
  {
    hide EventsKept, IsPending, ReadAfter;
    PageIsPast(data.events, data.nextEvent, waiter.cursor);
  }

  lemma LearnKeepsWaiter(waiter: Waiter, data: Data, signalDue: bool, generation: nat)
    requires WaiterKept(waiter, data, signalDue, generation) && EventsKept(data.events, data.nextEvent)
    ensures WaiterKept(Learned(waiter, data), data, signalDue, generation)
  {
    LatestIsPast(data.events, data.nextEvent, waiter.id);
    hide LatestCursor, IsPending;
  }

  lemma LookKeepsWaiter(waiter: Waiter, before: Data, seen: Data, generation: nat, signalDue: bool)
    requires WaiterKept(waiter, before, false, generation) && before.nextEvent <= seen.nextEvent
    ensures WaiterKept(Looked(waiter, seen), seen, signalDue, generation)
  {
  }

  lemma WriteKeeps(world: World, entry: Entry, settings: Settings)
    requires ValidSettings(settings) && WorldKept(world) && !world.signalDue && Legal(world.data, entry, world.now)
    ensures WorldKept(Written(world, entry, settings))
  {
    hide AtRest, WaiterKept, Performed, Hears, Evolves, Admissible, Fresh, ValidCommand;
    StepKeeps(world.data, world.now, entry, settings);
    AtRestIsKept(world.data, world.now);
    var after := Step(world.data, entry, settings);
    forall w | 0 <= w < |world.waiters|
      ensures WaiterKept(world.waiters[w], after, after.nextEvent != world.data.nextEvent, world.generation)
    {
      HearsSelf(world.data, world.waiters[w].id);
      PerformedHears(world.data, world.now, entry.call, entry.times, settings, world.waiters[w].id);
      WaiterStays(world.waiters[w], world, after);
    }
  }

  lemma AtRestIsKept(data: Data, now: Time)
    requires AtRest(data, now)
    ensures Kept(data, now) && EventsKept(data.events, data.nextEvent)
  {
    hide Coherent, EventsKept;
  }

  lemma LookKeeps(world: World, w: nat, entry: Entry, settings: Settings)
    requires ValidSettings(settings) && WorldKept(world) && Enabled(world, Look(w, entry))
    ensures WorldKept(Next(world, Look(w, entry), settings))
  {
    hide AtRest, WaiterKept, Performed, Hears, Admissible, Fresh, ValidCommand, Looked;
    WriteKeeps(world, entry, settings);
    AtRestIsKept(world.data, world.now);
    var seen := Performed(world.data, Read, entry.times, settings);
    var written := Written(world, entry, settings);
    PerformedHears(world.data, world.now, Read, entry.times, settings, world.waiters[w].id);
    HearsMore(world.data, seen, world.waiters[w].id);
    LookKeepsWaiter(world.waiters[w], world.data, seen, world.generation, written.signalDue);
    FinishedIsKept(written.waiters[w], written);
  }

  lemma HearsMore(data: Data, after: Data, id: string)
    requires Hears(data, after, id)
    ensures data.nextEvent <= after.nextEvent
  {
  }

  lemma FinishedIsKept(waiter: Waiter, world: World)
    requires WaiterKept(waiter, world.data, world.signalDue, world.generation)
    ensures WaiterKept(waiter.(phase := Stopped), world.data, world.signalDue, world.generation)
  {
  }

  lemma OwnMoveKeeps(world: World, w: nat, waiter: Waiter)
    requires WorldKept(world) && w < |world.waiters|
    requires WaiterKept(waiter, world.data, world.signalDue, world.generation)
    ensures WorldKept(world.(waiters := world.waiters[w := waiter]))
  {
    hide AtRest, WaiterKept;
  }

  lemma SignalKeeps(world: World)
    requires WorldKept(world)
    ensures WorldKept(world.(signalDue := false, generation := world.generation + 1))
  {
    hide AtRest, IsPending;
  }

  lemma MoveKeeps(world: World, move: Move, settings: Settings)
    requires ValidSettings(settings) && WorldKept(world) && Enabled(world, move)
    ensures WorldKept(Next(world, move, settings))
  {
    hide AtRest, Written, IsPending, ReadBy, Learned, Looked, Legal, WaiterKept;
    match move {
      case Write(entry) => WriteKeeps(world, entry, settings);
      case Look(w, entry) => LookKeeps(world, w, entry, settings);
      case Signal => SignalKeeps(world);
      case Learn(w) =>
        AtRestIsKept(world.data, world.now);
        LearnKeepsWaiter(world.waiters[w], world.data, world.signalDue, world.generation);
        OwnMoveKeeps(world, w, Learned(world.waiters[w], world.data));
      case ReadLog(w) =>
        AtRestIsKept(world.data, world.now);
        ReadKeepsWaiter(world.waiters[w], world.data, world.generation);
        OwnMoveKeeps(world, w, ReadBy(world.waiters[w], world.data));
      case Capture(w) =>
        CaptureKeepsWaiter(world.waiters[w], world);
        OwnMoveKeeps(world, w, world.waiters[w].(phase := Reading(world.generation)));
      case _ =>
        WakeKeepsWaiter(world.waiters[move.w], world);
        OwnMoveKeeps(world, move.w, world.waiters[move.w].(phase := Capturing));
    }
  }

  lemma CaptureKeepsWaiter(waiter: Waiter, world: World)
    requires WaiterKept(waiter, world.data, world.signalDue, world.generation) && waiter.phase == Capturing
    ensures WaiterKept(waiter.(phase := Reading(world.generation)), world.data, world.signalDue, world.generation)
  {
    hide IsPending;
  }

  lemma WakeKeepsWaiter(waiter: Waiter, world: World)
    requires WaiterKept(waiter, world.data, world.signalDue, world.generation) && waiter.phase.Blocked?
    ensures WaiterKept(waiter.(phase := Capturing), world.data, world.signalDue, world.generation)
  {
    hide IsPending;
  }

  lemma {:induction false} MovesKeep(world: World, moves: seq<Move>, settings: Settings)
    requires ValidSettings(settings) && WorldKept(world) && LegalMoves(world, moves, settings)
    ensures WorldKept(AfterMoves(world, moves, settings))
    decreases |moves|
  {
    hide WorldKept, Enabled, Next;
    if moves != [] {
      MoveKeeps(world, moves[0], settings);
      MovesKeep(Next(world, moves[0], settings), moves[1..], settings);
    }
  }

  // --- No wake-up is missed.

  function Opening(ids: seq<string>): World {
    World(EMPTY, 0, false, 0, seq(|ids|, i requires 0 <= i < |ids| => Waiter(ids[i], None, Starting, 1)))
  }

  // In every reachable state, a blocked waiter whose channel is open, with no signal on its way, has
  // no event past its cursor, and the grant it waits for is still pending.
  lemma NoMissedDecision(ids: seq<string>, moves: seq<Move>, settings: Settings, w: nat)
    requires ValidSettings(settings) && LegalMoves(Opening(ids), moves, settings)
    requires w < |AfterMoves(Opening(ids), moves, settings).waiters|
    ensures var world := AfterMoves(Opening(ids), moves, settings);
            var waiter := world.waiters[w];
            waiter.phase == Blocked(world.generation) && !world.signalDue ==>
              && (forall i :: 0 <= i < |world.data.events| ==> world.data.events[i].sequence < NextAfter(waiter.cursor))
              && IsPending(world.data, waiter.id)
  {
    hide LegalMoves, AfterMoves, IsPending, RecordsKept, Coherent;
    OpeningIsKept(ids);
    MovesKeep(Opening(ids), moves, settings);
    var world := AfterMoves(Opening(ids), moves, settings);
    assert WaiterKept(world.waiters[w], world.data, world.signalDue, world.generation);
    AtRestIsKept(world.data, world.now);
  }

  lemma OpeningIsKept(ids: seq<string>)
    ensures WorldKept(Opening(ids))
  {
    hide AtRest;
    EmptyIsAtRest();
  }

  // --- No waiter returns early.

  predicate IsDecided(data: Data, id: string) {
    var index := GrantIndex(data.grants, id);
    index.Some? && data.grants[index.value].status != Pending
  }

  ghost predicate Ended(world: World) {
    && EventsHold(world.data.events, world.data.grants)
    && forall w :: 0 <= w < |world.waiters| ==>
                     (world.waiters[w].phase == Finished ==> IsDecided(world.data, world.waiters[w].id))
  }

  lemma DecidedLater(a: Data, b: Data, id: string)
    requires IsDecided(a, id) && Evolves(a.grants, b.grants)
    ensures IsDecided(b, id)
  {
    IndexEvolves(a.grants, b.grants, id);
    var i := GrantIndex(a.grants, id).value;
    assert GrantEvolves(a.grants[i], b.grants[i]);
  }

  lemma WriteEnds(world: World, entry: Entry, settings: Settings)
    requires ValidSettings(settings) && WorldKept(world) && Ended(world) && !world.signalDue && Legal(world.data, entry, world.now)
    ensures Ended(Written(world, entry, settings))
  {
    hide AtRest, WaiterKept, Performed, Evolves, Admissible, Fresh, ValidCommand, IsDecided, EventsHold;
    StepKeeps(world.data, world.now, entry, settings);
    PerformedHolds(world.data, world.now, entry.call, settings, entry.times);
    var after := Step(world.data, entry, settings);
    forall w | 0 <= w < |world.waiters| && world.waiters[w].phase == Finished ensures IsDecided(after, world.waiters[w].id) {
      DecidedLater(world.data, after, world.waiters[w].id);
    }
  }

  // A read event about the waiter's own grant that shows a decision is followed by the grant itself.
  lemma ReadEnds(waiter: Waiter, data: Data)
    requires waiter.phase.Reading? && EventsHold(data.events, data.grants)
    ensures ReadBy(waiter, data).phase == Finished ==> IsDecided(data, waiter.id)
  {
    var page := ReadAfter(data.events, waiter.cursor, 1);
    if page.Some? && page.value.events != [] {
      PageIsOfLog(data.events, waiter.cursor);
      var k :| 0 <= k < |data.events| && data.events[k] == page.value.events[0];
      assert EventHolds(data.events[k], data.grants);
    }
  }

  lemma PageIsOfLog(events: seq<Event>, cursor: Option<nat>)
    ensures var page := ReadAfter(events, cursor, 1);
            page.Some? ==> forall i :: 0 <= i < |page.value.events| ==> page.value.events[i] in events
  {
    var start := StartingSequence(events, cursor);
    if start.Some? {
      LaterIsPart(events, start.value);
    }
  }

  lemma {:induction false} LaterIsPart(events: seq<Event>, sequence: int)
    ensures forall i :: 0 <= i < |Later(events, sequence)| ==> Later(events, sequence)[i] in events
  {
    if events != [] {
      LaterIsPart(events[1..], sequence);
    }
  }

  lemma OwnMoveEnds(world: World, w: nat, waiter: Waiter)
    requires Ended(world) && w < |world.waiters| && waiter.id == world.waiters[w].id
    requires waiter.phase == Finished ==> IsDecided(world.data, waiter.id)
    ensures Ended(world.(waiters := world.waiters[w := waiter]))
  {
    hide IsDecided, EventsHold;
  }

  lemma LookEnds(world: World, w: nat, entry: Entry, settings: Settings)
    requires ValidSettings(settings) && WorldKept(world) && Ended(world) && Enabled(world, Look(w, entry))
    ensures Ended(Next(world, Look(w, entry), settings))
  {
    hide AtRest, WaiterKept, Performed, Admissible, Fresh, ValidCommand, EventsHold, WorldKept, IsDecided, IsPending, Legal;
    var written := Written(world, entry, settings);
    var seen := Performed(world.data, Read, entry.times, settings);
    WriteEnds(world, entry, settings);
    LookedExactly(world.waiters[w], seen);
    var waiter := if !entry.stored && seen != world.data then world.waiters[w].(phase := Stopped) else Looked(world.waiters[w], seen);
    OwnMoveEnds(written, w, waiter);
  }

  // A look at the grant ends the wait exactly if the grant has been decided.
  lemma LookedExactly(waiter: Waiter, after: Data)
    ensures Looked(waiter, after).id == waiter.id
    ensures Looked(waiter, after).phase == Finished <==> IsDecided(after, waiter.id)
    ensures Looked(waiter, after).phase == Capturing <==> IsPending(after, waiter.id)
  {
  }

  lemma MoveEnds(world: World, move: Move, settings: Settings)
    requires ValidSettings(settings) && WorldKept(world) && Ended(world) && Enabled(world, move)
    ensures Ended(Next(world, move, settings))
  {
    hide AtRest, Written, IsPending, IsDecided, ReadBy, Looked, Legal, WaiterKept, EventsHold, WorldKept;
    match move {
      case Write(entry) => WriteEnds(world, entry, settings);
      case Look(w, entry) => LookEnds(world, w, entry, settings);
      case Signal =>
      case ReadLog(w) =>
        ReadEnds(world.waiters[w], world.data);
        SameWaiter(world.waiters[w], world.data);
        OwnMoveEnds(world, w, ReadBy(world.waiters[w], world.data));
      case Learn(w) => OwnMoveEnds(world, w, Learned(world.waiters[w], world.data));
      case Capture(w) => OwnMoveEnds(world, w, world.waiters[w].(phase := Reading(world.generation)));
      case _ => OwnMoveEnds(world, move.w, world.waiters[move.w].(phase := Capturing));
    }
  }

  // A reading waiter blocks exactly if nothing has happened past its cursor, starts again exactly if its
  // cursor has expired, and otherwise is done or looks at the grant again.
  lemma ReadExactly(waiter: Waiter, data: Data)
    requires waiter.phase.Reading? && EventsKept(data.events, data.nextEvent) && NextAfter(waiter.cursor) <= data.nextEvent
    ensures var after, expired := ReadBy(waiter, data), ReadAfter(data.events, waiter.cursor, 1).None?;
            && (after.phase == Starting <==> expired)
            && (after.phase.Blocked? <==> NextAfter(waiter.cursor) == data.nextEvent)
            && (after.phase.Blocked? ==> after.phase.channel == waiter.phase.channel)
            && (!expired && NextAfter(waiter.cursor) < data.nextEvent ==> after.phase == Finished || after.phase == Checking)
            && (after.phase == Checking ==> NextAfter(waiter.cursor) < NextAfter(after.cursor) <= data.nextEvent)
  {
    hide Later;
    PageIsPast(data.events, data.nextEvent, waiter.cursor);
    SomethingPast(data.events, data.nextEvent, waiter.cursor);
  }

  lemma SomethingPast(events: seq<Event>, nextEvent: nat, cursor: Option<nat>)
    requires EventsKept(events, nextEvent) && NextAfter(cursor) <= nextEvent
    ensures var page := ReadAfter(events, cursor, 1);
            && (NextAfter(cursor) == nextEvent ==> page.Some? && page.value.events == [])
            && (page.Some? && page.value.events != [] ==> page.value.next.Some? && NextAfter(cursor) <= page.value.next.value < nextEvent)
            && (page.Some? && page.value.events == [] ==> NextAfter(cursor) == nextEvent)
  {
    PageIsPast(events, nextEvent, cursor);
    if events != [] {
      var start := StartingSequence(events, cursor);
      if start.Some? {
        LaterIsSuffix(events, nextEvent - |events|, start.value);
      }
    }
    hide Later;
  }

  // A waiter starts from the newest event of its own grant, if there is one.
  lemma {:induction false} LatestMeans(events: seq<Event>, id: string)
    ensures var latest := LatestCursor(events, id);
            && (latest.None? <==> forall k :: 0 <= k < |events| ==> events[k].grantId != id)
            && (latest.Some? ==>
                  exists k :: 0 <= k < |events| && events[k].grantId == id && events[k].sequence == latest.value
                              && forall l :: k < l < |events| ==> events[l].grantId != id)
  {
    if events != [] {
      var last := |events| - 1;
      if events[last].grantId != id {
        LatestMeans(events[..last], id);
        assert forall k :: 0 <= k < last ==> events[..last][k] == events[k];
      }
    }
  }

  lemma SameWaiter(waiter: Waiter, data: Data)
    requires waiter.phase.Reading?
    ensures ReadBy(waiter, data).id == waiter.id
  {
  }

  lemma {:induction false} MovesEnd(world: World, moves: seq<Move>, settings: Settings)
    requires ValidSettings(settings) && WorldKept(world) && Ended(world) && LegalMoves(world, moves, settings)
    ensures Ended(AfterMoves(world, moves, settings))
    decreases |moves|
  {
    hide WorldKept, Enabled, Next, Ended;
    if moves != [] {
      MoveKeeps(world, moves[0], settings);
      MoveEnds(world, moves[0], settings);
      MovesEnd(Next(world, moves[0], settings), moves[1..], settings);
    }
  }

  // In every reachable state a waiter that is done has waited for a grant that is no longer pending.
  lemma FinishedIsDecided(ids: seq<string>, moves: seq<Move>, settings: Settings, w: nat)
    requires ValidSettings(settings) && LegalMoves(Opening(ids), moves, settings)
    requires w < |AfterMoves(Opening(ids), moves, settings).waiters|
    ensures var world := AfterMoves(Opening(ids), moves, settings);
            world.waiters[w].phase == Finished ==> IsDecided(world.data, world.waiters[w].id)
  {
    hide LegalMoves, AfterMoves, IsDecided, WorldKept;
    OpeningIsKept(ids);
    MovesEnd(Opening(ids), moves, settings);
  }
}
