// Every interleaving of admissions, durable insertions and completions. The controller's lock covers
// charging, reading the durable usage and reserving, but the durable records change without it, and
// some are written by calls that hold no permit.
module AdmissionRuns {
  import opened Options
  import opened Admission

  // A permit, and which durable records the submission that holds it has written.
  datatype Holder = Holder(client: string, released: bool, entered: bool, asked: bool)

  datatype Stage = Waiting | Executing | Ended

  datatype Operation = Operation(client: string, stage: Stage, permitted: bool)

  datatype Approval = Approval(client: string, pending: bool, permitted: bool)

  datatype Lock = Free | Charging(client: string) | Deciding(client: string, usage: Usage)

  datatype World = World(
    ledger: Ledger,
    permits: seq<Holder>,
    operations: seq<Operation>,
    approvals: seq<Approval>,
    lock: Lock
  )

  datatype Move =
    | Begin(client: string, now: Time)
    | ReadUsage
    | FailUsage
    | Decide
    | Insert(p: nat)
    | Ask(p: nat)
    | InsertOutside(client: string)
    | AskOutside(client: string)
    | Release(p: nat)
    | Start(o: nat)
    | Finish(o: nat)
    | Close(a: nat)

  // --- Counting.

  function Count<T>(s: seq<T>, p: T -> bool): nat {
    if s == [] then 0 else Count(s[..|s| - 1], p) + if p(s[|s| - 1]) then 1 else 0
  }

  lemma {:induction false} CountUpdate<T>(s: seq<T>, k: nat, x: T, p: T -> bool)
    requires k < |s|
    ensures Count(s[k := x], p) + (if p(s[k]) then 1 else 0) == Count(s, p) + if p(x) then 1 else 0
  {
    var last := |s| - 1;
    if k == last {
      assert s[k := x][..last] == s[..last];
    } else {
      CountUpdate(s[..last], k, x, p);
      assert s[k := x][..last] == s[..last][k := x];
    }
  }

  lemma CountAppend<T>(s: seq<T>, x: T, p: T -> bool)
    ensures Count(s + [x], p) == Count(s, p) + if p(x) then 1 else 0
  {
    assert (s + [x])[..|s|] == s;
  }

  lemma {:induction false} CountWithin<T(!new)>(s: seq<T>, p: T -> bool, q: T -> bool)
    requires forall x :: p(x) ==> q(x)
    ensures Count(s, p) <= Count(s, q)
  {
    if s != [] {
      CountWithin(s[..|s| - 1], p, q);
    }
  }

  function Held(): Holder -> bool { (h: Holder) => !h.released }
  function HeldBy(c: string): Holder -> bool { (h: Holder) => !h.released && h.client == c }
  function Unopened(): Holder -> bool { (h: Holder) => !h.released && !h.entered }
  function UnopenedBy(c: string): Holder -> bool { (h: Holder) => !h.released && !h.entered && h.client == c }
  function UnaskedBy(c: string): Holder -> bool { (h: Holder) => !h.released && !h.asked && h.client == c }
  function Active(): Operation -> bool { (o: Operation) => o.stage != Ended }
  function ActiveOf(c: string): Operation -> bool { (o: Operation) => o.stage != Ended && o.client == c }
  function Running(): Operation -> bool { (o: Operation) => o.stage == Executing }
  function PendingOf(c: string): Approval -> bool { (a: Approval) => a.pending && a.client == c }

  // The records that were written under a permit, and the others.
  function Permitted(): Operation -> bool { (o: Operation) => o.stage != Ended && o.permitted }
  function PermittedOf(c: string): Operation -> bool { (o: Operation) => o.stage != Ended && o.permitted && o.client == c }
  function AskedOf(c: string): Approval -> bool { (a: Approval) => a.pending && a.permitted && a.client == c }
  function Outside(): Operation -> bool { (o: Operation) => o.stage != Ended && !o.permitted }
  function OutsideOf(c: string): Operation -> bool { (o: Operation) => o.stage != Ended && !o.permitted && o.client == c }
  function AskedOutsideOf(c: string): Approval -> bool { (a: Approval) => a.pending && !a.permitted && a.client == c }

  // The durable usage at one moment.
  function UsageOf(world: World, client: string): Usage {
    Usage(Count(world.operations, ActiveOf(client)), Count(world.approvals, PendingOf(client)),
          Count(world.operations, Active()), Count(world.operations, Running()))
  }

  // --- Moves.

  // A submission writes its operation and its approval while it holds its permit, each at most once,
  // and an operation or approval that has ended never becomes active again.
  predicate Enabled(world: World, move: Move, own: map<string, ClientLimits>) {
    match move
    case Begin(client, now) => world.lock == Free && client in own && client in world.ledger.clients
    case ReadUsage => world.lock.Charging?
    case FailUsage => world.lock.Charging?
    case Decide => world.lock.Deciding? && world.lock.client in own && world.lock.client in world.ledger.clients
    case Insert(p) => p < |world.permits| && !world.permits[p].released && !world.permits[p].entered
    case Ask(p) => p < |world.permits| && !world.permits[p].released && world.permits[p].entered && !world.permits[p].asked
    case InsertOutside(client) => true
    case AskOutside(client) => true
    case Release(p) => p < |world.permits| && world.lock == Free
    case Start(o) => o < |world.operations| && world.operations[o].stage == Waiting
    case Finish(o) => o < |world.operations| && world.operations[o].stage != Ended
    case Close(a) => a < |world.approvals| && world.approvals[a].pending
  }

  function Next(world: World, move: Move, limits: Limits, own: map<string, ClientLimits>): World
    requires Enabled(world, move, own)
  {
    match move
    case Begin(client, now) =>
      var (ledger, charged) := Charged(world.ledger, client, own[client], now);
      world.(ledger := ledger, lock := if charged then Charging(client) else Free)
    case ReadUsage => world.(lock := Deciding(world.lock.client, UsageOf(world, world.lock.client)))
    case FailUsage => world.(lock := Free)
    case Decide =>
      var client := world.lock.client;
      var state := world.ledger.clients[client];
      if CapacityCode(state, world.ledger.globalReserved, own[client], limits, world.lock.usage).Some? then world.(lock := Free)
      else
        world.(ledger := Reserved(world.ledger, client), lock := Free,
               permits := world.permits + [Holder(client, false, false, false)])
    case Insert(p) =>
      world.(permits := world.permits[p := world.permits[p].(entered := true)],
             operations := world.operations + [Operation(world.permits[p].client, Waiting, true)])
    case Ask(p) =>
      world.(permits := world.permits[p := world.permits[p].(asked := true)],
             approvals := world.approvals + [Approval(world.permits[p].client, true, true)])
    case InsertOutside(client) => world.(operations := world.operations + [Operation(client, Waiting, false)])
    case AskOutside(client) => world.(approvals := world.approvals + [Approval(client, true, false)])
    case Release(p) =>
      if world.permits[p].released then world
      else
        world.(ledger := Released(world.ledger, world.permits[p].client),
               permits := world.permits[p := world.permits[p].(released := true)])
    case Start(o) => world.(operations := world.operations[o := world.operations[o].(stage := Executing)])
    case Finish(o) => world.(operations := world.operations[o := world.operations[o].(stage := Ended)])
    case Close(a) => world.(approvals := world.approvals[a := world.approvals[a].(pending := false)])
  }

  // --- The invariant.

  // The durable records written under a permit, and the permits that may still become one.
  function ActiveUse(world: World, c: string): nat {
    Count(world.operations, PermittedOf(c)) + Count(world.permits, UnopenedBy(c))
  }

  function PendingUse(world: World, c: string): nat {
    Count(world.approvals, AskedOf(c)) + Count(world.permits, UnaskedBy(c))
  }

  function GlobalUse(world: World): nat {
    Count(world.operations, Permitted()) + Count(world.permits, Unopened())
  }

  predicate ClientKept(world: World, c: string, own: ClientLimits) {
    && c in world.ledger.clients
    && world.ledger.clients[c].reserved == Count(world.permits, HeldBy(c))
    && ActiveUse(world, c) <= own.active && PendingUse(world, c) <= own.pending
    && (world.lock.Deciding? && world.lock.client == c ==>
          && ActiveUse(world, c) <= world.lock.usage.clientActive + world.ledger.clients[c].reserved
          && PendingUse(world, c) <= world.lock.usage.clientPending + world.ledger.clients[c].reserved)
  }

  predicate GlobalKept(world: World, limits: Limits) {
    && world.ledger.globalReserved == Count(world.permits, Held())
    && GlobalUse(world) <= limits.globalActive
    && (world.lock.Deciding? ==> GlobalUse(world) <= world.lock.usage.globalActive + world.ledger.globalReserved)
  }

  ghost predicate WorldKept(world: World, limits: Limits, own: map<string, ClientLimits>) {
    && GlobalKept(world, limits)
    && (forall c :: c in own ==> ClientKept(world, c, own[c]))
    && (forall p :: 0 <= p < |world.permits| ==> world.permits[p].client in own)
    && (!world.lock.Free? ==> world.lock.client in own)
  }

  // Every permit that may still open an operation is held, and so reserved.
  lemma UnopenedAreHeld(permits: seq<Holder>, c: string)
    ensures Count(permits, UnopenedBy(c)) <= Count(permits, HeldBy(c))
    ensures Count(permits, UnaskedBy(c)) <= Count(permits, HeldBy(c))
    ensures Count(permits, Unopened()) <= Count(permits, Held())
  {
    CountWithin(permits, UnopenedBy(c), HeldBy(c));
    CountWithin(permits, UnaskedBy(c), HeldBy(c));
    CountWithin(permits, Unopened(), Held());
  }

  lemma PermittedAreActive(world: World, c: string)
    ensures Count(world.operations, PermittedOf(c)) <= Count(world.operations, ActiveOf(c))
    ensures Count(world.approvals, AskedOf(c)) <= Count(world.approvals, PendingOf(c))
    ensures Count(world.operations, Permitted()) <= Count(world.operations, Active())
  {
    CountWithin(world.operations, PermittedOf(c), ActiveOf(c));
    CountWithin(world.approvals, AskedOf(c), PendingOf(c));
    CountWithin(world.operations, Permitted(), Active());
  }

  lemma ReadKeeps(world: World, limits: Limits, own: map<string, ClientLimits>)
    requires WorldKept(world, limits, own) && world.lock.Charging?
    ensures WorldKept(Next(world, ReadUsage, limits, own), limits, own)
  {
    hide Count;
    UnopenedAreHeld(world.permits, world.lock.client);
    PermittedAreActive(world, world.lock.client);
  }

  lemma BeginKeeps(world: World, client: string, now: Time, limits: Limits, own: map<string, ClientLimits>)
    requires WorldKept(world, limits, own) && Enabled(world, Begin(client, now), own)
    ensures WorldKept(Next(world, Begin(client, now), limits, own), limits, own)
  {
    hide Count;
    var next := Next(world, Begin(client, now), limits, own);
    forall c | c in own ensures ClientKept(next, c, own[c]) {
      assert ClientKept(world, c, own[c]);
    }
  }

  lemma PermitAdded(permits: seq<Holder>, client: string, c: string)
    ensures var holder := Holder(client, false, false, false);
            var more := if client == c then 1 else 0;
            && Count(permits + [holder], HeldBy(c)) == Count(permits, HeldBy(c)) + more
            && Count(permits + [holder], UnopenedBy(c)) == Count(permits, UnopenedBy(c)) + more
            && Count(permits + [holder], UnaskedBy(c)) == Count(permits, UnaskedBy(c)) + more
            && Count(permits + [holder], Held()) == Count(permits, Held()) + 1
            && Count(permits + [holder], Unopened()) == Count(permits, Unopened()) + 1
  {
    var holder := Holder(client, false, false, false);
    CountAppend(permits, holder, HeldBy(c));
    CountAppend(permits, holder, UnopenedBy(c));
    CountAppend(permits, holder, UnaskedBy(c));
    CountAppend(permits, holder, Held());
    CountAppend(permits, holder, Unopened());
  }

  lemma DecideKeeps(world: World, limits: Limits, own: map<string, ClientLimits>)
    requires WorldKept(world, limits, own) && Enabled(world, Decide, own)
    ensures WorldKept(Next(world, Decide, limits, own), limits, own)
  {
    hide Count;
    var client := world.lock.client;
    var next := Next(world, Decide, limits, own);
    PermitAdded(world.permits, client, client);
    assert ClientKept(world, client, own[client]);
    forall c | c in own ensures ClientKept(next, c, own[c]) {
      assert ClientKept(world, c, own[c]);
      PermitAdded(world.permits, client, c);
    }
  }

  // One permit replaced by another of the same client.
  lemma PermitChanged(permits: seq<Holder>, p: nat, holder: Holder, c: string)
    requires p < |permits| && holder.client == permits[p].client
    ensures var one, other := (b: bool) => if b then 1 else 0, permits[p];
            var changed := permits[p := holder];
            && Count(changed, HeldBy(c)) + one(HeldBy(c)(other)) == Count(permits, HeldBy(c)) + one(HeldBy(c)(holder))
            && Count(changed, UnopenedBy(c)) + one(UnopenedBy(c)(other)) == Count(permits, UnopenedBy(c)) + one(UnopenedBy(c)(holder))
            && Count(changed, UnaskedBy(c)) + one(UnaskedBy(c)(other)) == Count(permits, UnaskedBy(c)) + one(UnaskedBy(c)(holder))
            && Count(changed, Held()) + one(Held()(other)) == Count(permits, Held()) + one(Held()(holder))
            && Count(changed, Unopened()) + one(Unopened()(other)) == Count(permits, Unopened()) + one(Unopened()(holder))
  {
    CountUpdate(permits, p, holder, HeldBy(c));
    CountUpdate(permits, p, holder, UnopenedBy(c));
    CountUpdate(permits, p, holder, UnaskedBy(c));
    CountUpdate(permits, p, holder, Held());
    CountUpdate(permits, p, holder, Unopened());
  }

  lemma InsertKeeps(world: World, p: nat, limits: Limits, own: map<string, ClientLimits>)
    requires WorldKept(world, limits, own) && Enabled(world, Insert(p), own)
    ensures WorldKept(Next(world, Insert(p), limits, own), limits, own)
  {
    hide Count;
    var next := Next(world, Insert(p), limits, own);
    var holder, operation := world.permits[p].(entered := true), Operation(world.permits[p].client, Waiting, true);
    PermitChanged(world.permits, p, holder, "");
    CountAppend(world.operations, operation, Permitted());
    forall c | c in own ensures ClientKept(next, c, own[c]) {
      assert ClientKept(world, c, own[c]);
      PermitChanged(world.permits, p, holder, c);
      CountAppend(world.operations, operation, PermittedOf(c));
    }
  }

  lemma AskKeeps(world: World, p: nat, limits: Limits, own: map<string, ClientLimits>)
    requires WorldKept(world, limits, own) && Enabled(world, Ask(p), own)
    ensures WorldKept(Next(world, Ask(p), limits, own), limits, own)
  {
    hide Count;
    var next := Next(world, Ask(p), limits, own);
    var holder, approval := world.permits[p].(asked := true), Approval(world.permits[p].client, true, true);
    PermitChanged(world.permits, p, holder, "");
    forall c | c in own ensures ClientKept(next, c, own[c]) {
      assert ClientKept(world, c, own[c]);
      PermitChanged(world.permits, p, holder, c);
      CountAppend(world.approvals, approval, AskedOf(c));
    }
  }

  lemma OutsideKeeps(world: World, client: string, limits: Limits, own: map<string, ClientLimits>)
    requires WorldKept(world, limits, own)
    ensures WorldKept(Next(world, InsertOutside(client), limits, own), limits, own)
    ensures WorldKept(Next(world, AskOutside(client), limits, own), limits, own)
  {
    hide Count;
    var operation, approval := Operation(client, Waiting, false), Approval(client, true, false);
    var inserted, asked := Next(world, InsertOutside(client), limits, own), Next(world, AskOutside(client), limits, own);
    CountAppend(world.operations, operation, Permitted());
    forall c | c in own ensures ClientKept(inserted, c, own[c]) && ClientKept(asked, c, own[c]) {
      assert ClientKept(world, c, own[c]);
      CountAppend(world.operations, operation, PermittedOf(c));
      CountAppend(world.approvals, approval, AskedOf(c));
    }
  }

  lemma ReleaseKeeps(world: World, p: nat, limits: Limits, own: map<string, ClientLimits>)
    requires WorldKept(world, limits, own) && Enabled(world, Release(p), own)
    ensures WorldKept(Next(world, Release(p), limits, own), limits, own)
  {
    hide Count;
    var next := Next(world, Release(p), limits, own);
    if !world.permits[p].released {
      var holder := world.permits[p].(released := true);
      PermitChanged(world.permits, p, holder, "");
      forall c | c in own ensures ClientKept(next, c, own[c]) {
        assert ClientKept(world, c, own[c]);
        PermitChanged(world.permits, p, holder, c);
      }
    }
  }

  lemma StageKeeps(world: World, o: nat, stage: Stage, limits: Limits, own: map<string, ClientLimits>)
    requires WorldKept(world, limits, own) && o < |world.operations| && world.operations[o].stage != Ended
    ensures WorldKept(world.(operations := world.operations[o := world.operations[o].(stage := stage)]), limits, own)
  {
    hide Count;
    var operation := world.operations[o].(stage := stage);
    var next := world.(operations := world.operations[o := operation]);
    CountUpdate(world.operations, o, operation, Permitted());
    forall c | c in own ensures ClientKept(next, c, own[c]) {
      assert ClientKept(world, c, own[c]);
      CountUpdate(world.operations, o, operation, PermittedOf(c));
    }
  }

  lemma CloseKeeps(world: World, a: nat, limits: Limits, own: map<string, ClientLimits>)
    requires WorldKept(world, limits, own) && Enabled(world, Close(a), own)
    ensures WorldKept(Next(world, Close(a), limits, own), limits, own)
  {
    hide Count;
    var approval := world.approvals[a].(pending := false);
    var next := Next(world, Close(a), limits, own);
    forall c | c in own ensures ClientKept(next, c, own[c]) {
      assert ClientKept(world, c, own[c]);
      CountUpdate(world.approvals, a, approval, AskedOf(c));
    }
  }

  lemma MoveKeeps(world: World, move: Move, limits: Limits, own: map<string, ClientLimits>)
    requires WorldKept(world, limits, own) && Enabled(world, move, own)
    ensures WorldKept(Next(world, move, limits, own), limits, own)
  {
    match move
    case Begin(client, now) => BeginKeeps(world, client, now, limits, own);
    case ReadUsage => ReadKeeps(world, limits, own);
    case FailUsage => FailKeeps(world, limits, own);
    case Decide => DecideKeeps(world, limits, own);
    case Insert(p) => InsertKeeps(world, p, limits, own);
    case Ask(p) => AskKeeps(world, p, limits, own);
    case InsertOutside(client) => OutsideKeeps(world, client, limits, own);
    case AskOutside(client) => OutsideKeeps(world, client, limits, own);
    case Release(p) => ReleaseKeeps(world, p, limits, own);
    case Start(o) => StageKeeps(world, o, Executing, limits, own);
    case Finish(o) => StageKeeps(world, o, Ended, limits, own);
    case Close(a) => CloseKeeps(world, a, limits, own);
  }

  lemma FailKeeps(world: World, limits: Limits, own: map<string, ClientLimits>)
    requires WorldKept(world, limits, own)
    ensures WorldKept(world.(lock := Free), limits, own)
  {
    hide Count;
    forall c | c in own ensures ClientKept(world.(lock := Free), c, own[c]) {
      assert ClientKept(world, c, own[c]);
    }
  }

  // --- Every run.

  function Opening(own: map<string, ClientLimits>): World {
    World(Ledger(map c | c in own :: IDLE, 0), [], [], [], Free)
  }

  predicate LegalRun(world: World, moves: seq<Move>, limits: Limits, own: map<string, ClientLimits>)
    decreases |moves|
  {
    moves == []
    || (Enabled(world, moves[0], own) && LegalRun(Next(world, moves[0], limits, own), moves[1..], limits, own))
  }

  function After(world: World, moves: seq<Move>, limits: Limits, own: map<string, ClientLimits>): World
    requires LegalRun(world, moves, limits, own)
    decreases |moves|
  {
    if moves == [] then world else After(Next(world, moves[0], limits, own), moves[1..], limits, own)
  }

  lemma {:induction false} RunKeeps(world: World, moves: seq<Move>, limits: Limits, own: map<string, ClientLimits>)
    requires WorldKept(world, limits, own) && LegalRun(world, moves, limits, own)
    ensures WorldKept(After(world, moves, limits, own), limits, own)
    decreases |moves|
  {
    hide WorldKept, Enabled, Next;
    if moves != [] {
      MoveKeeps(world, moves[0], limits, own);
      RunKeeps(Next(world, moves[0], limits, own), moves[1..], limits, own);
    }
  }

  lemma {:induction false} CountSplits<T(!new)>(s: seq<T>, p: T -> bool, q: T -> bool, r: T -> bool)
    requires forall x :: p(x) <==> q(x) || r(x)
    requires forall x :: !(q(x) && r(x))
    ensures Count(s, p) == Count(s, q) + Count(s, r)
  {
    if s != [] {
      CountSplits(s[..|s| - 1], p, q, r);
    }
  }

  // Under any interleaving, the active and pending work that was written under a permit stays within
  // the limits of its client and of all clients together, and so does everything that permits may still
  // add; the whole work exceeds a limit by no more than what was written without one.
  lemma DurableWorkIsBounded(moves: seq<Move>, limits: Limits, own: map<string, ClientLimits>, client: string)
    requires ValidLimits(limits) && forall c :: c in own ==> ValidClientLimits(own[c], limits.globalActive)
    requires LegalRun(Opening(own), moves, limits, own) && client in own
    ensures var world := After(Opening(own), moves, limits, own);
            && Count(world.operations, PermittedOf(client)) + Count(world.permits, UnopenedBy(client)) <= own[client].active
            && Count(world.approvals, AskedOf(client)) + Count(world.permits, UnaskedBy(client)) <= own[client].pending
            && Count(world.operations, Permitted()) + Count(world.permits, Unopened()) <= limits.globalActive
            && Count(world.operations, ActiveOf(client)) <= own[client].active + Count(world.operations, OutsideOf(client))
            && Count(world.approvals, PendingOf(client)) <= own[client].pending + Count(world.approvals, AskedOutsideOf(client))
            && Count(world.operations, Active()) <= limits.globalActive + Count(world.operations, Outside())
  {
    RunKeeps(Opening(own), moves, limits, own);
    hide LegalRun, After, Count;
    var world := After(Opening(own), moves, limits, own);
    assert ClientKept(world, client, own[client]);
    CountSplits(world.operations, ActiveOf(client), PermittedOf(client), OutsideOf(client));
    CountSplits(world.approvals, PendingOf(client), AskedOf(client), AskedOutsideOf(client));
    CountSplits(world.operations, Active(), Permitted(), Outside());
  }

  // A submission whose usage has been read is given a permit exactly if nothing else of the four limits
  // is reached; so none starts while the read shows all executions taken, and one with room is not refused.
  lemma AdmittedExactly(world: World, limits: Limits, own: map<string, ClientLimits>)
    requires WorldKept(world, limits, own) && Enabled(world, Decide, own)
    ensures var client, usage := world.lock.client, world.lock.usage;
            var next := Next(world, Decide, limits, own);
            && next.lock == Free
            && next.permits == (if && usage.clientActive + Count(world.permits, HeldBy(client)) < own[client].active
                                   && usage.clientPending + Count(world.permits, HeldBy(client)) < own[client].pending
                                   && usage.globalActive + Count(world.permits, Held()) < limits.globalActive
                                   && usage.globalExecuting < limits.globalExecuting
                                then world.permits + [Holder(client, false, false, false)] else world.permits)
            && next.operations == world.operations && next.approvals == world.approvals
  {
    hide Count;
    assert ClientKept(world, world.lock.client, own[world.lock.client]);
  }

  // --- The reservations add up.

  function SumReserved(names: seq<string>, clients: map<string, ClientState>): nat
    requires forall n :: n in names ==> n in clients
  {
    if names == [] then 0 else clients[names[0]].reserved + SumReserved(names[1..], clients)
  }

  function SumHeld(names: seq<string>, permits: seq<Holder>): nat {
    if names == [] then 0 else Count(permits, HeldBy(names[0])) + SumHeld(names[1..], permits)
  }

  lemma {:induction false} SumHeldStep(names: seq<string>, permits: seq<Holder>, holder: Holder)
    requires forall i, j :: 0 <= i < j < |names| ==> names[i] != names[j]
    ensures SumHeld(names, permits + [holder])
            == SumHeld(names, permits) + if !holder.released && holder.client in names then 1 else 0
    decreases |names|
  {
    if names != [] {
      CountAppend(permits, holder, HeldBy(names[0]));
      SumHeldStep(names[1..], permits, holder);
      assert names[0] !in names[1..];
      assert holder.client in names <==> holder.client == names[0] || holder.client in names[1..];
    }
  }

  lemma {:induction false} HeldSplits(names: seq<string>, permits: seq<Holder>)
    requires forall i, j :: 0 <= i < j < |names| ==> names[i] != names[j]
    requires forall p :: 0 <= p < |permits| ==> permits[p].client in names
    ensures SumHeld(names, permits) == Count(permits, Held())
    decreases |permits|
  {
    if permits == [] {
      NoneHeld(names);
    } else {
      var last := |permits| - 1;
      HeldSplits(names, permits[..last]);
      SumHeldStep(names, permits[..last], permits[last]);
      assert permits == permits[..last] + [permits[last]];
      CountAppend(permits[..last], permits[last], Held());
    }
  }

  lemma {:induction false} NoneHeld(names: seq<string>)
    ensures SumHeld(names, []) == 0
    decreases |names|
  {
    if names != [] {
      NoneHeld(names[1..]);
    }
  }

  lemma {:induction false} ReservedAreHeld(names: seq<string>, world: World, limits: Limits, own: map<string, ClientLimits>)
    requires WorldKept(world, limits, own) && forall n :: n in names ==> n in own && n in world.ledger.clients
    ensures SumReserved(names, world.ledger.clients) == SumHeld(names, world.permits)
    decreases |names|
  {
    if names != [] {
      assert ClientKept(world, names[0], own[names[0]]);
      ReservedAreHeld(names[1..], world, limits, own);
    }
  }

  // In every reachable state the global reservation is the number of unreleased permits and the sum of
  // the clients' reservations.
  lemma ReservationsAddUp(moves: seq<Move>, limits: Limits, own: map<string, ClientLimits>, names: seq<string>)
    requires ValidLimits(limits) && forall c :: c in own ==> ValidClientLimits(own[c], limits.globalActive)
    requires LegalRun(Opening(own), moves, limits, own)
    requires (forall i, j :: 0 <= i < j < |names| ==> names[i] != names[j]) && forall c :: c in names <==> c in own
    ensures var world := After(Opening(own), moves, limits, own);
            && (forall c :: c in own ==> c in world.ledger.clients)
            && world.ledger.globalReserved == Count(world.permits, Held()) == SumReserved(names, world.ledger.clients)
  {
    RunKeeps(Opening(own), moves, limits, own);
    hide LegalRun, After, Count;
    var world := After(Opening(own), moves, limits, own);
    forall c | c in own ensures c in world.ledger.clients {
      assert ClientKept(world, c, own[c]);
    }
    ReservedAreHeld(names, world, limits, own);
    HeldSplits(names, world.permits);
  }
}
