// Admission control: a fixed-window rate counter, and provisional permits on top of a durable count
// of operations that the controller does not own.
module Admission {
  import opened Options

  type Time = nat

  datatype Limits = Limits(
    requestsPerWindow: int,
    window: int,
    clientActive: int,
    clientPending: int,
    globalActive: int,
    globalExecuting: int
  )

  datatype ClientLimits = ClientLimits(requestsPerWindow: int, window: int, active: int, pending: int)

  datatype Usage = Usage(clientActive: nat, clientPending: nat, globalActive: nat, globalExecuting: nat)

  datatype ClientState = ClientState(windowStart: Time, requests: nat, reserved: nat)

  datatype Code =
    | ClientUnconfigured
    | RateLimited(retryAfter: int)
    | StoreUnavailable
    | ClientOperationLimit
    | ClientPendingLimit
    | GlobalOperationLimit
    | GlobalExecutionLimit

  const SECOND := 1_000_000_000
  const IDLE := ClientState(0, 0, 0)

  predicate ValidLimits(limits: Limits) {
    && limits.requestsPerWindow > 0 && limits.window > 0 && limits.clientActive > 0 && limits.clientPending > 0
    && limits.globalActive > 0 && limits.globalExecuting > 0
    && limits.clientPending <= limits.clientActive <= limits.globalActive && limits.globalExecuting <= limits.globalActive
  }

  predicate ValidClientLimits(limits: ClientLimits, globalActive: int) {
    && limits.requestsPerWindow > 0 && limits.window > 0 && limits.active > 0 && limits.pending > 0
    && limits.pending <= limits.active <= globalActive
  }

  // --- The rate counter.

  function Opened(state: ClientState, window: int, now: Time): ClientState {
    if state.windowStart == 0 || now >= state.windowStart + window then state.(windowStart := now, requests := 0)
    else state
  }

  // The state after a submission, and whether it was charged.
  function Charge(state: ClientState, limits: ClientLimits, now: Time): (ClientState, bool) {
    var current := Opened(state, limits.window, now);
    if current.requests >= limits.requestsPerWindow then (current, false)
    else (current.(requests := current.requests + 1), true)
  }

  // The number of charged submissions in [from, from + window), over a run of submissions.
  function ChargedWithin(state: ClientState, limits: ClientLimits, times: seq<Time>, from: Time): nat
    decreases |times|
  {
    if times == [] then 0
    else
      var (after, charged) := Charge(state, limits, times[0]);
      ChargedWithin(after, limits, times[1..], from)
      + if charged && from <= times[0] < from + limits.window then 1 else 0
  }

  predicate Nondecreasing(times: seq<Time>, now: Time) {
    && (forall i :: 0 <= i < |times| ==> now <= times[i])
    && forall i, j :: 0 <= i < j < |times| ==> times[i] <= times[j]
  }

  predicate RatedState(state: ClientState, limits: ClientLimits, now: Time) {
    && state.windowStart <= now && state.requests <= limits.requestsPerWindow
    && (state.windowStart > 0 ==> state.requests >= 1)
  }

  // Once every submission is at or past the start of the interval: the window in progress gives what
  // it has left, and one further window can open only if the one in progress started earlier.
  function Allowance(state: ClientState, limits: ClientLimits, from: Time): int {
    if state.windowStart == 0 then limits.requestsPerWindow
    else if state.windowStart >= from then limits.requestsPerWindow - state.requests
    else 2 * limits.requestsPerWindow - state.requests
  }

  lemma {:induction false} NoneAfterwards(state: ClientState, limits: ClientLimits, times: seq<Time>, from: Time)
    requires limits.window > 0 && forall i :: 0 <= i < |times| ==> times[i] >= from + limits.window
    ensures ChargedWithin(state, limits, times, from) == 0
    decreases |times|
  {
    if times != [] {
      NoneAfterwards(Charge(state, limits, times[0]).0, limits, times[1..], from);
    }
  }

  lemma {:induction false} WithinAllowance(state: ClientState, limits: ClientLimits, times: seq<Time>, from: Time, now: Time)
    requires limits.requestsPerWindow > 0 && limits.window > 0 && 0 < from <= now
    requires Nondecreasing(times, now) && RatedState(state, limits, now)
    ensures ChargedWithin(state, limits, times, from) <= Allowance(state, limits, from)
    decreases |times|
  {
    if times != [] {
      var after := Charge(state, limits, times[0]).0;
      RestIsLater(times, now);
      if times[0] >= from + limits.window {
        NoneAfterwards(state, limits, times, from);
      }
      WithinAllowance(after, limits, times[1..], from, times[0]);
    }
  }

  lemma RestIsLater(times: seq<Time>, now: Time)
    requires Nondecreasing(times, now) && times != []
    ensures Nondecreasing(times[1..], times[0]) && now <= times[0]
  {
  }

  // Any interval of one window's length contains fewer than twice the submissions of one window.
  lemma {:induction false} RateIsBounded(state: ClientState, limits: ClientLimits, times: seq<Time>, from: Time, now: Time)
    requires limits.requestsPerWindow > 0 && limits.window > 0 && 0 < from && 0 < now
    requires Nondecreasing(times, now) && RatedState(state, limits, now)
    ensures ChargedWithin(state, limits, times, from) <= 2 * limits.requestsPerWindow - 1
    decreases |times|
  {
    if times != [] {
      RestIsLater(times, now);
      if times[0] < from {
        RateIsBounded(Charge(state, limits, times[0]).0, limits, times[1..], from, times[0]);
      } else {
        WithinAllowance(state, limits, times, from, times[0]);
      }
    }
  }

  function Repeat(n: nat, t: Time): seq<Time> { seq(n, _ => t) }

  lemma {:induction false} RepeatIsCharged(state: ClientState, limits: ClientLimits, n: nat, t: Time, rest: seq<Time>, from: Time)
    requires state.windowStart > 0 && t < state.windowStart + limits.window && state.requests + n <= limits.requestsPerWindow
    requires from <= t < from + limits.window
    ensures ChargedWithin(state, limits, Repeat(n, t) + rest, from)
            == n + ChargedWithin(state.(requests := state.requests + n), limits, rest, from)
    decreases n
  {
    if n == 0 {
      assert Repeat(n, t) + rest == rest;
    } else {
      assert (Repeat(n, t) + rest)[1..] == Repeat(n - 1, t) + rest;
      RepeatIsCharged(state.(requests := state.requests + 1), limits, n - 1, t, rest, from);
    }
  }

  // The bound is met: one submission opens a window, the rest of its budget comes at the end of the
  // window, and a whole new budget follows at once.
  lemma RateBoundIsTight(limits: ClientLimits)
    requires limits.requestsPerWindow > 0 && limits.window > 1
    ensures var r, w := limits.requestsPerWindow, limits.window;
            var times := [1] + (Repeat(r - 1, w) + Repeat(r, w + 1));
            && Nondecreasing(times, 1)
            && ChargedWithin(IDLE, limits, times, w) == 2 * r - 1
  {
    var r, w := limits.requestsPerWindow, limits.window;
    var times := [1] + (Repeat(r - 1, w) + Repeat(r, w + 1));
    assert times[1..] == Repeat(r - 1, w) + Repeat(r, w + 1);
    RepeatIsCharged(ClientState(1, 1, 0), limits, r - 1, w, Repeat(r, w + 1), w);
    var second := Repeat(r, w + 1);
    assert second[1..] == Repeat(r - 1, w + 1) && Repeat(r - 1, w + 1) + [] == Repeat(r - 1, w + 1);
    RepeatIsCharged(ClientState(w + 1, 1, 0), limits, r - 1, w + 1, [], w);
  }

  // One more submission is within the rate: its window has not begun or is over, or is not used up.
  predicate HasRate(state: ClientState, limits: ClientLimits, now: Time) {
    state.windowStart == 0 || now >= state.windowStart + limits.window || state.requests < limits.requestsPerWindow
  }

  // --- The controller.

  function CapacityCode(state: ClientState, globalReserved: nat, own: ClientLimits, limits: Limits, usage: Usage): Option<Code> {
    if usage.clientActive + state.reserved >= own.active then Some(ClientOperationLimit)
    else if usage.clientPending + state.reserved >= own.pending then Some(ClientPendingLimit)
    else if usage.globalActive + globalReserved >= limits.globalActive then Some(GlobalOperationLimit)
    else if usage.globalExecuting >= limits.globalExecuting then Some(GlobalExecutionLimit)
    else None
  }

  datatype Ledger = Ledger(clients: map<string, ClientState>, globalReserved: nat)

  function Charged(ledger: Ledger, client: string, own: ClientLimits, now: Time): (Ledger, bool)
    requires client in ledger.clients
  {
    var (state, charged) := Charge(ledger.clients[client], own, now);
    (ledger.(clients := ledger.clients[client := state]), charged)
  }

  function Reserved(ledger: Ledger, client: string): Ledger
    requires client in ledger.clients
  {
    var state := ledger.clients[client];
    Ledger(ledger.clients[client := state.(reserved := state.reserved + 1)], ledger.globalReserved + 1)
  }

  // Neither counter goes below zero.
  function Released(ledger: Ledger, client: string): Ledger {
    Ledger(
      if client in ledger.clients && ledger.clients[client].reserved > 0 then
        ledger.clients[client := ledger.clients[client].(reserved := ledger.clients[client].reserved - 1)]
      else ledger.clients,
      if ledger.globalReserved > 0 then ledger.globalReserved - 1 else 0)
  }

  class Permit {
    const client: string
    var done: bool

    constructor (client: string)
      ensures this.client == client && !done
    {
      this.client := client;
      done := false;
    }
  }

  class Controller {
    const limits: Limits
    const clientLimits: map<string, ClientLimits>
    var clients: map<string, ClientState>
    var globalReserved: nat

    ghost predicate Valid()
      reads this
    {
      && ValidLimits(limits) && clients.Keys == clientLimits.Keys
      && forall client :: client in clientLimits ==> ValidClientLimits(clientLimits[client], limits.globalActive)
    }

    function Book(): Ledger
      reads this
    {
      Ledger(clients, globalReserved)
    }

    constructor (limits: Limits, clientLimits: map<string, ClientLimits>)
      requires ValidLimits(limits)
      requires forall client :: client in clientLimits ==> ValidClientLimits(clientLimits[client], limits.globalActive)
      ensures Valid() && this.limits == limits && this.clientLimits == clientLimits
      ensures Book() == Ledger(map client | client in clientLimits :: IDLE, 0)
    {
      this.limits := limits;
      this.clientLimits := clientLimits;
      clients := map client | client in clientLimits :: IDLE;
      globalReserved := 0;
    }

    method ChargeRequest(client: string, now: Time) returns (limited: Option<Code>)
      requires Valid() && client in clients
      modifies this`clients
      ensures Valid()
      ensures Book() == Charged(old(Book()), client, clientLimits[client], now).0
      ensures limited.None? <==> Charged(old(Book()), client, clientLimits[client], now).1
      // Once the wait is over the client is charged, and after no shorter one of a second or more.
      ensures limited.Some? ==>
                && limited.value.RateLimited? && limited.value.retryAfter >= SECOND
                && forall later :: later >= now + SECOND ==>
                     (Charge(clients[client], clientLimits[client], later).1 <==> later >= now + limited.value.retryAfter)
    {
      var state, own := clients[client], clientLimits[client];
      if state.windowStart == 0 || now >= state.windowStart + own.window {
        state := state.(windowStart := now, requests := 0);
      }
      if state.requests >= own.requestsPerWindow {
        clients := clients[client := state];
        var wait := state.windowStart + own.window - now;
        if wait < SECOND {
          wait := SECOND;
        }
        return Some(RateLimited(wait));
      }
      clients := clients[client := state.(requests := state.requests + 1)];
      return None;
    }

    // `usage` is what the durable store answers while the controller is locked.
    method Admit(client: string, now: Time, usage: Option<Usage>) returns (permit: Permit?, code: Option<Code>)
      requires Valid()
      modifies this
      ensures Valid()
      ensures (permit != null) == code.None?
      ensures permit != null ==> fresh(permit) && permit.client == client && !permit.done
      // A configured client is admitted exactly if its rate allows one more submission and both its own
      // and the global limits leave room for it beside what is durable and what is reserved.
      ensures permit != null <==>
              && client in old(clients) && usage.Some?
              && HasRate(old(clients)[client], clientLimits[client], now)
              && usage.value.clientActive + old(clients)[client].reserved < clientLimits[client].active
              && usage.value.clientPending + old(clients)[client].reserved < clientLimits[client].pending
              && usage.value.globalActive + old(globalReserved) < limits.globalActive
              && usage.value.globalExecuting < limits.globalExecuting
      ensures client !in old(clients) ==> code == Some(ClientUnconfigured) && Book() == old(Book())
      ensures client in old(clients) ==>
                var (charged, ok) := Charged(old(Book()), client, clientLimits[client], now);
                if !ok then code.Some? && code.value.RateLimited? && Book() == charged
                else if usage.None? then code == Some(StoreUnavailable) && Book() == charged
                else
                  && code == (if usage.value.clientActive + charged.clients[client].reserved >= clientLimits[client].active then
                                Some(ClientOperationLimit)
                              else if usage.value.clientPending + charged.clients[client].reserved >= clientLimits[client].pending then
                                Some(ClientPendingLimit)
                              else if usage.value.globalActive + charged.globalReserved >= limits.globalActive then
                                Some(GlobalOperationLimit)
                              else if usage.value.globalExecuting >= limits.globalExecuting then Some(GlobalExecutionLimit)
                              else None)
                  && Book() == if code.None? then Reserved(charged, client) else charged
    {
      if client !in clients {
        return null, Some(ClientUnconfigured);
      }
      var limited := ChargeRequest(client, now);
      if limited.Some? {
        return null, limited;
      }
      if usage.None? {
        return null, Some(StoreUnavailable);
      }
      var state := clients[client];
      code := CapacityCode(state, globalReserved, clientLimits[client], limits, usage.value);
      if code.Some? {
        return null, code;
      }
      clients := clients[client := state.(reserved := state.reserved + 1)];
      globalReserved := globalReserved + 1;
      permit := new Permit(client);
    }

    // Commit and Release are the same: only the first call has an effect.
    method Release(permit: Permit)
      requires Valid()
      modifies this, permit
      ensures Valid() && permit.done
      ensures Book() == if old(permit.done) then old(Book()) else Released(old(Book()), permit.client)
    {
      if permit.done {
        return;
      }
      permit.done := true;
      if permit.client in clients && clients[permit.client].reserved > 0 {
        var state := clients[permit.client];
        clients := clients[permit.client := state.(reserved := state.reserved - 1)];
      }
      if globalReserved > 0 {
        globalReserved := globalReserved - 1;
      }
    }
  }
}
