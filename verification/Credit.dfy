/** endpoint/credit.go and the poll loop of endpoint/poller.go: the credit gate, and every
    interleaving of the poll loop, push ingress and workers over it. */
module Credit {
  import opened Reliability
  import opened Collections

  // ---- The gate in its own form --------------------------------------------------------------

  /** A token channel used as a counter. */
  class CreditGate {
    var tokens: nat
    const capacity: nat

    ghost predicate Valid()
      reads this
    {
      tokens <= capacity
    }

    constructor (n: nat)
      ensures Valid() && tokens == 0 && capacity == n
    {
      tokens, capacity := 0, n;
    }

    method TryAcquire() returns (ok: bool)
      requires Valid()
      modifies this`tokens
      ensures Valid() && ok == (old(tokens) < capacity) && tokens == if ok then old(tokens) + 1 else old(tokens)
    {
      ok := tokens < capacity;
      if ok {
        tokens := tokens + 1;
      }
    }

    /** A receive; it would wait on an empty channel. */
    method Release()
      requires Valid() && tokens > 0
      modifies this`tokens
      ensures Valid() && tokens == old(tokens) - 1
    {
      tokens := tokens - 1;
    }

    /** The top-up loop: all the free credits, up to the batch. */
    method TopUp(batch: int) returns (held: int)
      requires Valid()
      modifies this`tokens
      ensures Valid() && held >= 1 && tokens == old(tokens) + (held - 1)
      ensures held <= 1 || held <= batch
      ensures held < batch ==> tokens == capacity
    {
      held := 1;
      while held < batch
        invariant Valid() && held >= 1 && tokens == old(tokens) + (held - 1) && (held <= 1 || held <= batch)
        decreases batch - held
      {
        var ok := TryAcquire();
        if !ok {
          return;
        }
        held := held + 1;
      }
    }

    /** releaseN. */
    method ReleaseN(n: nat)
      requires Valid() && n <= tokens
      modifies this`tokens
      ensures Valid() && tokens == old(tokens) - n
    {
      var i := 0;
      while i < n
        invariant Valid() && i <= n && tokens == old(tokens) - i
      {
        Release();
        i := i + 1;
      }
    }
  }

  /** What became of the rows of one poll. */
  datatype Round = Round(handed: nat, nacked: nat, abandoned: nat)

  /** One turn of pollLoop, alone at the gate, once a credit is free: Poll fails or returns some
      number of rows, and the context may be found done at some row of the hand-off. The gate
      ends up with exactly one more credit taken for each row handed to a worker. Every row is
      then handed over or Nacked, except when the context is found done before the last row:
      the rows after that one are neither. */
  method PollRound(gate: CreditGate, batch: int, polled: Option<nat>, doneAt: Option<nat>) returns (round: Round)
    requires gate.Valid() && gate.tokens < gate.capacity
    modifies gate
    ensures gate.Valid() && gate.tokens == old(gate.tokens) + round.handed
    ensures polled.None? ==> round == Round(0, 0, 0)
    ensures polled.Some? ==> round.handed + round.nacked + round.abandoned == polled.value
    ensures
      var limit := if batch < 1 then 1 else batch;
      var kept := Min(if polled.None? then 0 else polled.value, Min(limit, gate.capacity - old(gate.tokens)));
      var cut := doneAt.Some? && doneAt.value < kept;
      && round.handed == (if cut then doneAt.value else kept)
      && round.nacked == (if polled.None? then 0 else polled.value - kept) + (if cut then 1 else 0)
      && round.abandoned == (if cut then kept - doneAt.value - 1 else 0)
  {
    var ok := gate.TryAcquire();
    var held := gate.TopUp(batch);
    if polled.None? {
      gate.ReleaseN(held);
      return Round(0, 0, 0);
    }
    var rows, excess := polled.value, 0;
    if rows > held {
      rows, excess := held, rows - held;
    }
    gate.ReleaseN(held - rows);
    var i := 0;
    while i < rows
      invariant 0 <= i <= rows && gate.Valid() && gate.tokens == old(gate.tokens) + rows
      invariant doneAt.Some? ==> i <= doneAt.value
    {
      if doneAt == Some(i) {
        gate.Release();
        gate.ReleaseN(rows - i - 1);
        return Round(i, excess + 1, rows - i - 1);
      }
      i := i + 1;
    }
    return Round(rows, excess, 0);
  }

  const MAX_POLL_ERROR_BACKOFF := 30_000_000_000

  function Pow2(k: nat): nat {
    if k == 0 then 1 else 2 * Pow2(k - 1)
  }

  /** pollErrorBackoff: the doubling stops at the cap, and computes the capped power. */
  method PollErrorBackoff(interval: int, n: int) returns (d: int)
    requires interval > 0
    ensures d == Min(interval * Pow2(if n < 1 then 0 else n - 1), MAX_POLL_ERROR_BACKOFF)
  {
    d := interval;
    var i := 1;
    while i < n && d < MAX_POLL_ERROR_BACKOFF
      invariant 1 <= i && (i <= n || i == 1) && d == interval * Pow2(i - 1) && d > 0
      invariant d < 2 * MAX_POLL_ERROR_BACKOFF || d == interval
    {
      Doubles(interval, i - 1);
      d := 2 * d;
      i := i + 1;
    }
    Grows(interval, i - 1, if n < 1 then 0 else n - 1);
    d := Min(d, MAX_POLL_ERROR_BACKOFF);
  }

  lemma Doubles(interval: int, k: nat)
    ensures interval * Pow2(k + 1) == 2 * (interval * Pow2(k))
  {
  }

  lemma {:induction false} Grows(interval: int, a: nat, b: nat)
    requires interval > 0 && a <= b
    ensures interval * Pow2(a) <= interval * Pow2(b)
    decreases b
  {
    if a < b {
      Grows(interval, a, b - 1);
      Doubles(interval, b - 1);
      Positive(interval, b - 1);
    }
  }

  lemma {:induction false} Positive(interval: int, k: nat)
    requires interval > 0
    ensures interval * Pow2(k) > 0
  {
    if k > 0 {
      Positive(interval, k - 1);
      Doubles(interval, k - 1);
    }
  }

  // ---- The protocol ------------------------------------------------------------------------------

  /** Where the poll loop is, with the credits it holds that ride with no delivery yet. */
  datatype Loop =
    | Acquiring
    | Topping(held: nat)
    | Returning(n: int, next: Loop)            // releaseN in progress
    | Handing(rows: nat)                       // rows still to hand over
    | Nacking(d: nat, rest: nat)               // shutdown mid-handoff: the wrapped Nack of this row
    | Stopped

  function Held(l: Loop): int {
    match l
    case Topping(held) => held
    case Returning(n, next) => n + Held(next)
    case Handing(rows) => rows
    case Nacking(_, rest) => rest
    case _ => 0
  }

  /** queue is workerCh. live are the wrapped deliveries whose credit is not released yet,
      working those a worker is processing, pushing the push admissions that hold a credit.
      released is the order in which wrapped credits were released. */
  datatype State = State(
    max: nat, batch: nat, tokens: nat, loop: Loop,
    queue: seq<nat>, live: set<nat>, working: set<nat>, pushing: set<nat>,
    released: seq<nat>, next: nat)

  datatype Event =
    | Acquire
    | TopUpOne
    | PollFails
    | PollReturns(rows: nat)
    | ReturnOne
    | ReturnDone
    | HandRow
    | Pace
    | AbortRow
    | NackRow
    | Shutdown
    | PushAcquire
    | PushHand(p: nat)
    | PushAbort(p: nat)
    | WorkerTake
    | WorkerRelease(d: nat)                    // an Ack or Nack, or the deferred release
    | WorkerDone(d: nat)

  predicate Enabled(s: State, ev: Event) {
    match ev
    case Acquire => s.loop.Acquiring? && s.tokens < s.max
    case TopUpOne => s.loop.Topping? && s.loop.held < s.batch && s.tokens < s.max
    case PollFails => s.loop.Topping?
    case PollReturns(_) => s.loop.Topping?
    case ReturnOne => s.loop.Returning? && s.loop.n > 0 && s.tokens > 0
    case ReturnDone => s.loop.Returning? && s.loop.n <= 0
    case HandRow => s.loop.Handing? && s.loop.rows > 0 && |s.queue| < s.max
    case Pace => s.loop == Handing(0)
    case AbortRow => s.loop.Handing? && s.loop.rows > 0
    case NackRow => s.loop.Nacking? && s.tokens > 0
    case Shutdown => s.loop.Acquiring? || s.loop == Handing(0)
    case PushAcquire => s.tokens < s.max
    case PushHand(p) => p in s.pushing && |s.queue| < s.max
    case PushAbort(p) => p in s.pushing && s.tokens > 0
    case WorkerTake => s.queue != []
    case WorkerRelease(d) => d in s.working && (d in s.live ==> s.tokens > 0)
    case WorkerDone(d) => d in s.working && d !in s.live
  }

  /** The once-only release of a wrapped delivery. */
  function Release(s: State, d: nat): State {
    if d !in s.live then s
    else s.(live := s.live - {d}, tokens := Max(s.tokens - 1, 0), released := s.released + [d])
  }

  function Step(s: State, ev: Event): State
    requires Enabled(s, ev)
  {
    match ev
    case Acquire => s.(tokens := s.tokens + 1, loop := Topping(1))
    case TopUpOne => s.(tokens := s.tokens + 1, loop := Topping(s.loop.held + 1))
    case PollFails => s.(loop := Returning(s.loop.held, Acquiring))
    case PollReturns(rows) =>
      // rows beyond the held credits are Nacked unwrapped, and hold none
      var kept := if rows > s.loop.held then s.loop.held else rows;
      s.(loop := Returning(s.loop.held - kept, Handing(kept)))
    case ReturnOne => s.(tokens := s.tokens - 1, loop := s.loop.(n := s.loop.n - 1))
    case ReturnDone => s.(loop := s.loop.next)
    case HandRow =>
      s.(loop := Handing(s.loop.rows - 1), live := s.live + {s.next}, queue := s.queue + [s.next], next := s.next + 1)
    case Pace => s.(loop := Acquiring)
    case AbortRow => s.(loop := Nacking(s.next, s.loop.rows - 1), live := s.live + {s.next}, next := s.next + 1)
    case NackRow => Release(s, s.loop.d).(loop := Returning(s.loop.rest, Stopped))
    case Shutdown => s.(loop := Stopped)
    case PushAcquire => s.(tokens := s.tokens + 1, pushing := s.pushing + {s.next}, next := s.next + 1)
    case PushHand(p) => s.(pushing := s.pushing - {p}, live := s.live + {p}, queue := s.queue + [p])
    case PushAbort(p) => s.(pushing := s.pushing - {p}, tokens := s.tokens - 1)
    case WorkerTake => s.(queue := s.queue[1..], working := s.working + {s.queue[0]})
    case WorkerRelease(d) => Release(s, d)
    case WorkerDone(d) => s.(working := s.working - {d})
  }

  predicate Init(s: State) {
    && s.max >= 1 && s.tokens == 0 && s.loop == Acquiring && s.queue == [] && s.live == {} && s.working == {}
    && s.pushing == {} && s.released == [] && s.next == 0
  }

  predicate StepAt(states: seq<State>, events: seq<Event>, t: nat)
    requires t < |events| && |states| == |events| + 1
  {
    Enabled(states[t], events[t]) && states[t + 1] == Step(states[t], events[t])
  }

  predicate Run(states: seq<State>, events: seq<Event>) {
    && |states| == |events| + 1 && Init(states[0])
    && forall t :: 0 <= t < |events| ==> StepAt(states, events, t)
  }

  // ---- Invariants --------------------------------------------------------------------------------

  /** The loop's counts are never negative and its continuations never release twice. */
  predicate LoopOk(l: Loop) {
    match l
    case Returning(n, next) => n >= 0 && (next.Acquiring? || next.Handing? || next.Stopped?)
    case _ => true
  }

  predicate CreditsInv(s: State) {
    && s.tokens == Held(s.loop) + |s.pushing| + |s.live| && s.tokens <= s.max
    && LoopOk(s.loop)
  }

  /** A live delivery is queued, or with a worker, or the row being Nacked. */
  ghost predicate QueueInv(s: State) {
    && Distinct(s.queue)
    && (forall d :: d in s.queue ==> d in s.live && d !in s.working)
    && (forall d :: d in s.live ==> d in s.queue || d in s.working || (s.loop.Nacking? && d == s.loop.d))
    && (s.loop.Nacking? ==> s.loop.d in s.live && s.loop.d !in s.queue && s.loop.d !in s.working)
    && (forall d :: d in s.queue || d in s.live || d in s.working || d in s.pushing || d in s.released ==> d < s.next)
    && s.pushing !! s.live && s.pushing !! s.working
  }

  ghost predicate ReleasedInv(s: State) {
    && Distinct(s.released)
    && (forall d :: d in s.released ==> d !in s.live && d !in s.pushing)
  }

  lemma LoopStep(s: State, ev: Event)
    requires CreditsInv(s) && Enabled(s, ev)
    requires (ev.Acquire? || ev.TopUpOne? || ev.PollFails? || ev.PollReturns? || ev.ReturnOne? || ev.ReturnDone?
      || ev.Shutdown? || ev.Pace?)
    ensures CreditsInv(Step(s, ev))
  {
  }

  lemma RowStep(s: State, ev: Event)
    requires CreditsInv(s) && QueueInv(s) && Enabled(s, ev) && (ev.HandRow? || ev.AbortRow? || ev.NackRow?)
    ensures CreditsInv(Step(s, ev))
  {
    if ev.NackRow? {
      assert |s.live - {s.loop.d}| == |s.live| - 1;
    } else {
      assert s.next !in s.live;
    }
  }

  lemma PushStep(s: State, ev: Event)
    requires CreditsInv(s) && QueueInv(s) && Enabled(s, ev) && (ev.PushAcquire? || ev.PushHand? || ev.PushAbort?)
    ensures CreditsInv(Step(s, ev))
  {
    if ev.PushAcquire? {
      assert s.next !in s.pushing;
    } else {
      assert |s.pushing - {ev.p}| == |s.pushing| - 1;
    }
  }

  lemma WorkStep(s: State, ev: Event)
    requires CreditsInv(s) && Enabled(s, ev) && (ev.WorkerTake? || ev.WorkerRelease? || ev.WorkerDone?)
    ensures CreditsInv(Step(s, ev))
  {
    if ev.WorkerRelease? && ev.d in s.live {
      assert |s.live - {ev.d}| == |s.live| - 1;
    }
  }

  lemma CreditsStep(s: State, ev: Event)
    requires CreditsInv(s) && QueueInv(s) && Enabled(s, ev)
    ensures CreditsInv(Step(s, ev))
  {
    if ev.HandRow? || ev.AbortRow? || ev.NackRow? {
      RowStep(s, ev);
    } else if ev.PushAcquire? || ev.PushHand? || ev.PushAbort? {
      PushStep(s, ev);
    } else if ev.WorkerTake? || ev.WorkerRelease? || ev.WorkerDone? {
      WorkStep(s, ev);
    } else {
      LoopStep(s, ev);
    }
  }

  lemma QueueStep(s: State, ev: Event)
    requires LoopOk(s.loop) && QueueInv(s) && Enabled(s, ev)
    ensures QueueInv(Step(s, ev))
  {
    if ev.WorkerTake? {
      QueueStepTake(s);
    } else if ev.HandRow? || ev.PushHand? {
      QueueStepHand(s, ev);
    }
  }

  lemma QueueStepTake(s: State)
    requires QueueInv(s) && s.queue != []
    ensures QueueInv(Step(s, WorkerTake))
  {
    var rest := s.queue[1..];
    assert s.queue == [s.queue[0]] + rest;
    assert s.queue[0] !in rest;
  }

  lemma QueueStepHand(s: State, ev: Event)
    requires QueueInv(s) && Enabled(s, ev) && (ev.HandRow? || ev.PushHand?)
    ensures QueueInv(Step(s, ev))
  {
  }

  lemma ReleasedStep(s: State, ev: Event)
    requires QueueInv(s) && ReleasedInv(s) && Enabled(s, ev)
    ensures ReleasedInv(Step(s, ev))
  {
  }

  ghost predicate Inv(s: State) {
    CreditsInv(s) && QueueInv(s) && ReleasedInv(s)
  }

  lemma {:induction false} InvAlways(states: seq<State>, events: seq<Event>, t: nat)
    requires Run(states, events) && t < |states|
    ensures Inv(states[t])
  {
    if t > 0 {
      InvAlways(states, events, t - 1);
      assert StepAt(states, events, t - 1);
      CreditsStep(states[t - 1], events[t - 1]);
      QueueStep(states[t - 1], events[t - 1]);
      ReleasedStep(states[t - 1], events[t - 1]);
    }
  }

  // ---- Theorems ----------------------------------------------------------------------------------

  /** Tokens taken are exactly the credits the producers hold and the unreleased deliveries,
      never above maxInFlight. */
  lemma CreditsAreConserved(states: seq<State>, events: seq<Event>, t: nat)
    requires Run(states, events) && t < |states|
    ensures states[t].tokens == Held(states[t].loop) + |states[t].pushing| + |states[t].live| <= states[t].max
  {
    InvAlways(states, events, t);
  }

  /** No receive from the gate waits, releaseN never gets a negative count, and no hand-off to
      the worker channel waits. */
  lemma NothingBlocks(states: seq<State>, events: seq<Event>, t: nat)
    requires Run(states, events) && t < |states|
    ensures
      var s := states[t];
      && (s.loop.Returning? ==> s.loop.n >= 0 && (s.loop.n > 0 ==> Enabled(s, ReturnOne)))
      && (s.loop.Nacking? ==> Enabled(s, NackRow))
      && (s.loop.Handing? && s.loop.rows > 0 ==> Enabled(s, HandRow))
    ensures forall p :: p in states[t].pushing ==> Enabled(states[t], PushHand(p)) && Enabled(states[t], PushAbort(p))
    ensures forall d :: d in states[t].working ==> Enabled(states[t], WorkerRelease(d))
  {
    InvAlways(states, events, t);
    var s := states[t];
    QueuedAreLive(s);
    HeldIsACount(s.loop);
    forall p | p in s.pushing ensures Enabled(s, PushHand(p)) && Enabled(s, PushAbort(p)) {
      NonEmpty(s.pushing, p);
    }
    forall d | d in s.working ensures Enabled(s, WorkerRelease(d)) {
      if d in s.live {
        NonEmpty(s.live, d);
      }
    }
    if s.loop.Nacking? {
      NonEmpty(s.live, s.loop.d);
    }
  }

  lemma HeldIsACount(l: Loop)
    requires LoopOk(l)
    ensures Held(l) >= 0 && (l.Returning? ==> Held(l) >= l.n)
  {
    if l.Returning? {
      assert Held(l.next) >= 0;
    }
  }

  lemma NonEmpty(ds: set<nat>, d: nat)
    requires d in ds
    ensures |ds| > 0
  {
  }

  lemma QueuedAreLive(s: State)
    requires QueueInv(s)
    ensures |s.queue| <= |s.live|
  {
    MembersSize(s.queue);
    SubsetSize(Members(s.queue), s.live);
  }

  /** A wrapped delivery's credit is released at most once, however often it is settled, and a
      worker that is done has released it. */
  lemma ReleasedOnce(states: seq<State>, events: seq<Event>, t: nat)
    requires Run(states, events) && t < |states|
    ensures Distinct(states[t].released)
    ensures forall d :: d in states[t].released ==> d !in states[t].live
    ensures t < |events| && events[t].WorkerRelease? && events[t].d !in states[t].live ==> states[t + 1] == states[t]
  {
    InvAlways(states, events, t);
    if t < |events| {
      assert StepAt(states, events, t);
    }
  }

  /** Once the producers have stopped and the workers are done, every credit is back. */
  lemma AllCreditsReturn(states: seq<State>, events: seq<Event>, t: nat)
    requires Run(states, events) && t < |states|
    requires states[t].loop.Stopped? && states[t].pushing == {} && states[t].queue == [] && states[t].working == {}
    ensures states[t].tokens == 0
  {
    InvAlways(states, events, t);
    assert states[t].live == {};
  }

  // ---- The rows of a poll -----------------------------------------------------------------------

  /** The rows of the current poll still to be handed over. */
  function RowsLeft(l: Loop): nat {
    match l
    case Returning(_, next) => if next.Handing? then next.rows else 0
    case Handing(rows) => rows
    case _ => 0
  }

  /** How many rows were handed to the workers from step u up to t. */
  function Handed(events: seq<Event>, u: nat, t: nat): nat
    requires u <= t <= |events|
  {
    if t == u then 0 else Handed(events, u, t - 1) + if events[t - 1].HandRow? then 1 else 0
  }

  /** The credits the loop took for this poll: one, and one for each top-up since. */
  lemma {:induction false} CreditsOfPoll(states: seq<State>, events: seq<Event>, t: nat) returns (u: nat)
    requires Run(states, events) && t < |states| && states[t].loop.Topping?
    ensures u < t && events[u].Acquire? && (forall j :: u < j < t ==> !events[j].Acquire?)
    ensures states[t].loop.held == 1 + TopUps(events, u, t)
  {
    InvAlways(states, events, t - 1);
    assert StepAt(states, events, t - 1);
    if events[t - 1].Acquire? {
      u := t - 1;
    } else {
      u := CreditsOfPoll(states, events, t - 1);
    }
  }

  function TopUps(events: seq<Event>, u: nat, t: nat): nat
    requires u <= t <= |events|
  {
    if t == u then 0 else TopUps(events, u, t - 1) + if events[t - 1].TopUpOne? then 1 else 0
  }

  /** The poll before t, while the loop is at its rows. */
  predicate InPoll(states: seq<State>, events: seq<Event>, t: nat, u: nat)
    requires |states| == |events| + 1
  {
    && u < t <= |events| && events[u].PollReturns? && states[u].loop.Topping?
    && forall j :: u < j < t ==> !events[j].PollReturns?
  }

  /** Of the rows of a poll as many as there are credits for are handed to the workers, one by one:
      those handed so far and those left make up just that many, to the last row. */
  lemma {:induction false} RowsAreHandedOver(states: seq<State>, events: seq<Event>, t: nat) returns (u: nat)
    requires Run(states, events) && t < |states|
    requires states[t].loop.Handing? || (states[t].loop.Returning? && states[t].loop.next.Handing?)
    ensures InPoll(states, events, t, u)
    ensures Handed(events, u, t) + RowsLeft(states[t].loop) == Min(events[u].rows, states[u].loop.held)
  {
    InvAlways(states, events, t - 1);
    assert StepAt(states, events, t - 1);
    if events[t - 1].PollReturns? {
      u := t - 1;
      assert Handed(events, u, u) == 0;
    } else {
      u := RowsAreHandedOver(states, events, t - 1);
    }
  }

  /** A row handed over is queued last, and a worker takes the one queued first. */
  lemma HandedInOrder(states: seq<State>, events: seq<Event>, t: nat)
    requires Run(states, events) && t < |events|
    ensures events[t].HandRow? || events[t].PushHand? ==>
      && |states[t + 1].queue| == |states[t].queue| + 1 && states[t + 1].queue[..|states[t].queue|] == states[t].queue
      && states[t + 1].queue[|states[t].queue|] !in states[t].live
    ensures events[t].WorkerTake? ==>
      states[t].queue != [] && states[t].queue == [states[t].queue[0]] + states[t + 1].queue
      && states[t].queue[0] in states[t + 1].working
    ensures !events[t].HandRow? && !events[t].PushHand? && !events[t].WorkerTake? ==>
      states[t + 1].queue == states[t].queue
  {
    InvAlways(states, events, t);
    assert StepAt(states, events, t);
  }

  predicate Stopping(l: Loop) {
    l.Stopped? || l.Nacking? || (l.Returning? && l.next.Stopped?)
  }

  /** Once it has found its context done, the loop polls no more: it Nacks the row at hand, returns
      the credits of the rest, and stops. */
  lemma {:induction false} StopsForGood(states: seq<State>, events: seq<Event>, u: nat, t: nat)
    requires Run(states, events) && u < t < |states| && (events[u].AbortRow? || events[u].Shutdown?)
    ensures Stopping(states[t].loop)
    ensures t < |events| ==> !events[t].Acquire? && !events[t].PollReturns? && !events[t].HandRow?
    decreases t
  {
    if t == u + 1 {
      assert StepAt(states, events, u);
    } else {
      StopsForGood(states, events, u, t - 1);
      assert StepAt(states, events, t - 1);
    }
    if t < |events| {
      assert StepAt(states, events, t);
    }
  }
}
