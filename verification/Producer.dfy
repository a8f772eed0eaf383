/** endpoint/producer.go: the retry loop around one outbound send, and its time budget. Times
    are in nanoseconds. */
module Producer {
  import opened Reliability
  import opened Collections

  const MIN_RETRY_DELAY := 100_000_000

  /** maxAttempts 0 is unlimited. */
  datatype Policy = Policy(maxAttempts: nat, deadLetter: bool, budget: nat, retryAfterCap: int)

  /** What the world does: the answer to attempt i and how long it takes, the backoff before the
      next one, how much later than asked its timer fires, whether the caller cancels during
      that wait, and what the dead-letter sink answers. */
  datatype World = World(
    send: nat -> Option<Error>, takes: nat -> nat, backoff: nat -> int, late: nat -> nat, cancels: nat -> bool,
    divert: Option<Error>)

  /** nextDelay. */
  function NextDelay(p: Policy, backoff: int, err: Error): int {
    var d := if RetryAfterOf(err).Some? then Max(backoff, Min(RetryAfterOf(err).value, p.retryAfterCap)) else backoff;
    Max(d, MIN_RETRY_DELAY)
  }

  /** Why the loop ended. */
  datatype Ending = Sent | Refused(err: Error) | AttemptsSpent(err: Error) | BudgetSpent(err: Error)
    | CallerLeft(err: Error)

  /** deadLetter: the error it returns, and whether the sink was tried. */
  function DeadLetter(p: Policy, w: World, cause: Error): (Error, bool) {
    if !p.deadLetter then (cause, false)
    else if w.divert.Some? then (Join([cause, w.divert.value]), true)
    else (Join([Leaf(DeadLettered), cause]), true)
  }

  /** What the loop returns, and whether it tried the dead-letter sink. */
  function Outcome(p: Policy, w: World, e: Ending): (Option<Error>, bool) {
    match e
    case Sent => (None, false)
    case Refused(err) => (Some(err), false)
    case AttemptsSpent(err) => var (out, tried) := DeadLetter(p, w, err); (Some(out), tried)
    case BudgetSpent(err) => var (out, tried) := DeadLetter(p, w, Join([Leaf(RetryBudgetExhausted), err]));
      (Some(out), tried)
    case CallerLeft(err) => var (out, tried) := DeadLetter(p, w, err); (Some(Join([out, Leaf(Cancelled)])), tried)
  }

  function Sum(ns: seq<int>): int {
    if ns == [] then 0 else Sum(ns[..|ns| - 1]) + ns[|ns| - 1]
  }

  predicate Transient(e: Option<Error>) {
    e.Some? && !IsPermanent(e)
  }

  /** The clock when attempt i has been answered, if every wait before it ran its course. */
  function AnsweredAt(w: World, waits: seq<int>, i: nat): int
    requires i >= 1 && |waits| >= i - 1
  {
    if i == 1 then w.takes(1)
    else AnsweredAt(w, waits, i - 1) + waits[i - 2] + w.late(i - 1) + w.takes(i)
  }

  /** The loop got as far as attempt n with these waits before it: each earlier attempt failed
      transiently, was not the last allowed, and its wait fitted the budget and ended. */
  ghost predicate Reached(p: Policy, w: World, n: nat, waits: seq<int>) {
    && n >= 1 && |waits| == n - 1
    && forall i :: 1 <= i < n ==> WentOn(p, w, i, waits)
  }

  predicate WentOn(p: Policy, w: World, i: nat, waits: seq<int>)
    requires 1 <= i <= |waits|
  {
    && Transient(w.send(i)) && (p.maxAttempts > 0 ==> i < p.maxAttempts) && !w.cancels(i)
    && waits[i - 1] == NextDelay(p, w.backoff(i), w.send(i).value)
    && AnsweredAt(w, waits, i) + waits[i - 1] <= p.budget
  }

  /** And ended there. The conditions exclude one another and leave only going on. */
  predicate EndsAt(p: Policy, w: World, n: nat, waits: seq<int>, e: Ending)
    requires n >= 1 && |waits| >= n - 1
  {
    var err := w.send(n);
    match e
    case Sent => err.None?
    case Refused(x) => err == Some(x) && IsPermanent(err)
    case AttemptsSpent(x) => err == Some(x) && Transient(err) && 0 < p.maxAttempts <= n
    case BudgetSpent(x) =>
      && err == Some(x) && Transient(err) && !(0 < p.maxAttempts <= n)
      && AnsweredAt(w, waits, n) + NextDelay(p, w.backoff(n), x) > p.budget
    case CallerLeft(x) =>
      && err == Some(x) && Transient(err) && !(0 < p.maxAttempts <= n) && w.cancels(n)
      && AnsweredAt(w, waits, n) + NextDelay(p, w.backoff(n), x) <= p.budget
  }

  lemma AnsweredPrefix(w: World, waits: seq<int>, more: int, i: nat)
    requires 1 <= i <= |waits| + 1
    ensures AnsweredAt(w, waits + [more], i) == AnsweredAt(w, waits, i)
  {
  }

  lemma ReachesNext(p: Policy, w: World, n: nat, waits: seq<int>, wait: int)
    requires Reached(p, w, n, waits) && WentOn(p, w, n, waits + [wait])
    ensures Reached(p, w, n + 1, waits + [wait])
  {
    forall i | 1 <= i < n + 1 ensures WentOn(p, w, i, waits + [wait]) {
      if i < n {
        assert WentOn(p, w, i, waits);
        AnsweredPrefix(w, waits, wait, i);
      }
    }
  }

  /** sendRetrying. The clock starts at 0. */
  method SendRetrying(p: Policy, w: World)
    returns (err: Option<Error>, tried: bool, attempts: nat, waits: seq<int>, ending: Ending)
    ensures Reached(p, w, attempts, waits) && EndsAt(p, w, attempts, waits, ending)
    ensures (err, tried) == Outcome(p, w, ending)
  {
    var now, deadline := 0, p.budget;
    attempts, waits := 1, [];
    while true
      invariant Reached(p, w, attempts, waits)
      invariant now + w.takes(attempts) == AnsweredAt(w, waits, attempts)
      decreases if now <= deadline then deadline - now + 1 else 0
    {
      var e := w.send(attempts);
      now := now + w.takes(attempts);
      if e.None? {
        ending := Sent;
        return None, false, attempts, waits, ending;
      }
      if IsPermanent(e) {
        ending := Refused(e.value);
        return e, false, attempts, waits, ending;
      }
      if p.maxAttempts > 0 && attempts >= p.maxAttempts {
        var (out, t) := DeadLetter(p, w, e.value);
        ending := AttemptsSpent(e.value);
        return Some(out), t, attempts, waits, ending;
      }
      var wait := NextDelay(p, w.backoff(attempts), e.value);
      if now + wait > deadline {
        var (out, t) := DeadLetter(p, w, Join([Leaf(RetryBudgetExhausted), e.value]));
        ending := BudgetSpent(e.value);
        return Some(out), t, attempts, waits, ending;
      }
      if w.cancels(attempts) {
        var (out, t) := DeadLetter(p, w, e.value);
        ending := CallerLeft(e.value);
        return Some(Join([out, Leaf(Cancelled)])), t, attempts, waits, ending;
      }
      AnsweredPrefix(w, waits, wait, attempts);
      ReachesNext(p, w, attempts, waits, wait);
      now := now + wait + w.late(attempts);
      attempts, waits := attempts + 1, waits + [wait];
    }
  }

  // ---- What the loop keeps --------------------------------------------------------------------

  /** Waits so far and the clock: nothing waited for is waited for twice. */
  lemma {:induction false} WaitsTakeTime(p: Policy, w: World, n: nat, waits: seq<int>, i: nat)
    requires Reached(p, w, n, waits) && 1 <= i <= n
    ensures Sum(waits[..i - 1]) <= AnsweredAt(w, waits, i)
    ensures Sum(waits[..i - 1]) >= (i - 1) * MIN_RETRY_DELAY
  {
    if i > 1 {
      WaitsTakeTime(p, w, n, waits, i - 1);
      assert WentOn(p, w, i - 1, waits);
      assert waits[..i - 1][..i - 2] == waits[..i - 2];
    }
  }

  /** The waits sum to at most the budget, each is at least 100ms, and so the attempts are at
      most 1 + budget/100ms, and at most MaxAttempts when that is finite. */
  lemma BudgetBounds(p: Policy, w: World, n: nat, waits: seq<int>)
    requires Reached(p, w, n, waits)
    ensures Sum(waits) <= p.budget
    ensures forall i :: 0 <= i < |waits| ==> waits[i] >= MIN_RETRY_DELAY
    ensures n <= 1 + p.budget / MIN_RETRY_DELAY
    ensures p.maxAttempts > 0 ==> n <= p.maxAttempts
  {
    forall i | 0 <= i < |waits| ensures waits[i] >= MIN_RETRY_DELAY {
      assert WentOn(p, w, i + 1, waits);
    }
    assert waits[..n - 1] == waits;
    WaitsTakeTime(p, w, n, waits, n);
    if n > 1 {
      WaitsTakeTime(p, w, n, waits, n - 1);
      assert WentOn(p, w, n - 1, waits);
      assert waits[..n - 1][..n - 2] == waits[..n - 2];
    }
  }

  /** Each wait is the largest of the backoff, 100ms and the capped Retry-After the server asked
      for: a server may lengthen the wait up to the cap and never shorten it. */
  lemma WaitsHonourServer(p: Policy, w: World, n: nat, waits: seq<int>, i: nat)
    requires Reached(p, w, n, waits) && 1 <= i < n
    ensures
      && w.send(i).Some?
      && var wait, asked := waits[i - 1], RetryAfterOf(w.send(i).value);
      && wait >= Max(w.backoff(i), MIN_RETRY_DELAY)
      && (asked.Some? ==> wait >= Min(asked.value, p.retryAfterCap))
      && (wait > Max(w.backoff(i), MIN_RETRY_DELAY) ==> asked.Some? && wait == Min(asked.value, p.retryAfterCap))
  {
    assert WentOn(p, w, i, waits);
  }

  /** One way on, five ways out, and the way out is determined. */
  lemma EndingIsUnique(p: Policy, w: World, n: nat, n': nat, waits: seq<int>, waits': seq<int>, e: Ending, e': Ending)
    requires Reached(p, w, n, waits) && EndsAt(p, w, n, waits, e)
    requires Reached(p, w, n', waits') && EndsAt(p, w, n', waits', e')
    ensures n == n' && waits == waits' && e == e'
  {
    NoFurther(p, w, n, waits, e, n', waits');
    NoFurther(p, w, n', waits', e', n, waits);
    SameWaits(p, w, n, waits, n', waits', n);
  }

  lemma NoFurther(p: Policy, w: World, n: nat, waits: seq<int>, e: Ending, n': nat, waits': seq<int>)
    requires Reached(p, w, n, waits) && EndsAt(p, w, n, waits, e) && Reached(p, w, n', waits')
    ensures n' <= n
  {
    if n < n' {
      SameWaits(p, w, n, waits, n', waits', n);
      EndedIsNotOn(p, w, n, waits, e, waits');
    }
  }

  lemma EndedIsNotOn(p: Policy, w: World, n: nat, waits: seq<int>, e: Ending, waits': seq<int>)
    requires 1 <= n <= |waits'| && |waits| >= n - 1 && EndsAt(p, w, n, waits, e)
    requires AnsweredAt(w, waits, n) == AnsweredAt(w, waits', n)
    ensures !WentOn(p, w, n, waits')
  {
  }

  lemma {:induction false} SameWaits(p: Policy, w: World, n: nat, waits: seq<int>, n': nat, waits': seq<int>, i: nat)
    requires Reached(p, w, n, waits) && Reached(p, w, n', waits') && 1 <= i <= n <= n'
    ensures waits[..i - 1] == waits'[..i - 1] && AnsweredAt(w, waits, i) == AnsweredAt(w, waits', i)
  {
    if i > 1 {
      SameWaits(p, w, n, waits, n', waits', i - 1);
      assert WentOn(p, w, i - 1, waits) && WentOn(p, w, i - 1, waits');
    }
  }

  /** nil exactly on a successful Send; the dead-letter sink is tried, once, exactly on the three
      other transient endings when there is one, so never after a success or a permanent error. */
  lemma OutcomeIsHonest(p: Policy, w: World, n: nat, waits: seq<int>, e: Ending)
    requires Reached(p, w, n, waits) && EndsAt(p, w, n, waits, e)
    ensures var (err, tried) := Outcome(p, w, e);
            && (err.None? <==> w.send(n).None?)
            && (tried <==> p.deadLetter && Transient(w.send(n)))
            && (IsPermanent(w.send(n)) ==> err == w.send(n))
  {
  }

  /** The caller can tell a dead-lettered message from a lost one: ErrDeadLettered is there
      exactly when the sink accepted it (given that no other error carries that mark). */
  lemma DeadLetteredIff(p: Policy, w: World, n: nat, waits: seq<int>, e: Ending)
    requires Reached(p, w, n, waits) && EndsAt(p, w, n, waits, e)
    requires w.send(n).Some? ==> !Is(w.send(n).value, DeadLettered)
    requires w.divert.Some? ==> !Is(w.divert.value, DeadLettered)
    ensures var (err, tried) := Outcome(p, w, e);
            (err.Some? && Is(err.value, DeadLettered)) <==> (tried && w.divert.None?)
  {
    if Transient(w.send(n)) {
      DeadLetterIs(p, w, w.send(n).value, DeadLettered);
      JoinIs(Leaf(RetryBudgetExhausted), w.send(n).value, DeadLettered);
      DeadLetterIs(p, w, Join([Leaf(RetryBudgetExhausted), w.send(n).value]), DeadLettered);
      JoinIs(DeadLetter(p, w, w.send(n).value).0, Leaf(Cancelled), DeadLettered);
    }
  }

  lemma JoinIs(a: Error, b: Error, s: Sentinel)
    ensures Is(Join([a, b]), s) <==> Is(a, s) || Is(b, s)
  {
    assert [a, b][0] == a && [a, b][1] == b;
  }

  lemma DeadLetterIs(p: Policy, w: World, cause: Error, s: Sentinel)
    ensures Is(DeadLetter(p, w, cause).0, s) <==>
            Is(cause, s) || (p.deadLetter && if w.divert.Some? then Is(w.divert.value, s) else s == DeadLettered)
  {
    JoinIs(Leaf(DeadLettered), cause, s);
    if w.divert.Some? {
      JoinIs(cause, w.divert.value, s);
    }
  }

  /** Exactly what a failing call's error answers to: what its last send's error did, the budget
      stop if it was one, the cancellation if the caller left, and of the dead-letter sink, if it was
      tried, its own failure or its acceptance. */
  lemma CauseIsKept(p: Policy, w: World, n: nat, waits: seq<int>, e: Ending, s: Sentinel)
    requires Reached(p, w, n, waits) && EndsAt(p, w, n, waits, e) && w.send(n).Some?
    ensures
      var (err, tried) := Outcome(p, w, e);
      && err.Some?
      && (Is(err.value, s) <==>
            || Is(w.send(n).value, s)
            || (e.BudgetSpent? && s == RetryBudgetExhausted)
            || (e.CallerLeft? && s == Cancelled)
            || (tried && if w.divert.Some? then Is(w.divert.value, s) else s == DeadLettered))
  {
    var cause := w.send(n).value;
    var budget := Join([Leaf(RetryBudgetExhausted), cause]);
    DeadLetterIs(p, w, cause, s);
    JoinIs(Leaf(RetryBudgetExhausted), cause, s);
    DeadLetterIs(p, w, budget, s);
    JoinIs(DeadLetter(p, w, cause).0, Leaf(Cancelled), s);
  }
}
