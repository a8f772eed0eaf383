/** resilience/ratelimit.go, with times and tokens as reals. */
module RateLimit {

  datatype Bucket = Bucket(tokens: real, last: real, burst: real, interval: real) {
    predicate Valid() {
      0.0 <= tokens <= burst && burst >= 1.0 && interval > 0.0
    }
  }

  function Full(burst: real, interval: real, now: real): Bucket {
    Bucket(burst, now, burst, interval)
  }

  function Refill(b: Bucket, now: real): Bucket
    requires b.interval > 0.0
  {
    if now <= b.last then b
    else
      var tokens := b.tokens + (now - b.last) / b.interval;
      b.(last := now, tokens := if tokens > b.burst then b.burst else tokens)
  }

  /** One pass of the critical section of Wait: whether it took a token. */
  function Take(b: Bucket, now: real): (Bucket, bool)
    requires b.interval > 0.0
  {
    var r := Refill(b, now);
    if r.tokens >= 1.0 then (r.(tokens := r.tokens - 1.0), true) else (r, false)
  }

  class TokenBucket {
    var tokens: real
    var last: real
    const burst: real
    const interval: real

    ghost function Value(): Bucket
      reads this
    {
      Bucket(tokens, last, burst, interval)
    }

    constructor (burst: real, interval: real, now: real)
      requires burst >= 1.0 && interval > 0.0
      ensures Value() == Full(burst, interval, now) && Value().Valid()
    {
      tokens, last, this.burst, this.interval := burst, now, burst, interval;
    }

    method RefillNow(now: real)
      requires interval > 0.0
      modifies this
      ensures Value() == Refill(old(Value()), now)
    {
      var elapsed := now - last;
      if elapsed <= 0.0 {
        return;
      }
      last := now;
      tokens := tokens + elapsed / interval;
      if tokens > burst {
        tokens := burst;
      }
    }

    /** One pass of the critical section. */
    method TakeNow(now: real) returns (ok: bool)
      requires Value().Valid()
      modifies this
      ensures (Value(), ok) == Take(old(Value()), now) && Value().Valid()
    {
      StaysValid(Value(), now);
      RefillNow(now);
      ok := tokens >= 1.0;
      if ok {
        tokens := tokens - 1.0;
      }
    }

    /** Passes of other callers while this one waits. */
    method OthersPass(times: seq<real>)
      requires Value().Valid()
      modifies this
      ensures Value() == After(old(Value()), times) && Value().Valid()
    {
      var i := 0;
      while i < |times|
        invariant 0 <= i <= |times| && Value().Valid() && Value() == After(old(Value()), times[..i])
      {
        assert times[..i + 1][..i] == times[..i];
        var ok := TakeNow(times[i]);
        i := i + 1;
      }
      assert times[..i] == times;
    }

    /** Wait, given the clock readings it makes before its context is done and the passes of
        other callers before each: it takes a token at the first of its readings that finds one,
        exactly one, and none if there is no such reading. */
    method Wait(readings: seq<real>, others: seq<seq<real>>) returns (ok: bool, used: nat)
      requires Value().Valid() && |others| == |readings|
      modifies this
      ensures Value().Valid() && used <= |readings| && (ok ==> used >= 1) && (!ok ==> used == |readings|)
      ensures Value() == After(old(Value()), Passes(readings, others, used))
      ensures forall i :: 0 <= i < used ==> (Finds(old(Value()), readings, others, i) <==> ok && i == used - 1)
    {
      var i := 0;
      while i < |readings|
        invariant 0 <= i <= |readings| && Value().Valid() && Waited(old(Value()), readings, others, i, Value())
      {
        ghost var v := Value();
        OthersPass(others[i]);
        NextPass(old(Value()), readings, others, i, v);
        var taken := TakeNow(readings[i]);
        i := i + 1;
        if taken {
          return true, i;
        }
      }
      return false, i;
    }
  }

  /** The passes up to and including the caller's first n readings. */
  function Passes(readings: seq<real>, others: seq<seq<real>>, n: nat): seq<real>
    requires n <= |readings| == |others|
  {
    if n == 0 then [] else Passes(readings, others, n - 1) + others[n - 1] + [readings[n - 1]]
  }

  /** The caller's reading i finds a token. */
  predicate Finds(b: Bucket, readings: seq<real>, others: seq<seq<real>>, i: nat)
    requires i < |readings| == |others| && b.interval > 0.0
  {
    Take(After(b, Passes(readings, others, i) + others[i]), readings[i]).1
  }

  /** The bucket after n readings of the caller, none of which found a token. */
  predicate Waited(b: Bucket, readings: seq<real>, others: seq<seq<real>>, n: nat, v: Bucket)
    requires n <= |readings| == |others| && b.interval > 0.0
  {
    v == After(b, Passes(readings, others, n)) && forall i :: 0 <= i < n ==> !Finds(b, readings, others, i)
  }

  lemma NextPass(b: Bucket, readings: seq<real>, others: seq<seq<real>>, i: nat, v: Bucket)
    requires i < |readings| == |others| && b.interval > 0.0 && Waited(b, readings, others, i, v)
    ensures
      var (v', ok) := Take(After(v, others[i]), readings[i]);
      && v' == After(b, Passes(readings, others, i + 1)) && ok == Finds(b, readings, others, i)
      && (!ok ==> Waited(b, readings, others, i + 1, v'))
  {
    AfterConcat(b, Passes(readings, others, i), others[i]);
    AfterOne(b, Passes(readings, others, i) + others[i], readings[i]);
  }

  lemma AfterOne(b: Bucket, times: seq<real>, now: real)
    requires b.interval > 0.0
    ensures After(b, times + [now]) == Take(After(b, times), now).0
  {
    assert (times + [now])[..|times|] == times;
  }

  lemma {:induction false} AfterConcat(b: Bucket, times: seq<real>, more: seq<real>)
    requires b.interval > 0.0
    ensures After(b, times + more) == After(After(b, times), more)
    decreases |more|
  {
    if more == [] {
      assert times + more == times;
    } else {
      var n := |more| - 1;
      AfterConcat(b, times, more[..n]);
      AfterOne(b, times + more[..n], more[n]);
      assert times + more == times + more[..n] + [more[n]];
    }
  }

  // ---- Any number of callers: one sequence of passes -----------------------------------------

  /** The bucket after passes at the given times, in the order the lock let them in. */
  function After(b: Bucket, times: seq<real>): (r: Bucket)
    requires b.interval > 0.0
    ensures r.interval == b.interval && r.burst == b.burst
  {
    if times == [] then b else Take(After(b, times[..|times| - 1]), times[|times| - 1]).0
  }

  /** How many of them took a token. */
  function Admitted(b: Bucket, times: seq<real>): nat
    requires b.interval > 0.0
  {
    if times == [] then 0
    else
      var n := |times| - 1;
      Admitted(b, times[..n]) + if Take(After(b, times[..n]), times[n]).1 then 1 else 0
  }

  lemma Quotients(x: real, y: real, i: real)
    requires i > 0.0
    ensures (x + y) / i == x / i + y / i
    ensures x <= y ==> x / i <= y / i
    ensures 0.0 <= x ==> 0.0 <= x / i
  {
    assert x / i * i == x && y / i * i == y && (x + y) / i * i == x + y;
  }

  lemma StaysValid(b: Bucket, now: real)
    requires b.Valid()
    ensures Refill(b, now).Valid() && Take(b, now).0.Valid() && Refill(b, now).last >= b.last
  {
    if now > b.last {
      Quotients(now - b.last, now - b.last, b.interval);
    }
  }

  /** Tokens stay within [0, burst] over every run. */
  lemma {:induction false} AlwaysValid(b: Bucket, times: seq<real>)
    requires b.Valid()
    ensures After(b, times).Valid() && After(b, times).last >= b.last
    decreases |times|
  {
    if times != [] {
      AlwaysValid(b, times[..|times| - 1]);
      StaysValid(After(b, times[..|times| - 1]), times[|times| - 1]);
    }
  }

  /** One pass: what it takes and what is left come from what was there and the time gone by. */
  lemma PassPays(b: Bucket, now: real)
    requires b.Valid()
    ensures
      var (b', ok) := Take(b, now);
      (if ok then 1.0 else 0.0) + b'.tokens <= b.tokens + (b'.last - b.last) / b.interval
  {
  }

  /** So over many passes. */
  lemma {:induction false} PassesPay(b: Bucket, times: seq<real>)
    requires b.Valid()
    ensures
      var b' := After(b, times);
      Admitted(b, times) as real + b'.tokens <= b.tokens + (b'.last - b.last) / b.interval
    decreases |times|
  {
    if times != [] {
      var n := |times| - 1;
      var mid, end := After(b, times[..n]), After(b, times);
      PassesPay(b, times[..n]);
      AlwaysValid(b, times[..n]);
      PassPays(mid, times[n]);
      Quotients(mid.last - b.last, end.last - mid.last, b.interval);
      assert (mid.last - b.last) + (end.last - mid.last) == end.last - b.last;
    }
  }

  lemma {:induction false} LastWithin(b: Bucket, times: seq<real>, hi: real)
    requires b.Valid() && b.last <= hi && forall i :: 0 <= i < |times| ==> times[i] <= hi
    ensures After(b, times).last <= hi
    decreases |times|
  {
    if times != [] {
      LastWithin(b, times[..|times| - 1], hi);
    }
  }

  /** At most burst + len / interval. */
  predicate Within(n: int, b: Bucket, len: real)
    requires b.interval > 0.0
  {
    0 <= n && n as real <= b.burst + len / b.interval
  }

  /** The bucket bound: of consecutive passes whose clock readings lie in a window of length
      len, by any number of callers and with any clock, at most burst + len / interval take a
      token. */
  lemma WindowBound(b: Bucket, times: seq<real>, start: real, len: real)
    requires b.Valid() && len >= 0.0 && forall i :: 0 <= i < |times| ==> start <= times[i] <= start + len
    ensures Within(Admitted(b, times), b, len)
  {
    Quotients(len, len, b.interval);
    if times != [] {
      // the first pass caps what had piled up before the window
      var first := Refill(b, times[0]);
      StaysValid(b, times[0]);
      FirstPass(b, times);
      AlwaysValid(first, times);
      PassesPay(first, times);
      var end := After(first, times);
      SpanWithin(b, times, start, len);
      Quotients(end.last - first.last, len, b.interval);
    }
  }

  lemma SpanWithin(b: Bucket, times: seq<real>, start: real, len: real)
    requires b.Valid() && len >= 0.0 && times != [] && forall i :: 0 <= i < |times| ==> start <= times[i] <= start + len
    ensures var first := Refill(b, times[0]); After(first, times).last - first.last <= len
  {
    var first := Refill(b, times[0]);
    StaysValid(b, times[0]);
    LastWithin(first, times, if first.last > start + len then first.last else start + len);
    assert first.last >= times[0] >= start;
  }

  /** Refilling just before a pass at the same time changes nothing. */
  lemma {:induction false} FirstPass(b: Bucket, times: seq<real>)
    requires b.Valid() && times != []
    ensures After(Refill(b, times[0]), times) == After(b, times)
    ensures Admitted(Refill(b, times[0]), times) == Admitted(b, times)
    decreases |times|
  {
    var first, n := Refill(b, times[0]), |times| - 1;
    StaysValid(b, times[0]);
    if n == 0 {
      assert Refill(first, times[0]) == first;
    } else {
      FirstPass(b, times[..n]);
    }
  }

  /** The same for any stretch of a run. */
  lemma RunBound(b: Bucket, times: seq<real>, i: nat, j: nat, start: real, len: real)
    requires b.Valid() && i <= j <= |times| && len >= 0.0
    requires forall k :: i <= k < j ==> start <= times[k] <= start + len
    ensures Within(Admitted(b, times[..j]) - Admitted(b, times[..i]), b, len)
  {
    AlwaysValid(b, times[..i]);
    Split(b, times, i, j);
    WindowBound(After(b, times[..i]), times[i..j], start, len);
  }

  lemma {:induction false} Split(b: Bucket, times: seq<real>, i: nat, j: nat)
    requires b.Valid() && i <= j <= |times|
    ensures After(b, times[..j]) == After(After(b, times[..i]), times[i..j])
    ensures Admitted(b, times[..j]) == Admitted(b, times[..i]) + Admitted(After(b, times[..i]), times[i..j])
    decreases j
  {
    if i < j {
      Split(b, times, i, j - 1);
      assert times[..j][..j - 1] == times[..j - 1];
      assert times[i..j][..j - 1 - i] == times[i..j - 1];
    }
  }

  // ---- When a pass must succeed ----------------------------------------------------------------

  /** The latest reading of the first n passes, or of the refill before them. */
  function Latest(b: Bucket, times: seq<real>, n: nat): real
    requires n <= |times|
  {
    if n == 0 then b.last
    else
      var before := Latest(b, times, n - 1);
      if times[n - 1] > before then times[n - 1] else before
  }

  /** What the bound leaves to pass n in the stretch that starts at pass i: burst and what accrued
      since, less what the passes from i on took. For i == -1, with what was there at first. */
  function Room(b: Bucket, times: seq<real>, i: int, n: nat): real
    requires b.interval > 0.0 && -1 <= i <= n < |times|
  {
    if i < 0 then b.tokens + (Latest(b, times, n + 1) - b.last) / b.interval - Admitted(b, times[..n]) as real
    else
      b.burst + (Latest(b, times, n + 1) - Latest(b, times, i + 1)) / b.interval
      - (Admitted(b, times[..n]) - Admitted(b, times[..i])) as real
  }

  /** The tokens pass n finds, once refilled. */
  function Found(b: Bucket, times: seq<real>, n: nat): real
    requires b.interval > 0.0 && n < |times|
  {
    Refill(After(b, times[..n]), times[n]).tokens
  }

  lemma {:induction false} LatestIs(b: Bucket, times: seq<real>, n: nat)
    requires b.interval > 0.0 && n <= |times|
    ensures After(b, times[..n]).last == Latest(b, times, n)
  {
    if n > 0 {
      LatestIs(b, times, n - 1);
      assert times[..n][..n - 1] == times[..n - 1];
    }
  }

  lemma RoomNext(b: Bucket, times: seq<real>, i: int, n: nat)
    requires b.interval > 0.0 && -1 <= i <= n && n + 1 < |times|
    ensures Room(b, times, i, n + 1) ==
      Room(b, times, i, n) + (Latest(b, times, n + 2) - Latest(b, times, n + 1)) / b.interval
      - if Found(b, times, n) >= 1.0 then 1.0 else 0.0
  {
    assert times[..n + 1][..n] == times[..n];
    var from := if i < 0 then b.last else Latest(b, times, i + 1);
    var mid, end := Latest(b, times, n + 1), Latest(b, times, n + 2);
    Quotients(mid - from, end - mid, b.interval);
    assert (mid - from) + (end - mid) == end - from;
  }

  lemma FoundNext(b: Bucket, times: seq<real>, n: nat)
    requires b.Valid() && n + 1 < |times|
    ensures
      var left := Found(b, times, n) - if Found(b, times, n) >= 1.0 then 1.0 else 0.0;
      var more := left + (Latest(b, times, n + 2) - Latest(b, times, n + 1)) / b.interval;
      Found(b, times, n + 1) == if more > b.burst then b.burst else more
  {
    assert times[..n + 1][..n] == times[..n];
    LatestIs(b, times, n + 1);
    AlwaysValid(b, times[..n + 1]);
    Quotients(0.0, 0.0, b.interval);
  }

  lemma RoomOfOne(b: Bucket, times: seq<real>, n: nat)
    requires b.Valid() && n < |times|
    ensures Room(b, times, n, n) == b.burst && Found(b, times, n) <= b.burst
  {
    AlwaysValid(b, times[..n]);
    Quotients(0.0, 0.0, b.interval);
  }

  lemma FoundFirst(b: Bucket, times: seq<real>)
    requires b.Valid() && times != []
    ensures Found(b, times, 0) == if Room(b, times, -1, 0) > b.burst then b.burst else Room(b, times, -1, 0)
  {
    assert times[..0] == [];
    Quotients(0.0, 0.0, b.interval);
  }

  /** What a pass finds is the least of what any stretch leaves it. */
  lemma {:induction false} FoundIsLeast(b: Bucket, times: seq<real>, n: nat) returns (i: int)
    requires b.Valid() && n < |times|
    ensures -1 <= i <= n && Found(b, times, n) == Room(b, times, i, n)
    ensures forall j :: -1 <= j <= n ==> Found(b, times, n) <= Room(b, times, j, n)
  {
    RoomOfOne(b, times, n);
    if n == 0 {
      FoundFirst(b, times);
      i := if Found(b, times, 0) == b.burst then 0 else -1;
    } else {
      var k := FoundIsLeast(b, times, n - 1);
      FoundNext(b, times, n - 1);
      forall j | -1 <= j < n ensures Found(b, times, n) <= Room(b, times, j, n) {
        RoomNext(b, times, j, n - 1);
      }
      RoomNext(b, times, k, n - 1);
      i := if Found(b, times, n) == b.burst then n else k;
    }
  }

  /** Nobody waits for nothing: a pass takes a token if and only if every stretch of passes that
      ends with it then still keeps to the bound, so the passes admitted are as many as the bound
      allows. */
  lemma TakesIff(b: Bucket, times: seq<real>, n: nat)
    requires b.Valid() && n < |times|
    ensures Take(After(b, times[..n]), times[n]).1 <==> forall i :: -1 <= i <= n ==> Room(b, times, i, n) >= 1.0
  {
    var i := FoundIsLeast(b, times, n);
  }
}
