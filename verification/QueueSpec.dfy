/** The queue of adapter/memory/queuestore.go on values: what each of its critical sections
    does to the ready list, the claimed entries and the fence counter. */
module QueueSpec {
  import opened Messages

  datatype Entry = Entry(msg: Message, visibleAt: int, epoch: nat)

  datatype Queue = Queue(ready: seq<Entry>, inflight: map<nat, Entry>, epoch: nat)

  const NEW_QUEUE := Queue([], map[], 0)

  predicate Visible(e: Entry, now: int) {
    e.visibleAt <= now
  }

  /** What a claim takes of the first n ready entries, oldest first, each stamped with the next
      fence token. */
  function Taken(ready: seq<Entry>, n: nat, now: int, max: int, epoch: nat): (r: seq<Entry>)
    requires n <= |ready|
  {
    if n == 0 then []
    else
      var e, before := ready[n - 1], Taken(ready, n - 1, now, max, epoch);
      if |before| < max && Visible(e, now) then before + [e.(epoch := epoch + 1 + |before|)] else before
  }

  /** And what it leaves of them, in order. */
  function Kept(ready: seq<Entry>, n: nat, now: int, max: int, epoch: nat): (r: seq<Entry>)
    requires n <= |ready|
  {
    if n == 0 then []
    else
      var e, before := ready[n - 1], Kept(ready, n - 1, now, max, epoch);
      if |Taken(ready, n - 1, now, max, epoch)| < max && Visible(e, now) then before else before + [e]
  }

  function Leased(inflight: map<nat, Entry>, claimed: seq<Entry>): map<nat, Entry> {
    if claimed == [] then inflight
    else
      var e := claimed[|claimed| - 1];
      Leased(inflight, claimed[..|claimed| - 1])[e.epoch := e]
  }

  function Claim(q: Queue, now: int, max: int): (Queue, seq<Entry>) {
    var n := |q.ready|;
    var claimed := Taken(q.ready, n, now, max, q.epoch);
    (Queue(Kept(q.ready, n, now, max, q.epoch), Leased(q.inflight, claimed), q.epoch + |claimed|), claimed)
  }

  function Append(q: Queue, msg: Message, now: int): Queue {
    q.(ready := q.ready + [Entry(msg, now, 0)])
  }

  /** shed under DropOldest: the head makes room for the newcomer; false when nothing is ready. */
  function EvictAndAppend(q: Queue, msg: Message, now: int): (Queue, bool) {
    if q.ready == [] then (q, false)
    else (q.(ready := q.ready[1..] + [Entry(msg, now, 0)]), true)
  }

  /** The critical section of Ack, and of Nack without requeue: whether the token was live. */
  function Settle(q: Queue, epoch: nat): (Queue, bool) {
    (q.(inflight := q.inflight - {epoch}), epoch in q.inflight)
  }

  /** The critical section of Nack with requeue: back to the tail, hidden until the delay. */
  function Requeue(q: Queue, epoch: nat, now: int, delay: int): (Queue, bool) {
    if epoch !in q.inflight then (q, false)
    else
      var e := q.inflight[epoch].(visibleAt := now + delay, epoch := 0);
      (q.(inflight := q.inflight - {epoch}, ready := q.ready + [e]), true)
  }

  // ---- A claim takes the first visible entries and leaves the rest in order ---------------

  /** The visible, or the hidden, among the first n entries. */
  function Filter(ready: seq<Entry>, n: nat, now: int, visible: bool): seq<Entry>
    requires n <= |ready|
  {
    if n == 0 then []
    else Filter(ready, n - 1, now, visible) + if Visible(ready[n - 1], now) == visible then [ready[n - 1]] else []
  }

  /** The same entries, stamped with consecutive tokens. */
  predicate StampedAs(claimed: seq<Entry>, entries: seq<Entry>, epoch: nat) {
    |claimed| == |entries| && forall i :: 0 <= i < |claimed| ==> claimed[i] == entries[i].(epoch := epoch + 1 + i)
  }

  /** Up to some cut the claim takes every visible entry and keeps every hidden one; it keeps
      everything after the cut, and cuts early only once it has taken max. */
  lemma {:induction false} ClaimTakesFirstVisible(ready: seq<Entry>, n: nat, now: int, max: int, epoch: nat)
    returns (cut: nat)
    requires n <= |ready|
    ensures cut <= n
    ensures StampedAs(Taken(ready, n, now, max, epoch), Filter(ready, cut, now, true), epoch)
    ensures Kept(ready, n, now, max, epoch) == Filter(ready, cut, now, false) + ready[cut..n]
    ensures cut < n ==> |Taken(ready, n, now, max, epoch)| >= max
  {
    if n == 0 {
      return 0;
    }
    cut := ClaimTakesFirstVisible(ready, n - 1, now, max, epoch);
    if cut == n - 1 && |Taken(ready, n - 1, now, max, epoch)| < max {
      cut := n;
    } else {
      assert |Taken(ready, n - 1, now, max, epoch)| >= max;
      assert ready[cut..n] == ready[cut..n - 1] + [ready[n - 1]];
    }
  }

  /** Fence tokens: those of the in-flight entries are their keys and have been issued. */
  predicate ValidQueue(q: Queue) {
    && (forall k :: k in q.inflight ==> q.inflight[k].epoch == k && 1 <= k <= q.epoch)
    && Unstamped(q.ready)
  }

  predicate Consecutive(claimed: seq<Entry>, epoch: nat) {
    forall i :: 0 <= i < |claimed| ==> claimed[i].epoch == epoch + 1 + i
  }

  lemma {:induction false} ClaimCounts(ready: seq<Entry>, n: nat, now: int, max: int, epoch: nat)
    requires n <= |ready|
    ensures |Taken(ready, n, now, max, epoch)| + |Kept(ready, n, now, max, epoch)| == n
    ensures |Taken(ready, n, now, max, epoch)| <= if max < 0 then 0 else max
    ensures Consecutive(Taken(ready, n, now, max, epoch), epoch)
  {
    if n > 0 {
      ClaimCounts(ready, n - 1, now, max, epoch);
    }
  }

  lemma {:induction false} LeasedKeys(inflight: map<nat, Entry>, claimed: seq<Entry>, epoch: nat)
    requires (forall k :: k in inflight ==> k <= epoch) && Consecutive(claimed, epoch)
    ensures forall k :: k in Leased(inflight, claimed) <==> k in inflight || epoch < k <= epoch + |claimed|
    ensures |Leased(inflight, claimed)| == |inflight| + |claimed|
    decreases |claimed|
  {
    if claimed != [] {
      LeasedKeys(inflight, claimed[..|claimed| - 1], epoch);
    }
  }

  lemma {:induction false} LeasedValues(inflight: map<nat, Entry>, claimed: seq<Entry>, epoch: nat)
    requires (forall k :: k in inflight ==> k <= epoch) && Consecutive(claimed, epoch)
    ensures forall k :: k in inflight ==> k in Leased(inflight, claimed) && Leased(inflight, claimed)[k] == inflight[k]
    ensures forall k :: epoch < k <= epoch + |claimed| ==>
              k in Leased(inflight, claimed) && Leased(inflight, claimed)[k] == claimed[k - epoch - 1]
    decreases |claimed|
  {
    if claimed != [] {
      LeasedValues(inflight, claimed[..|claimed| - 1], epoch);
    }
  }

  predicate Unstamped(ready: seq<Entry>) {
    forall i :: 0 <= i < |ready| ==> ready[i].epoch == 0
  }

  lemma {:induction false} KeptIsUnstamped(ready: seq<Entry>, n: nat, now: int, max: int, epoch: nat)
    requires n <= |ready| && Unstamped(ready)
    ensures Unstamped(Kept(ready, n, now, max, epoch))
  {
    if n > 0 {
      KeptIsUnstamped(ready, n - 1, now, max, epoch);
    }
  }

  lemma ClaimKeepsValid(q: Queue, now: int, max: int)
    requires ValidQueue(q)
    ensures ValidQueue(Claim(q, now, max).0)
    ensures |Claim(q, now, max).0.ready| + |Claim(q, now, max).0.inflight| == |q.ready| + |q.inflight|
  {
    var (q', claimed) := Claim(q, now, max);
    ClaimCounts(q.ready, |q.ready|, now, max, q.epoch);
    KeptIsUnstamped(q.ready, |q.ready|, now, max, q.epoch);
    LeasedIsValid(q.inflight, claimed, q.epoch);
  }

  lemma LeasedIsValid(inflight: map<nat, Entry>, claimed: seq<Entry>, epoch: nat)
    requires (forall k :: k in inflight ==> inflight[k].epoch == k && 1 <= k <= epoch) && Consecutive(claimed, epoch)
    ensures forall k :: k in Leased(inflight, claimed) ==>
      Leased(inflight, claimed)[k].epoch == k && 1 <= k <= epoch + |claimed|
    ensures |Leased(inflight, claimed)| == |inflight| + |claimed|
  {
    LeasedKeys(inflight, claimed, epoch);
    LeasedValues(inflight, claimed, epoch);
  }

  lemma SizeLess<V>(m: map<nat, V>, k: nat)
    ensures |m - {k}| == if k in m then |m| - 1 else |m|
  {
    if k in m {
      assert m == (m - {k})[k := m[k]];
    } else {
      assert m - {k} == m;
    }
  }

  lemma AppendKeepsValid(q: Queue, msg: Message, now: int)
    requires ValidQueue(q)
    ensures ValidQueue(Append(q, msg, now)) && |Append(q, msg, now).ready| == |q.ready| + 1
  {
  }

  lemma EvictKeepsValid(q: Queue, msg: Message, now: int)
    requires ValidQueue(q)
    ensures ValidQueue(EvictAndAppend(q, msg, now).0) && |EvictAndAppend(q, msg, now).0.ready| == |q.ready|
  {
  }

  lemma SettleKeepsValid(q: Queue, token: nat)
    requires ValidQueue(q)
    ensures ValidQueue(Settle(q, token).0)
    ensures |Settle(q, token).0.inflight| == |q.inflight| - if token in q.inflight then 1 else 0
  {
    SizeLess(q.inflight, token);
  }

  lemma RequeueKeepsValid(q: Queue, token: nat, now: int, delay: int)
    requires ValidQueue(q)
    ensures ValidQueue(Requeue(q, token, now, delay).0)
    ensures var q' := Requeue(q, token, now, delay).0; |q'.ready| + |q'.inflight| == |q.ready| + |q.inflight|
  {
    SizeLess(q.inflight, token);
  }
}
