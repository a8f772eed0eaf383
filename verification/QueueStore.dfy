/** adapter/memory/queuestore.go in its own form: a slice over a backing array, the in-flight
    map, the epoch counter and the semaphore, each critical section proved to do what QueueSpec
    says. */
module MemoryQueueStore {
  import opened Messages
  import opened QueueSpec
  import opened QueueMachine

  const CLEARED := Entry(Message(map[], 0, 0), 0, 0)

  /** What Enqueue comes to: nil, ErrOverflowDropped, or a wait for a slot or the context. */
  datatype Outcome = Nil | Overflowed | Waits

  class QueueStore {
    var buf: array<Entry>   // the backing array of ready
    var lo: nat             // ready is buf[lo..hi]
    var hi: nat
    var inflight: map<nat, Entry>
    var epoch: nat
    var sem: nat            // occupied slots
    const capacity: nat

    ghost predicate Valid()
      reads this
    {
      lo <= hi <= buf.Length && sem <= capacity && hi - lo + |inflight| <= sem
    }

    ghost function Value(): Queue
      reads this, buf
      requires Valid()
    {
      Queue(buf[lo..hi], inflight, epoch)
    }

    constructor (capacity: nat)
      ensures Valid() && Value() == NEW_QUEUE && sem == 0 && this.capacity == capacity && fresh(buf)
    {
      buf := new Entry[0];
      lo, hi, inflight, epoch, sem, this.capacity := 0, 0, map[], 0, 0, capacity;
    }

    /** A send on the semaphore channel that does not wait. */
    method TrySlot() returns (ok: bool)
      requires Valid()
      modifies this`sem
      ensures Valid() && ok == (old(sem) < capacity) && sem == if ok then old(sem) + 1 else old(sem)
    {
      ok := sem < capacity;
      if ok {
        sem := sem + 1;
      }
    }

    /** append: in place while the backing array has room, else into a larger copy. */
    method AppendReady(e: Entry)
      requires Valid() && hi - lo + |inflight| < sem
      modifies this`buf, this`lo, this`hi, buf
      ensures Valid() && (buf == old(buf) || fresh(buf))
      ensures Value() == old(Value()).(ready := old(Value()).ready + [e])
    {
      if hi == buf.Length {
        var grown := Grown();
        buf, lo, hi := grown, 0, hi - lo;
      }
      ghost var ready := buf[lo..hi];
      buf[hi] := e;
      hi := hi + 1;
      assert buf[lo..hi] == ready + [e];
    }

    method Grown() returns (grown: array<Entry>)
      requires Valid()
      ensures fresh(grown) && grown.Length == 2 * (hi - lo) + 1 && grown[..hi - lo] == buf[lo..hi]
    {
      grown := new Entry[2 * (hi - lo) + 1];
      var i := 0;
      while i < hi - lo
        invariant 0 <= i <= hi - lo && forall j :: 0 <= j < i ==> grown[j] == buf[lo + j]
      {
        grown[i] := buf[lo + i];
        i := i + 1;
      }
    }

    /** The section of Enqueue after the slot is taken. */
    method AppendMessage(msg: Message, now: int)
      requires Valid() && hi - lo + |inflight| < sem
      modifies this`buf, this`lo, this`hi, buf
      ensures Valid() && (buf == old(buf) || fresh(buf))
      ensures Value() == Append(old(Value()), msg, now)
    {
      AppendReady(Entry(msg, now, 0));
    }

    /** The section of shed under DropOldest. */
    method Evict(msg: Message, now: int) returns (ok: bool)
      requires Valid()
      modifies this`buf, this`lo, this`hi, buf
      ensures Valid() && (buf == old(buf) || fresh(buf))
      ensures (Value(), ok) == EvictAndAppend(old(Value()), msg, now)
    {
      ok := lo < hi;
      if ok {
        lo := lo + 1;
        AppendReady(Entry(msg, now, 0));
      }
    }

    /** Enqueue, up to where it would wait: under Block a full store, and nothing else, leaves the
        call blocked and the store as it was. */
    method Enqueue(msg: Message, now: int, policy: Policy) returns (outcome: Outcome)
      requires Valid()
      modifies this`buf, this`lo, this`hi, this`sem, buf
      ensures Valid() && (buf == old(buf) || fresh(buf))
      ensures old(sem) < capacity ==> outcome == Nil && sem == old(sem) + 1 && Value() == Append(old(Value()), msg, now)
      ensures old(sem) == capacity ==> sem == old(sem)
      ensures old(sem) == capacity && policy == DropOldest && old(Value()).ready != [] ==>
                outcome == Nil && Value() == EvictAndAppend(old(Value()), msg, now).0
      ensures old(sem) == capacity && !(policy == DropOldest && old(Value()).ready != []) ==>
                Value() == old(Value())
                  && outcome == (if policy == Block then Waits else if policy == DropNewest then Nil else Overflowed)
    {
      var ok := TrySlot();
      if ok {
        AppendMessage(msg, now);
        return Nil;
      }
      match policy
      case Block => outcome := Waits;
      case DropNewest => outcome := Nil;
      case Reject => outcome := Overflowed;
      case DropOldest =>
        var evicted := Evict(msg, now);
        outcome := if evicted then Nil else Overflowed;
    }

    method Claim(max: int, now: int) returns (out: seq<Entry>)
      requires Valid() && ValidQueue(Value())
      modifies this`hi, this`inflight, this`epoch, buf
      ensures Valid() && ValidQueue(Value())
      ensures (Value(), out) == QueueSpec.Claim(old(Value()), now, max)
      ensures max > 0 ==> forall i :: hi <= i < old(hi) ==> buf[i] == CLEARED
    {
      ghost var q := Value();
      ClaimKeepsValid(q, now, max);
      if max <= 0 {
        NothingTaken(q.ready, |q.ready|, now, max, q.epoch);
        assert q.ready[..|q.ready|] == q.ready;
        return [];
      }
      out := TakeVisible(max, now, q.ready);
    }

    method TakeVisible(max: int, now: int, ghost ready: seq<Entry>) returns (out: seq<Entry>)
      requires lo <= hi <= buf.Length && ready == buf[lo..hi]
      modifies this`hi, this`inflight, this`epoch, buf
      ensures lo <= hi <= old(hi) && buf[lo..hi] == Kept(ready, |ready|, now, max, old(epoch))
      ensures out == Taken(ready, |ready|, now, max, old(epoch))
      ensures epoch == old(epoch) + |out| && inflight == Leased(old(inflight), out)
      ensures forall i :: hi <= i < old(hi) ==> buf[i] == CLEARED
    {
      var end;
      out, end := Compact(max, now, ready);
      Clear(end, hi);
      hi := end;
    }

    ghost predicate Holds(end: nat, kept: seq<Entry>)
      reads this, buf
    {
      lo <= end <= hi <= buf.Length && |kept| == end - lo && forall j :: lo <= j < end ==> buf[j] == kept[j - lo]
    }

    /** The loop of Claim: the kept entries move towards the front of the same array. */
    method Compact(max: int, now: int, ghost ready: seq<Entry>) returns (out: seq<Entry>, end: nat)
      requires lo <= hi <= buf.Length && ready == buf[lo..hi]
      modifies this`inflight, this`epoch, buf
      ensures Holds(end, Kept(ready, |ready|, now, max, old(epoch)))
      ensures out == Taken(ready, |ready|, now, max, old(epoch))
      ensures epoch == old(epoch) + |out| && inflight == Leased(old(inflight), out)
    {
      out, end := [], lo;
      var i := lo;
      ghost var kept: seq<Entry> := [];
      while i < hi
        invariant lo <= end <= i <= hi && Holds(end, kept)
        invariant forall j :: i <= j < hi ==> buf[j] == old(buf[j])
        invariant kept == Kept(ready, i - lo, now, max, old(epoch))
        invariant out == Taken(ready, i - lo, now, max, old(epoch))
        invariant epoch == old(epoch) + |out| && inflight == Leased(old(inflight), out)
      {
        ghost var e := ready[i - lo];
        assert buf[i] == e;
        LeaseOne(old(inflight), out, e.(epoch := epoch + 1));
        StepKept(ready, i - lo, now, max, old(epoch));
        kept := Kept(ready, i - lo + 1, now, max, old(epoch));
        out, end := Visit(i, end, out, max, now, Kept(ready, i - lo, now, max, old(epoch)));
        i := i + 1;
      }
    }

    /** One turn of that loop. */
    method Visit(i: nat, end: nat, out: seq<Entry>, max: int, now: int, ghost kept: seq<Entry>)
      returns (out': seq<Entry>, end': nat)
      requires lo <= end <= i < hi <= buf.Length && Holds(end, kept)
      modifies this`inflight, this`epoch, buf
      ensures end' <= i + 1 && forall j :: i < j < hi ==> buf[j] == old(buf[j])
      ensures if |out| < max && Visible(old(buf[i]), now)
              then && epoch == old(epoch) + 1 && inflight == old(inflight)[epoch := old(buf[i]).(epoch := epoch)]
                   && out' == out + [old(buf[i]).(epoch := epoch)] && Holds(end', kept)
              else epoch == old(epoch) && inflight == old(inflight) && out' == out && Holds(end', kept + [old(buf[i])])
    {
      var e := buf[i];
      out', end' := out, end;
      if |out| < max && e.visibleAt <= now {
        e := Lease(e);
        out' := out + [e];
      } else {
        buf[end] := e;
        end' := end + 1;
      }
    }

    method Lease(e: Entry) returns (leased: Entry)
      modifies this`inflight, this`epoch
      ensures epoch == old(epoch) + 1 && leased == e.(epoch := epoch) && inflight == old(inflight)[epoch := leased]
    {
      epoch := epoch + 1;
      leased := e.(epoch := epoch);
      inflight := inflight[leased.epoch := leased];
    }

    /** clear(s.ready[len(kept):len(s.ready)]). */
    method Clear(from: nat, to: nat)
      requires from <= to <= buf.Length
      modifies buf
      ensures forall j :: from <= j < to ==> buf[j] == CLEARED
      ensures forall j :: 0 <= j < from || to <= j < buf.Length ==> buf[j] == old(buf[j])
    {
      var i := from;
      while i < to
        invariant from <= i <= to
        invariant forall j :: from <= j < i ==> buf[j] == CLEARED
        invariant forall j :: 0 <= j < from || to <= j < buf.Length ==> buf[j] == old(buf[j])
      {
        buf[i] := CLEARED;
        i := i + 1;
      }
    }

    method Ack(token: nat)
      requires Valid()
      modifies this`inflight, this`sem
      ensures Valid()
      ensures (Value(), old(sem) != sem) == Settle(old(Value()), token) && old(sem) - 1 <= sem <= old(sem)
    {
      var ok := token in inflight;
      SizeLess(inflight, token);
      inflight := inflight - {token};
      if ok {
        sem := sem - 1;
      }
    }

    method Nack(token: nat, requeue: bool, now: int, delay: int)
      requires Valid()
      modifies this`inflight, this`sem, this`buf, this`lo, this`hi, buf
      ensures Valid() && (buf == old(buf) || fresh(buf))
      ensures requeue ==> sem == old(sem) && Value() == Requeue(old(Value()), token, now, delay).0
      ensures !requeue ==> old(sem) - 1 <= sem <= old(sem) && (Value(), old(sem) != sem) == Settle(old(Value()), token)
    {
      if token !in inflight {
        assert inflight - {token} == inflight;
        return;
      }
      var e := inflight[token];
      SizeLess(inflight, token);
      inflight := inflight - {token};
      if !requeue {
        sem := sem - 1;
        return;
      }
      AppendReady(e.(visibleAt := now + delay, epoch := 0));
    }
  }

  lemma LeaseOne(m: map<nat, Entry>, out: seq<Entry>, e: Entry)
    ensures Leased(m, out + [e]) == Leased(m, out)[e.epoch := e]
  {
    assert (out + [e])[..|out|] == out;
  }

  lemma StepKept(ready: seq<Entry>, n: nat, now: int, max: int, epoch: nat)
    requires n < |ready|
    ensures
      var e, kept, taken := ready[n], Kept(ready, n, now, max, epoch), Taken(ready, n, now, max, epoch);
      if |taken| < max && Visible(e, now)
      then Kept(ready, n + 1, now, max, epoch) == kept
        && Taken(ready, n + 1, now, max, epoch) == taken + [e.(epoch := epoch + 1 + |taken|)]
      else Kept(ready, n + 1, now, max, epoch) == kept + [e] && Taken(ready, n + 1, now, max, epoch) == taken
  {
  }

  lemma NothingTaken(ready: seq<Entry>, n: nat, now: int, max: int, epoch: nat)
    requires n <= |ready| && max <= 0
    ensures Taken(ready, n, now, max, epoch) == [] && Kept(ready, n, now, max, epoch) == ready[..n]
  {
  }
}
