/** endpoint/attempts.go: the attempt tracker on values, and in its own form. */
module Attempts {

  datatype Attempt = Attempt(count: nat, lastSeen: int)

  function Observe(tracker: map<string, Attempt>, id: string, now: int): (tracker': map<string, Attempt>)
    ensures id in tracker'
  {
    tracker[id := Attempt(CountOf(tracker, id) + 1, now)]
  }

  function CountOf(tracker: map<string, Attempt>, id: string): nat {
    if id in tracker then tracker[id].count else 0
  }

  function Evict(tracker: map<string, Attempt>, id: string): map<string, Attempt> {
    tracker - {id}
  }

  predicate Idle(e: Attempt, now: int, ttl: int) {
    now - e.lastSeen >= ttl
  }

  /** sweep: what has been idle for the ttl or longer goes. */
  function Sweep(tracker: map<string, Attempt>, now: int, ttl: int): map<string, Attempt> {
    map id | id in tracker && !Idle(tracker[id], now, ttl) :: tracker[id]
  }

  class AttemptTracker {
    var m: map<string, Attempt>
    const ttl: int

    constructor (ttl: int)
      ensures m == map[] && this.ttl == ttl
    {
      m, this.ttl := map[], ttl;
    }

    method ObserveOne(id: string, now: int) returns (n: nat)
      modifies this
      ensures m == Observe(old(m), id, now) && n == CountOf(m, id) == CountOf(old(m), id) + 1
    {
      var e := if id in m then m[id] else Attempt(0, 0);
      e := e.(count := e.count + 1);
      e := e.(lastSeen := now);
      m := m[id := e];
      n := e.count;
    }

    method SweepIdle(now: int)
      modifies this
      ensures m == Sweep(old(m), now, ttl)
    {
      ghost var before := m;
      var left := m.Keys;
      while left != {}
        invariant left <= before.Keys
        invariant forall id :: id in m <==> id in before && (id in left || !Idle(before[id], now, ttl))
        invariant forall id :: id in m ==> m[id] == before[id]
        decreases left
      {
        var id :| id in left;
        left := left - {id};
        if now - m[id].lastSeen >= ttl {
          m := m - {id};
        }
      }
    }
  }
}
