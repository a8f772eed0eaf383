/** Counting facts about sequences and sets of numbers that several protocols rest on. */
module Collections {

  function Min(a: int, b: int): int {
    if a <= b then a else b
  }

  function Max(a: int, b: int): int {
    if a >= b then a else b
  }

  predicate Distinct(ns: seq<nat>) {
    forall i, j :: 0 <= i < j < |ns| ==> ns[i] != ns[j]
  }

  function Members(ns: seq<nat>): set<nat> {
    set i | 0 <= i < |ns| :: ns[i]
  }

  lemma InMembers(ns: seq<nat>, n: nat)
    ensures n in ns <==> n in Members(ns)
  {
  }

  lemma {:induction false} MembersSize(ns: seq<nat>)
    requires Distinct(ns)
    ensures |Members(ns)| == |ns|
    decreases |ns|
  {
    if ns == [] {
      assert Members(ns) == {};
    } else {
      var k := |ns| - 1;
      MembersSize(ns[..k]);
      assert ns[k] !in Members(ns[..k]);
      assert Members(ns) == Members(ns[..k]) + {ns[k]};
    }
  }

  lemma SubsetSize(a: set<nat>, b: set<nat>)
    requires a <= b
    ensures |a| <= |b| && (|a| == |b| ==> a == b)
  {
    assert b == a + (b - a);
    assert |b| == |a| + |b - a|;
  }

  function Range(n: nat): set<nat> {
    if n == 0 then {} else Range(n - 1) + {n - 1}
  }

  lemma {:induction false} RangeSize(n: nat)
    ensures |Range(n)| == n
    ensures forall i: nat :: i in Range(n) <==> i < n
  {
    if n > 0 {
      RangeSize(n - 1);
    }
  }

  /** Different numbers below n: at most n of them, and n exactly when each occurs. */
  lemma Pigeonhole(ns: seq<nat>, n: nat)
    requires Distinct(ns) && forall q :: 0 <= q < |ns| ==> ns[q] < n
    ensures |ns| <= n
    ensures |ns| == n <==> forall i :: 0 <= i < n ==> i in ns
  {
    MembersSize(ns);
    RangeSize(n);
    var all := Members(ns);
    forall i: nat ensures i in ns <==> i in all {
      InMembers(ns, i);
    }
    assert all <= Range(n);
    SubsetSize(all, Range(n));
    if forall i :: 0 <= i < n ==> i in ns {
      assert all == Range(n);
    }
  }
}
