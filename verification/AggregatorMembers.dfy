/** Accounts of the group store under the Aggregator: what Add stored is held in exactly one
    group or was settled exactly once, never lost and never doubled. */
module AggregatorMembers {
  import opened Messages
  import opened GroupStoreSpec
  import opened Aggregator
  import opened AggregatorLeases

  ghost predicate InStore(store: Store, d: nat) {
    exists k :: k in store.groups && d in Deliveries(store.groups[k].msgs)
  }

  ghost predicate DistinctDeliveries(msgs: seq<Message>) {
    forall i, j :: 0 <= i < j < |msgs| ==> msgs[i].delivery != msgs[j].delivery
  }

  /** Every member of the group is an accepted delivery, stored as it was handed over. */
  ghost predicate MembersAccepted(msgs: seq<Message>, l: Ledger) {
    forall i :: 0 <= i < |msgs| ==>
      msgs[i].delivery in l.accepted && msgs[i].delivery in l.handles && l.handles[msgs[i].delivery] == msgs[i]
  }

  ghost predicate MembersInv(store: Store, l: Ledger) {
    && (forall k :: k in store.groups ==>
          MembersAccepted(store.groups[k].msgs, l) && DistinctDeliveries(store.groups[k].msgs))
    && (forall k, k' :: k in store.groups && k' in store.groups && k != k' ==>
          Deliveries(store.groups[k].msgs) !! Deliveries(store.groups[k'].msgs))
    && l.accepted <= l.handles.Keys
    && l.settledOut <= l.accepted && l.settledExpired <= l.accepted && l.settledOut !! l.settledExpired
    && (forall d :: d in l.accepted ==> (InStore(store, d) <==> d !in l.settledOut && d !in l.settledExpired))
  }

  lemma DeliveriesConcat(a: seq<Message>, b: seq<Message>)
    ensures Deliveries(a + b) == Deliveries(a) + Deliveries(b)
  {
    forall d ensures d in Deliveries(a + b) <==> d in Deliveries(a) || d in Deliveries(b) {
      if d in Deliveries(a) {
        var i :| 0 <= i < |a| && a[i].delivery == d;
        assert (a + b)[i] == a[i];
      }
      if d in Deliveries(b) {
        var i :| 0 <= i < |b| && b[i].delivery == d;
        assert (a + b)[|a| + i] == b[i];
      }
    }
  }

  /** A group store that keeps every group's members keeps the accounts. */
  lemma MembersSame(store: Store, store': Store, l: Ledger)
    requires MembersInv(store, l)
    requires store'.groups.Keys == store.groups.Keys
    requires forall k :: k in store.groups ==> store'.groups[k].msgs == store.groups[k].msgs
    ensures MembersInv(store', l)
  {
    forall d ensures InStore(store, d) <==> InStore(store', d) {
      if InStore(store, d) {
        var k :| k in store.groups && d in Deliveries(store.groups[k].msgs);
        assert k in store'.groups && d in Deliveries(store'.groups[k].msgs);
      }
      if InStore(store', d) {
        var k :| k in store'.groups && d in Deliveries(store'.groups[k].msgs);
        assert k in store.groups;
      }
    }
  }

  /** An accepted Add puts exactly one fresh delivery into exactly one group. */
  lemma MembersAppend(store: Store, l: Ledger, key: string, g: Group, m: Message)
    requires MembersInv(store, l)
    requires g.msgs == if key in store.groups then store.groups[key].msgs else []
    requires m.delivery !in l.accepted && m.delivery in l.handles && l.handles[m.delivery] == m
    ensures MembersInv(store.(groups := store.groups[key := Append(g, m)]), l.(accepted := l.accepted + {m.delivery}))
  {
    var store' := store.(groups := store.groups[key := Append(g, m)]);
    var l' := l.(accepted := l.accepted + {m.delivery});
    DeliveriesConcat(g.msgs, [m]);
    assert Deliveries([m]) == {m.delivery} by {
      assert [m][0] == m;
    }
    forall k | k in store.groups ensures m.delivery !in Deliveries(store.groups[k].msgs) {
      assert MembersAccepted(store.groups[k].msgs, l);
    }
    forall k, k' | k in store'.groups && k' in store'.groups && k != k'
      ensures Deliveries(store'.groups[k].msgs) !! Deliveries(store'.groups[k'].msgs)
    {
    }
    forall d | d in l'.accepted ensures InStore(store', d) <==> d !in l.settledOut && d !in l.settledExpired {
      if d == m.delivery {
        assert d in Deliveries(store'.groups[key].msgs);
      } else {
        InStoreAfterAppend(store, store', key, d, m.delivery);
      }
    }
  }

  lemma InStoreAfterAppend(store: Store, store': Store, key: string, d: nat, added: nat)
    requires d != added && key in store'.groups
    requires forall k :: k in store.groups ==> k in store'.groups
    requires forall k :: k in store'.groups && k != key ==> k in store.groups && store'.groups[k] == store.groups[k]
    requires Deliveries(store'.groups[key].msgs) ==
             (if key in store.groups then Deliveries(store.groups[key].msgs) else {}) + {added}
    ensures InStore(store', d) <==> InStore(store, d)
  {
    if InStore(store, d) {
      var k :| k in store.groups && d in Deliveries(store.groups[k].msgs);
      assert k in store'.groups && d in Deliveries(store'.groups[k].msgs);
    }
    if InStore(store', d) {
      var k :| k in store'.groups && d in Deliveries(store'.groups[k].msgs);
      assert k in store.groups && d in Deliveries(store.groups[k].msgs);
    }
  }

  lemma SplitMembers(msgs: seq<Message>, n: nat, l: Ledger)
    requires n <= |msgs| && DistinctDeliveries(msgs) && MembersAccepted(msgs, l)
    ensures Deliveries(msgs) == Deliveries(msgs[..n]) + Deliveries(msgs[n..])
    ensures Deliveries(msgs[..n]) !! Deliveries(msgs[n..])
    ensures DistinctDeliveries(msgs[n..]) && MembersAccepted(msgs[n..], l)
    ensures Deliveries(msgs) <= l.accepted
  {
    assert msgs == msgs[..n] + msgs[n..];
    DeliveriesConcat(msgs[..n], msgs[n..]);
    forall d | d in Deliveries(msgs[..n]) ensures d !in Deliveries(msgs[n..]) {
      var i :| 0 <= i < n && msgs[i].delivery == d;
      forall j | 0 <= j < |msgs[n..]| ensures msgs[n..][j].delivery != d {
        assert msgs[n..][j] == msgs[n + j];
      }
    }
  }

  /** The deliveries were entered as settled, on one side of the ledger. */
  ghost predicate WrittenOff(l: Ledger, l': Ledger, gone: set<nat>) {
    && l'.handles == l.handles && l'.accepted == l.accepted
    && (|| (l'.settledOut == l.settledOut + gone && l'.settledExpired == l.settledExpired)
        || (l'.settledOut == l.settledOut && l'.settledExpired == l.settledExpired + gone))
  }

  /** Dropping a prefix of one group, with its deliveries written off, keeps the accounts. */
  lemma MembersDrop(store: Store, store': Store, l: Ledger, key: string, n: nat, l': Ledger)
    requires MembersInv(store, l) && key in store.groups && n <= |store.groups[key].msgs|
    requires forall k :: k in store.groups && k != key ==> k in store'.groups && store'.groups[k] == store.groups[k]
    requires forall k :: k in store'.groups ==> k in store.groups
    requires key in store'.groups ==> store'.groups[key].msgs == store.groups[key].msgs[n..]
    requires key !in store'.groups ==> n == |store.groups[key].msgs|
    requires WrittenOff(l, l', Deliveries(store.groups[key].msgs[..n]))
    ensures MembersInv(store', l')
  {
    var msgs := store.groups[key].msgs;
    var gone := Deliveries(msgs[..n]);
    SplitMembers(msgs, n, l);
    forall d ensures InStore(store', d) <==> InStore(store, d) && d !in gone {
      InStoreAfterSettle(store, store', key, gone, d);
    }
    forall d | d in gone ensures d in l.accepted && InStore(store, d) {
      assert d in Deliveries(store.groups[key].msgs);
    }
    forall k | k in store'.groups
      ensures MembersAccepted(store'.groups[k].msgs, l') && DistinctDeliveries(store'.groups[k].msgs)
    {
      assert MembersAccepted(store.groups[k].msgs, l);
    }
    assert l'.accepted == l.accepted && l'.settledOut !! l'.settledExpired;
  }

  /** Settling moves exactly the claimed deliveries out of the store. */
  lemma MembersSettle(store: Store, l: Ledger, c: Claim, now: int, l': Ledger)
    requires ValidStore(store) && MembersInv(store, l) && ClaimInForce(store, c)
    requires WrittenOff(l, l', Deliveries(c.msgs))
    ensures MembersInv(SettleGroup(store, c, now), l')
  {
    MembersDrop(store, SettleGroup(store, c, now), l, c.key, store.groups[c.key].claimedLen, l');
  }

  lemma InStoreAfterSettle(store: Store, store': Store, key: string, gone: set<nat>, d: nat)
    requires key in store.groups
    requires forall k :: k in store.groups && k != key ==> k in store'.groups && store'.groups[k] == store.groups[k]
    requires forall k :: k in store'.groups ==> k in store.groups
    requires Deliveries(store.groups[key].msgs) ==
             gone + (if key in store'.groups then Deliveries(store'.groups[key].msgs) else {})
    requires key in store'.groups ==> gone !! Deliveries(store'.groups[key].msgs)
    requires forall k :: k in store.groups && k != key ==> gone !! Deliveries(store.groups[k].msgs)
    ensures InStore(store', d) <==> InStore(store, d) && d !in gone
  {
    if InStore(store', d) {
      var k :| k in store'.groups && d in Deliveries(store'.groups[k].msgs);
      assert k in store.groups && d in Deliveries(store.groups[k].msgs);
    }
    if InStore(store, d) && d !in gone {
      var k :| k in store.groups && d in Deliveries(store.groups[k].msgs);
      assert k in store'.groups && d in Deliveries(store'.groups[k].msgs);
    }
  }
}
