/** Leases of the group store under the Aggregator: the claim in a call's hands is always the
    lease in force, no two calls hold one key, and no group is leased without a holder. */
module AggregatorLeases {
  import opened Messages
  import opened GroupStoreSpec
  import opened Aggregator

  /** The claim is the lease in force on its group, and names its claimed prefix and its age. */
  ghost predicate ClaimInForce(store: Store, c: Claim) {
    && FenceHolds(store, c)
    && store.groups[c.key].claimedLen <= |store.groups[c.key].msgs|
    && c.msgs == store.groups[c.key].msgs[..store.groups[c.key].claimedLen]
    && c.createdAt == store.groups[c.key].createdAt
  }

  ghost predicate LeasesInv(store: Store, calls: map<nat, Pc>) {
    && ValidStore(store)
    && (forall c :: c in calls && Holding(calls[c]) ==> ClaimInForce(store, calls[c].claim))
    && (forall c, d :: c in calls && d in calls && Holding(calls[c]) && HoldsKey(calls[d], calls[c].claim.key) ==>
          c == d)
    && (forall k :: k in store.groups && store.groups[k].leased ==>
          exists c :: c in calls && HoldsKey(calls[c], k))
  }

  /** A call that neither gains nor loses a claim leaves the lease picture alone. */
  lemma LeasesSameClaim(store: Store, calls: map<nat, Pc>, c: nat, pc: Pc)
    requires LeasesInv(store, calls)
    requires c in calls && Holding(calls[c]) ==> Holding(pc) && pc.claim == calls[c].claim
    requires Holding(pc) ==> c in calls && Holding(calls[c])
    ensures LeasesInv(store, calls[c := pc])
  {
    var calls' := calls[c := pc];
    forall k | k in store.groups && store.groups[k].leased ensures exists d :: d in calls' && HoldsKey(calls'[d], k) {
      var d :| d in calls && HoldsKey(calls[d], k);
      assert d in calls' && HoldsKey(calls'[d], k);
    }
  }

  /** Add appends beyond every claimed prefix, so it disturbs no lease. */
  lemma LeasesAdd(store: Store, calls: map<nat, Pc>, key: string, m: Message, now: int)
    requires LeasesInv(store, calls)
    ensures LeasesInv(Add(store, key, m, now).0, calls)
  {
    AddKeepsValid(store, key, m, now);
    var store' := Add(store, key, m, now).0;
    forall c | c in calls && Holding(calls[c]) ensures ClaimInForce(store', calls[c].claim) {
      var k := calls[c].claim.key;
      assert store'.groups[k].msgs[..store.groups[k].claimedLen] == store.groups[k].msgs[..store.groups[k].claimedLen];
    }
  }

  lemma LeasesClaim(store: Store, calls: map<nat, Pc>, c: nat, key: string, pc: Pc)
    requires LeasesInv(store, calls)
    requires c in calls && !Holding(calls[c])
    requires ClaimGroup(store, key).1.Some? ==> Holding(pc) && pc.claim == ClaimGroup(store, key).1.value
    requires ClaimGroup(store, key).1.None? ==> !Holding(pc)
    ensures LeasesInv(ClaimGroup(store, key).0, calls[c := pc])
  {
    ClaimKeepsValid(store, key);
    var (store', claim) := ClaimGroup(store, key);
    if claim.None? {
      LeasesSameClaim(store, calls, c, pc);
    } else {
      var calls' := calls[c := pc];
      forall d | d in calls && Holding(calls[d]) ensures calls[d].claim.key != key {
        assert ClaimInForce(store, calls[d].claim);
      }
      assert store'.groups[key].msgs[..store'.groups[key].claimedLen] == store.groups[key].msgs;
      forall k | k in store'.groups && store'.groups[k].leased
        ensures exists d :: d in calls' && HoldsKey(calls'[d], k)
      {
        if k == key {
          assert c in calls' && HoldsKey(calls'[c], k);
        } else {
          var d :| d in calls && HoldsKey(calls[d], k);
          assert d in calls' && HoldsKey(calls'[d], k);
        }
      }
    }
  }

  /** Settling or abandoning ends the lease of exactly the call that held it. */
  lemma LeasesEnd(store: Store, calls: map<nat, Pc>, c: nat, store': Store, pc: Pc)
    requires LeasesInv(store, calls) && ValidStore(store')
    requires c in calls && Holding(calls[c]) && !Holding(pc)
    requires forall k :: k in store'.groups && k != calls[c].claim.key ==>
      k in store.groups && store'.groups[k] == store.groups[k]
    requires forall k :: k in store.groups && k != calls[c].claim.key ==> k in store'.groups
    requires calls[c].claim.key in store'.groups ==> !store'.groups[calls[c].claim.key].leased
    ensures LeasesInv(store', calls[c := pc])
  {
    var calls' := calls[c := pc];
    forall d | d in calls' && Holding(calls'[d]) ensures ClaimInForce(store', calls'[d].claim) {
      assert d != c && calls[d].claim.key != calls[c].claim.key;
      assert ClaimInForce(store, calls[d].claim);
    }
    forall k | k in store'.groups && store'.groups[k].leased ensures exists d :: d in calls' && HoldsKey(calls'[d], k) {
      var d :| d in calls && HoldsKey(calls[d], k);
      assert d in calls' && HoldsKey(calls'[d], k);
    }
  }

  lemma LeasesStepAdd(s: State, c: nat, key: string, verdict: Verdict, now: int)
    requires LeasesInv(s.store, s.calls) && c in s.calls && s.calls[c].Arrived?
    ensures LeasesInv(StepAdd(s, c, key, verdict, now).store, StepAdd(s, c, key, verdict, now).calls)
  {
    LeasesAdd(s.store, s.calls, key, s.calls[c].msg, now);
    var (store', reply) := Add(s.store, key, s.calls[c].msg, now);
    LeasesSameClaim(store', s.calls, c, AfterAdd(key, reply, verdict));
  }

  lemma LeasesStepSettle(s: State, c: nat, now: int)
    requires LeasesInv(s.store, s.calls) && c in s.calls && (s.calls[c].Sent? || s.calls[c].Expiring?)
    ensures LeasesInv(StepSettle(s, c, now).store, StepSettle(s, c, now).calls)
  {
    var s' := StepSettle(s, c, now);
    assert ClaimInForce(s.store, s.calls[c].claim);
    SettleKeepsValid(s.store, s.calls[c].claim, now);
    forall k | k in s.store.groups && k != s.calls[c].claim.key ensures k in s'.store.groups {
      assert k in s.store.groups.Keys - {s.calls[c].claim.key};
    }
    LeasesEnd(s.store, s.calls, c, s'.store, s'.calls[c]);
  }

  lemma LeasesStepAbandon(s: State, c: nat)
    requires LeasesInv(s.store, s.calls) && c in s.calls && (s.calls[c].Unwinding? || s.calls[c].GivingBack?)
    ensures LeasesInv(StepAbandon(s, c).store, StepAbandon(s, c).calls)
  {
    var s' := StepAbandon(s, c);
    assert ClaimInForce(s.store, s.calls[c].claim);
    AbandonKeepsValid(s.store, s.calls[c].claim);
    LeasesEnd(s.store, s.calls, c, s'.store, s'.calls[c]);
  }

  lemma LeasesStep(s: State, c: nat, ev: Event)
    requires LeasesInv(s.store, s.calls) && Enabled(s, c, ev)
    ensures LeasesInv(Step(s, c, ev).store, Step(s, c, ev).calls)
  {
    if ev.AddMember? {
      LeasesStepAdd(s, c, ev.key, ev.verdict, ev.now);
    } else if ev.TryClaim? {
      LeasesClaim(s.store, s.calls, c, s.calls[c].key, StepClaim(s, c).calls[c]);
    } else if ev.Settle? {
      LeasesStepSettle(s, c, ev.now);
    } else if ev.Abandon? {
      LeasesStepAbandon(s, c);
    } else {
      ClaimFrame(s, c, ev);
      LeasesSameClaim(s.store, s.calls, c, Step(s, c, ev).calls[c]);
    }
  }

  /** What the other events do to the claim in the call's hands: nothing. */
  lemma ClaimFrame(s: State, c: nat, ev: Event)
    requires Enabled(s, c, ev) && !ev.AddMember? && !ev.TryClaim? && !ev.Settle? && !ev.Abandon?
    ensures
      var s' := Step(s, c, ev);
      && s'.store == s.store && c in s'.calls && s'.calls == s.calls[c := s'.calls[c]]
      && (c in s.calls && Holding(s.calls[c]) ==> Holding(s'.calls[c]) && s'.calls[c].claim == s.calls[c].claim)
      && (Holding(s'.calls[c]) ==> c in s.calls && Holding(s.calls[c]))
  {
  }
}
