/** Emissions of the Aggregator: which deliveries the output and expired channels took. */
module AggregatorOutputs {
  import opened Messages
  import opened Aggregator
  import opened AggregatorLeases
  import opened AggregatorMembers

  ghost predicate Emitted(outputs: seq<seq<Message>>, d: nat) {
    exists a :: 0 <= a < |outputs| && d in Deliveries(outputs[a])
  }

  /** No delivery occurs twice in what the output channel took. */
  ghost predicate EmittedOnce(outputs: seq<seq<Message>>) {
    && (forall a :: 0 <= a < |outputs| ==> DistinctDeliveries(outputs[a]))
    && (forall a, b :: 0 <= a < b < |outputs| ==> Deliveries(outputs[a]) !! Deliveries(outputs[b]))
  }

  /** A call sent the aggregate of its claim and has not settled yet. */
  ghost predicate AwaitingSettle(calls: map<nat, Pc>, d: nat) {
    exists c :: c in calls && calls[c].Sent? && d in Deliveries(calls[c].claim.msgs)
  }

  ghost predicate OutputsInv(calls: map<nat, Pc>, l: Ledger) {
    && EmittedOnce(l.outputs)
    && (forall d :: Emitted(l.outputs, d) <==> d in l.settledOut || AwaitingSettle(calls, d))
  }

  ghost predicate Expelled(expired: seq<Message>, m: Message) {
    m in expired
  }

  ghost predicate ExpiredInv(calls: map<nat, Pc>, l: Ledger) {
    && (forall d :: d in l.settledExpired ==> exists j :: 0 <= j < |l.expired| && l.expired[j].delivery == d)
    && (forall c :: c in calls && calls[c].Expiring? ==>
          calls[c].sent <= |calls[c].claim.msgs| &&
          forall j :: 0 <= j < calls[c].sent ==> Expelled(l.expired, calls[c].claim.msgs[j]))
  }

  /** A step that neither sends nor settles leaves the emissions alone. */
  lemma OutputsQuiet(calls: map<nat, Pc>, l: Ledger, c: nat, pc: Pc, l': Ledger)
    requires OutputsInv(calls, l)
    requires !pc.Sent? && (c in calls ==> !calls[c].Sent?)
    requires l'.outputs == l.outputs && l'.settledOut == l.settledOut
    ensures OutputsInv(calls[c := pc], l')
  {
    var calls' := calls[c := pc];
    forall d ensures AwaitingSettle(calls', d) <==> AwaitingSettle(calls, d) {
      if AwaitingSettle(calls, d) {
        var e :| e in calls && calls[e].Sent? && d in Deliveries(calls[e].claim.msgs);
        assert e in calls' && calls'[e] == calls[e];
      }
      if AwaitingSettle(calls', d) {
        var e :| e in calls' && calls'[e].Sent? && d in Deliveries(calls'[e].claim.msgs);
        assert e in calls && calls'[e] == calls[e];
      }
    }
  }

  /** A claim still in force has not been emitted, except by its own holder. */
  lemma ClaimNotEmitted(s: State, c: nat, d: nat)
    requires LeasesInv(s.store, s.calls) && MembersInv(s.store, s.ledger) && OutputsInv(s.calls, s.ledger)
    requires c in s.calls && s.calls[c].Releasing? && d in Deliveries(s.calls[c].claim.msgs)
    ensures !Emitted(s.ledger.outputs, d)
  {
    var claim := s.calls[c].claim;
    assert ClaimInForce(s.store, claim);
    var g := s.store.groups[claim.key];
    SplitMembers(g.msgs, g.claimedLen, s.ledger);
    assert InStore(s.store, d);
    assert d !in s.ledger.settledOut;
    forall e | e in s.calls && s.calls[e].Sent? ensures d !in Deliveries(s.calls[e].claim.msgs) {
      var other := s.calls[e].claim;
      assert !HoldsKey(s.calls[e], claim.key);
      assert ClaimInForce(s.store, other);
      SplitMembers(s.store.groups[other.key].msgs, s.store.groups[other.key].claimedLen, s.ledger);
    }
  }

  lemma EmittedAfterAppend(outputs: seq<seq<Message>>, batch: seq<Message>, d: nat)
    ensures Emitted(outputs + [batch], d) <==> Emitted(outputs, d) || d in Deliveries(batch)
  {
    var more := outputs + [batch];
    if Emitted(outputs, d) {
      var a :| 0 <= a < |outputs| && d in Deliveries(outputs[a]);
      assert more[a] == outputs[a];
    }
    if d in Deliveries(batch) {
      assert more[|outputs|] == batch;
    }
  }

  /** A successful Send adds one aggregate, none of whose members was emitted before. */
  lemma OutputsSend(s: State, c: nat)
    requires LeasesInv(s.store, s.calls) && MembersInv(s.store, s.ledger) && OutputsInv(s.calls, s.ledger)
    requires c in s.calls && s.calls[c].Releasing?
    ensures var s' := StepAggregate(s, c, SentOk); OutputsInv(s'.calls, s'.ledger)
  {
    var s' := StepAggregate(s, c, SentOk);
    var batch := s.calls[c].claim.msgs;
    assert ClaimInForce(s.store, s.calls[c].claim);
    assert DistinctDeliveries(batch);
    forall d | d in Deliveries(batch) ensures !Emitted(s.ledger.outputs, d) {
      ClaimNotEmitted(s, c, d);
    }
    assert EmittedOnce(s'.ledger.outputs) by {
      var outs := s'.ledger.outputs;
      forall a, b | 0 <= a < b < |outs| ensures Deliveries(outs[a]) !! Deliveries(outs[b]) {
        if b == |s.ledger.outputs| {
          forall d | d in Deliveries(outs[a]) ensures d !in Deliveries(batch) {
            assert outs[a] == s.ledger.outputs[a];
            assert Emitted(s.ledger.outputs, d);
          }
        }
      }
    }
    forall d ensures Emitted(s'.ledger.outputs, d) <==> d in s'.ledger.settledOut || AwaitingSettle(s'.calls, d) {
      EmittedAfterAppend(s.ledger.outputs, batch, d);
      AwaitingAfterSend(s.calls, c, s'.calls[c], d);
    }
  }

  lemma AwaitingAfterSend(calls: map<nat, Pc>, c: nat, pc: Pc, d: nat)
    requires c in calls && !calls[c].Sent? && pc.Sent?
    ensures AwaitingSettle(calls[c := pc], d) <==> AwaitingSettle(calls, d) || d in Deliveries(pc.claim.msgs)
  {
    var calls' := calls[c := pc];
    if AwaitingSettle(calls, d) {
      var e :| e in calls && calls[e].Sent? && d in Deliveries(calls[e].claim.msgs);
      assert e in calls' && calls'[e] == calls[e];
    }
    if d in Deliveries(pc.claim.msgs) {
      assert c in calls' && calls'[c] == pc;
    }
    if AwaitingSettle(calls', d) {
      var e :| e in calls' && calls'[e].Sent? && d in Deliveries(calls'[e].claim.msgs);
      assert e != c ==> e in calls && calls[e] == calls'[e];
    }
  }

  /** Settling a sent claim turns "sent, not yet settled" into "settled" for its members. */
  lemma OutputsSettle(s: State, c: nat, now: int)
    requires OutputsInv(s.calls, s.ledger)
    requires c in s.calls && (s.calls[c].Sent? || s.calls[c].Expiring?)
    ensures var s' := StepSettle(s, c, now); OutputsInv(s'.calls, s'.ledger)
  {
    var s' := StepSettle(s, c, now);
    if s.calls[c].Expiring? {
      OutputsQuiet(s.calls, s.ledger, c, s'.calls[c], s'.ledger);
    } else {
      forall d ensures Emitted(s'.ledger.outputs, d) <==> d in s'.ledger.settledOut || AwaitingSettle(s'.calls, d) {
        if AwaitingSettle(s.calls, d) {
          var e :| e in s.calls && s.calls[e].Sent? && d in Deliveries(s.calls[e].claim.msgs);
          assert e != c ==> e in s'.calls && s'.calls[e] == s.calls[e];
        }
        if AwaitingSettle(s'.calls, d) {
          var e :| e in s'.calls && s'.calls[e].Sent? && d in Deliveries(s'.calls[e].claim.msgs);
          assert e in s.calls && s.calls[e] == s'.calls[e];
        }
        if d in Deliveries(s.calls[c].claim.msgs) {
          assert AwaitingSettle(s.calls, d);
        }
      }
    }
  }

  lemma OutputsStep(s: State, c: nat, ev: Event)
    requires LeasesInv(s.store, s.calls) && MembersInv(s.store, s.ledger) && OutputsInv(s.calls, s.ledger)
    requires Enabled(s, c, ev)
    ensures OutputsInv(Step(s, c, ev).calls, Step(s, c, ev).ledger)
  {
    if ev.Settle? {
      OutputsSettle(s, c, ev.now);
    } else if ev.Aggregate? && ev.sending.SentOk? {
      OutputsSend(s, c);
    } else {
      QuietFrame(s, c, ev);
      var s' := Step(s, c, ev);
      OutputsQuiet(s.calls, s.ledger, c, s'.calls[c], s'.ledger);
    }
  }

  /** What an event that neither sends nor settles leaves as it was. */
  lemma QuietFrame(s: State, c: nat, ev: Event)
    requires Enabled(s, c, ev) && !ev.Settle? && !(ev.Aggregate? && ev.sending.SentOk?)
    ensures
      var s' := Step(s, c, ev);
      && c in s'.calls && s'.calls == s.calls[c := s'.calls[c]] && !s'.calls[c].Sent?
      && (c in s.calls ==> !s.calls[c].Sent?)
      && s'.ledger.outputs == s.ledger.outputs && s'.ledger.settledOut == s.ledger.settledOut
  {
  }

  /** The expired channel took every member of an expiry that settles. */
  lemma ExpiredStep(s: State, c: nat, ev: Event)
    requires ExpiredInv(s.calls, s.ledger) && Enabled(s, c, ev)
    ensures ExpiredInv(Step(s, c, ev).calls, Step(s, c, ev).ledger)
  {
    var s' := Step(s, c, ev);
    if ev.Settle? && s.calls[c].Expiring? {
      ExpiredSettle(s, c, ev.now);
    } else if ev.SendExpired? && ev.sending.SentOk? {
      ExpiredSend(s, c);
    } else {
      assert s'.ledger.expired == s.ledger.expired && s'.ledger.settledExpired == s.ledger.settledExpired;
      assert s'.calls[c].Expiring? ==> s'.calls[c].sent == 0;
    }
  }

  lemma ExpiredSettle(s: State, c: nat, now: int)
    requires ExpiredInv(s.calls, s.ledger)
    requires c in s.calls && s.calls[c].Expiring? && s.calls[c].sent == |s.calls[c].claim.msgs|
    ensures var s' := StepSettle(s, c, now); ExpiredInv(s'.calls, s'.ledger)
  {
    var s' := StepSettle(s, c, now);
    var msgs := s.calls[c].claim.msgs;
    forall d | d in Deliveries(msgs)
      ensures exists j :: 0 <= j < |s'.ledger.expired| && s'.ledger.expired[j].delivery == d {
      var i :| 0 <= i < |msgs| && msgs[i].delivery == d;
      assert Expelled(s.ledger.expired, msgs[i]);
    }
  }

  lemma ExpiredSend(s: State, c: nat)
    requires ExpiredInv(s.calls, s.ledger)
    requires c in s.calls && s.calls[c].Expiring? && s.calls[c].sent < |s.calls[c].claim.msgs|
    ensures var s' := StepSendExpired(s, c, SentOk); ExpiredInv(s'.calls, s'.ledger)
  {
    var s' := StepSendExpired(s, c, SentOk);
    var m := s.calls[c].claim.msgs[s.calls[c].sent];
    assert s'.ledger.expired[|s.ledger.expired|] == m;
    forall x | Expelled(s.ledger.expired, x) ensures Expelled(s'.ledger.expired, x) {
    }
    forall d | d in s'.ledger.settledExpired
      ensures exists j :: 0 <= j < |s'.ledger.expired| && s'.ledger.expired[j].delivery == d
    {
      var j :| 0 <= j < |s.ledger.expired| && s.ledger.expired[j].delivery == d;
      assert s'.ledger.expired[j] == s.ledger.expired[j];
    }
  }
}
