/** The promises of the Aggregator over every run: every interleaving of any number of Handle
    calls and reaper visits, any release strategy, any aggregate function, any channel. */
module AggregatorTheorems {
  import opened Reliability
  import opened Messages
  import opened GroupStoreSpec
  import opened Aggregator
  import opened AggregatorLeases
  import opened AggregatorMembers
  import opened AggregatorOutputs

  // ---- Replies: what a Handle call may answer ------------------------------------

  function CallerOf(pc: Pc): Option<Caller> {
    match pc
    case Ready(_, caller) => Some(caller)
    case Releasing(_, caller, _) => Some(caller)
    case Sent(_, caller, _) => Some(caller)
    case Unwinding(_, caller, _, _) => Some(caller)
    case Draining(_, caller) => Some(caller)
    case Judging(_, caller) => Some(caller)
    case GivingBack(_, caller) => Some(caller)
    case _ => None
  }

  /** The delivery was stored, or a held member with its id absorbed it. */
  ghost predicate Kept(l: Ledger, c: nat) {
    c in l.accepted || c in l.absorbed
  }

  ghost predicate ReplyInv(c: nat, pc: Pc, l: Ledger) {
    && (pc.Arrived? ==>
          c in l.handles && l.handles[c] == pc.msg && pc.msg.delivery == c && !Kept(l, c) && c !in l.rescued)
    && (CallerOf(pc) == Some(FromHandle) ==> c in l.handles && Kept(l, c))
    && (CallerOf(pc) == Some(FromOverflow) ==> c in l.handles && !Kept(l, c))
    && (CallerOf(pc) == Some(FromReaper) ==> c !in l.handles)
    && (pc.Sweeping? || pc.Examining? || pc.Expiring? ==> c !in l.handles)
    && (pc.Returned? && pc.outcome.Nil? && c in l.handles ==> Kept(l, c))
    && (c in l.rescued ==> c in l.handles && !Kept(l, c))
    && (c in l.rescued && pc.Returned? && pc.outcome.Fault? ==>
          !IsPermanent(Some(pc.outcome.err)) && Is(pc.outcome.err, OverflowDropped))
    && (c in l.rescued ==> pc.Returned? || pc.Crashed? || CallerOf(pc) == Some(FromOverflow))
    && (c in l.released ==> !pc.Arrived? && !pc.Ready? && !pc.Sweeping? && !pc.Examining?)
    && (c in l.released ==> (pc.Releasing? || pc.Unwinding? ==> !pc.main))
    && (c in l.released && Kept(l, c) && pc.Returned? ==> !pc.outcome.Fault?)
  }

  /** Delivery d, of the same id, absorbed delivery c. */
  ghost predicate AbsorbedBy(l: Ledger, c: nat, d: nat) {
    c in l.handles && d in l.accepted && d in l.handles && l.handles[d].ID() == l.handles[c].ID()
  }

  ghost predicate RepliesInv(calls: map<nat, Pc>, l: Ledger) {
    && l.handles.Keys <= calls.Keys
    && l.accepted <= l.handles.Keys && l.absorbed.Keys <= l.handles.Keys && l.rescued <= l.handles.Keys
    && l.released <= calls.Keys
    && (forall c :: c in calls ==> ReplyInv(c, calls[c], l))
    && (forall c :: c in l.absorbed ==> AbsorbedBy(l, c, l.absorbed[c]))
  }

  /** A step of one call that stores nothing. */
  lemma RepliesOne(calls: map<nat, Pc>, l: Ledger, c: nat, pc: Pc, l': Ledger)
    requires RepliesInv(calls, l) && ReplyInv(c, pc, l') && (c in l'.rescued ==> c in l.handles)
    requires l'.handles == l.handles && l'.accepted == l.accepted && l'.absorbed == l.absorbed
    requires l.rescued <= l'.rescued <= l.rescued + {c} && l.released <= l'.released <= l.released + {c}
    ensures RepliesInv(calls[c := pc], l')
  {
    var calls' := calls[c := pc];
    forall d | d in calls' ensures ReplyInv(d, calls'[d], l') {
      assert d != c ==> ReplyInv(d, calls[d], l);
    }
  }

  lemma ReplyPcRelease(s: State, c: nat, ev: Event)
    requires c in s.calls && ReplyInv(c, s.calls[c], s.ledger) && Enabled(s, c, ev)
    requires ev.Aggregate? || ev.Settle? || ev.Abandon?
    ensures var s' := Step(s, c, ev); c in s'.calls && ReplyInv(c, s'.calls[c], s'.ledger)
  {
  }

  lemma ReplyPcOther(s: State, c: nat, ev: Event)
    requires RepliesInv(s.calls, s.ledger) && Enabled(s, c, ev)
    requires ev.Sweep? || ev.Refuse? || ev.Judge? || ev.SendExpired?
    ensures var s' := Step(s, c, ev); c in s'.calls && ReplyInv(c, s'.calls[c], s'.ledger)
  {
    assert c in s.calls ==> ReplyInv(c, s.calls[c], s.ledger);
  }

  lemma ReplyStepLocal(s: State, c: nat, ev: Event)
    requires RepliesInv(s.calls, s.ledger) && Enabled(s, c, ev)
    requires !ev.AddMember? && !ev.TryClaim? && !ev.Call?
    ensures RepliesInv(Step(s, c, ev).calls, Step(s, c, ev).ledger)
  {
    var s' := Step(s, c, ev);
    if ev.Aggregate? || ev.Settle? || ev.Abandon? {
      assert ReplyInv(c, s.calls[c], s.ledger);
      ReplyPcRelease(s, c, ev);
    } else {
      ReplyPcOther(s, c, ev);
    }
    RepliesOne(s.calls, s.ledger, c, s'.calls[c], s'.ledger);
  }

  lemma ReplyPcClaim(s: State, c: nat)
    requires c in s.calls && ReplyInv(c, s.calls[c], s.ledger) && Enabled(s, c, TryClaim)
    ensures var s' := StepClaim(s, c); c in s'.calls && ReplyInv(c, s'.calls[c], s'.ledger)
  {
  }

  lemma ReplyStepClaim(s: State, c: nat)
    requires RepliesInv(s.calls, s.ledger) && Enabled(s, c, TryClaim)
    ensures RepliesInv(StepClaim(s, c).calls, StepClaim(s, c).ledger)
  {
    var s' := StepClaim(s, c);
    assert ReplyInv(c, s.calls[c], s.ledger);
    ReplyPcClaim(s, c);
    RepliesOne(s.calls, s.ledger, c, s'.calls[c], s'.ledger);
  }

  lemma ReplyStepCall(s: State, c: nat, msg: Message)
    requires RepliesInv(s.calls, s.ledger) && Enabled(s, c, Call(msg))
    ensures RepliesInv(StepCall(s, c, msg).calls, StepCall(s, c, msg).ledger)
  {
    var s' := StepCall(s, c, msg);
    forall d | d in s'.calls && d != c ensures ReplyInv(d, s'.calls[d], s'.ledger) {
      assert ReplyInv(d, s.calls[d], s.ledger);
    }
  }

  /** The carrier of an id already held is a stored delivery of the same id. */
  lemma CarrierIsAccepted(s: State, key: string, m: Message)
    requires ValidStore(s.store) && MembersInv(s.store, s.ledger) && Duplicate(s.store, key, m)
    ensures var d := Carrier(s.store.groups[key].msgs, m.ID());
      d in s.ledger.accepted && d in s.ledger.handles && s.ledger.handles[d].ID() == m.ID()
  {
    var msgs := s.store.groups[key].msgs;
    assert ValidGroup(s.store.groups[key], s.store.maxMembers);
    assert m.ID() in IdsOf(msgs);
    assert exists i :: 0 <= i < |msgs| && msgs[i].ID() == m.ID();
    assert MembersAccepted(msgs, s.ledger);
  }

  lemma ReplyAfterAdd(c: nat, msg: Message, l: Ledger, l': Ledger, key: string, reply: AddReply, verdict: Verdict)
    requires ReplyInv(c, Arrived(msg), l)
    requires l'.handles == l.handles && l'.rescued == l.rescued && l'.released == l.released
    requires reply.err.None? <==> Kept(l', c)
    ensures ReplyInv(c, AfterAdd(key, reply, verdict), l')
  {
  }

  /** What Add did to the accounts of this call, and to nobody else's. */
  lemma LedgerAfterAdd(s: State, c: nat, key: string, verdict: Verdict, now: int)
    requires ValidStore(s.store) && c in s.calls && s.calls[c].Arrived? && !Kept(s.ledger, c)
    ensures var s' := StepAdd(s, c, key, verdict, now); var l, l' := s.ledger, s'.ledger;
      && (Add(s.store, key, s.calls[c].msg, now).1.err.None? <==> Kept(l', c))
      && l'.handles == l.handles && l'.rescued == l.rescued && l'.released == l.released
      && l.accepted <= l'.accepted <= l.accepted + {c}
      && l'.absorbed.Keys <= l.absorbed.Keys + {c} && l.absorbed.Keys <= l'.absorbed.Keys
      && (forall d :: d in l'.absorbed && d != c ==> d in l.absorbed && l'.absorbed[d] == l.absorbed[d])
      && (c in l'.absorbed ==> Duplicate(s.store, key, s.calls[c].msg))
      && (c in l'.absorbed ==> l'.absorbed[c] == Carrier(s.store.groups[key].msgs, s.calls[c].msg.ID()))
  {
    AddKeepsValid(s.store, key, s.calls[c].msg, now);
  }

  lemma ReplyStepAdd(s: State, c: nat, key: string, verdict: Verdict, now: int)
    requires RepliesInv(s.calls, s.ledger) && ValidStore(s.store) && MembersInv(s.store, s.ledger)
    requires c in s.calls && s.calls[c].Arrived?
    ensures var s' := StepAdd(s, c, key, verdict, now); RepliesInv(s'.calls, s'.ledger)
  {
    var l' := StepAdd(s, c, key, verdict, now).ledger;
    var msg := s.calls[c].msg;
    var reply := Add(s.store, key, msg, now).1;
    assert ReplyInv(c, s.calls[c], s.ledger);
    LedgerAfterAdd(s, c, key, verdict, now);
    if Duplicate(s.store, key, msg) {
      CarrierIsAccepted(s, key, msg);
    }
    ReplyAfterAdd(c, msg, s.ledger, l', key, reply, verdict);
    RepliesAdd(s.calls, s.ledger, c, AfterAdd(key, reply, verdict), l');
  }

  /** The rest of the replies when call c has been stored, absorbed or refused. */
  lemma RepliesAdd(calls: map<nat, Pc>, l: Ledger, c: nat, pc: Pc, l': Ledger)
    requires RepliesInv(calls, l) && ReplyInv(c, pc, l') && c in l.handles
    requires l'.handles == l.handles && l'.rescued == l.rescued && l'.released == l.released
    requires l.accepted <= l'.accepted <= l.accepted + {c}
    requires l'.absorbed.Keys <= l.absorbed.Keys + {c} && l.absorbed.Keys <= l'.absorbed.Keys
    requires forall d :: d in l'.absorbed && d != c ==> d in l.absorbed && l'.absorbed[d] == l.absorbed[d]
    requires c in l'.absorbed ==> AbsorbedBy(l, c, l'.absorbed[c])
    ensures RepliesInv(calls[c := pc], l')
  {
    var calls' := calls[c := pc];
    forall d | d in calls' && d != c ensures ReplyInv(d, calls'[d], l') {
      ReplyElsewhere(d, calls[d], l, l');
    }
    forall d | d in l'.absorbed ensures AbsorbedBy(l', d, l'.absorbed[d]) {
      assert d != c ==> AbsorbedBy(l, d, l.absorbed[d]);
    }
  }

  /** The reply of a call whose own accounts did not change. */
  lemma ReplyElsewhere(d: nat, pc: Pc, l: Ledger, l': Ledger)
    requires ReplyInv(d, pc, l) && l'.handles == l.handles && (Kept(l', d) <==> Kept(l, d))
    requires (d in l'.rescued <==> d in l.rescued) && (d in l'.released <==> d in l.released)
    ensures ReplyInv(d, pc, l')
  {
  }

  // ---- The whole invariant ---------------------------------------------------------

  ghost predicate Inv(s: State) {
    && LeasesInv(s.store, s.calls)
    && MembersInv(s.store, s.ledger)
    && OutputsInv(s.calls, s.ledger)
    && ExpiredInv(s.calls, s.ledger)
    && RepliesInv(s.calls, s.ledger)
  }

  lemma MembersStep(s: State, c: nat, ev: Event)
    requires LeasesInv(s.store, s.calls) && MembersInv(s.store, s.ledger) && RepliesInv(s.calls, s.ledger)
    requires Enabled(s, c, ev)
    ensures MembersInv(Step(s, c, ev).store, Step(s, c, ev).ledger)
  {
    match ev
    case Call(msg) =>
      assert c !in s.ledger.handles;
      MembersHandle(s.store, s.ledger, c, msg);
    case AddMember(key, verdict, now) =>
      assert ReplyInv(c, s.calls[c], s.ledger);
      MembersAdd(s, c, key, verdict, now);
    case TryClaim => MembersClaim(s, c);
    case Settle(now) => MembersStepSettle(s, c, now);
    case Abandon => MembersSame(s.store, AbandonGroup(s.store, s.calls[c].claim), s.ledger);
    case _ => MembersStepLocal(s, c, ev);
  }

  lemma MembersStepSettle(s: State, c: nat, now: int)
    requires LeasesInv(s.store, s.calls) && MembersInv(s.store, s.ledger) && Enabled(s, c, Settle(now))
    ensures var s' := StepSettle(s, c, now); MembersInv(s'.store, s'.ledger)
  {
    assert ClaimInForce(s.store, s.calls[c].claim);
    MembersSettle(s.store, s.ledger, s.calls[c].claim, now, StepSettle(s, c, now).ledger);
  }

  lemma MembersStepLocal(s: State, c: nat, ev: Event)
    requires MembersInv(s.store, s.ledger) && Enabled(s, c, ev)
    requires ev.Sweep? || ev.Refuse? || ev.Aggregate? || ev.Judge? || ev.SendExpired?
    ensures var s' := Step(s, c, ev); MembersInv(s'.store, s'.ledger)
  {
    MembersAside(s.store, s.ledger, Step(s, c, ev).ledger);
  }

  lemma MembersAdd(s: State, c: nat, key: string, verdict: Verdict, now: int)
    requires MembersInv(s.store, s.ledger)
    requires c in s.calls && s.calls[c].Arrived? && ReplyInv(c, s.calls[c], s.ledger)
    ensures var s' := StepAdd(s, c, key, verdict, now); MembersInv(s'.store, s'.ledger)
  {
    var m := s.calls[c].msg;
    if Accepted(s.store, key, m) {
      MembersAppend(s.store, s.ledger, key, GroupFor(s.store, key, now), m);
    } else {
      MembersAside(s.store, s.ledger, StepAdd(s, c, key, verdict, now).ledger);
    }
  }

  lemma MembersClaim(s: State, c: nat)
    requires MembersInv(s.store, s.ledger) && Enabled(s, c, TryClaim)
    ensures var s' := StepClaim(s, c); MembersInv(s'.store, s'.ledger)
  {
    var store' := ClaimGroup(s.store, s.calls[c].key).0;
    MembersSame(s.store, store', s.ledger);
    MembersAside(store', s.ledger, StepClaim(s, c).ledger);
  }

  /** The accounts of the members do not depend on the rest of the ledger. */
  lemma MembersAside(store: Store, l: Ledger, l': Ledger)
    requires MembersInv(store, l)
    requires l'.handles == l.handles && l'.accepted == l.accepted
    requires l'.settledOut == l.settledOut && l'.settledExpired == l.settledExpired
    ensures MembersInv(store, l')
  {
    forall k | k in store.groups ensures MembersAccepted(store.groups[k].msgs, l') {
      assert MembersAccepted(store.groups[k].msgs, l);
    }
  }

  lemma MembersHandle(store: Store, l: Ledger, c: nat, msg: Message)
    requires MembersInv(store, l) && c !in l.handles
    ensures MembersInv(store, l.(handles := l.handles[c := msg]))
  {
    forall k | k in store.groups ensures MembersAccepted(store.groups[k].msgs, l.(handles := l.handles[c := msg])) {
      assert MembersAccepted(store.groups[k].msgs, l);
    }
  }

  lemma InvStep(s: State, c: nat, ev: Event)
    requires Inv(s) && Enabled(s, c, ev)
    ensures Inv(Step(s, c, ev))
  {
    LeasesStep(s, c, ev);
    MembersStep(s, c, ev);
    OutputsStep(s, c, ev);
    ExpiredStep(s, c, ev);
    match ev
    case Call(msg) => ReplyStepCall(s, c, msg);
    case AddMember(key, verdict, now) => ReplyStepAdd(s, c, key, verdict, now);
    case TryClaim => ReplyStepClaim(s, c);
    case _ => ReplyStepLocal(s, c, ev);
  }

  lemma {:induction false} InvAlways(states: seq<State>, steps: seq<(nat, Event)>, n: nat)
    requires Run(states, steps) && n < |states|
    ensures Inv(states[n])
  {
    if n > 0 {
      InvAlways(states, steps, n - 1);
      InvStep(states[n - 1], steps[n - 1].0, steps[n - 1].1);
    }
  }

  // ---- The promises ----------------------------------------------------------------

  /** Nothing vanishes and nothing is doubled. At every point of every run each delivery Add
      stored is held by exactly one group, or was settled after the output channel took it,
      or was settled after the expired channel took it, and only one of these is the case. */
  lemma Conservation(states: seq<State>, steps: seq<(nat, Event)>, n: nat, d: nat)
    requires Run(states, steps) && n < |states| && d in states[n].ledger.accepted
    ensures var s, l := states[n], states[n].ledger;
      && (InStore(s.store, d) <==> d !in l.settledOut && d !in l.settledExpired)
      && !(d in l.settledOut && d in l.settledExpired)
      && (d in l.settledOut ==> Emitted(l.outputs, d))
      && (d in l.settledExpired ==> exists j :: 0 <= j < |l.expired| && l.expired[j].delivery == d)
    ensures forall k, k' :: k in states[n].store.groups && k' in states[n].store.groups && k != k' ==>
      !(d in Deliveries(states[n].store.groups[k].msgs) && d in Deliveries(states[n].store.groups[k'].msgs))
  {
    InvAlways(states, steps, n);
  }

  /** At-most-once emission: no delivery is in two aggregates the output channel took, nor
      twice in one, and every aggregate is made of stored deliveries. */
  lemma EmittedAtMostOnce(states: seq<State>, steps: seq<(nat, Event)>, n: nat)
    requires Run(states, steps) && n < |states|
    ensures EmittedOnce(states[n].ledger.outputs)
    ensures forall d :: Emitted(states[n].ledger.outputs, d) ==> d in states[n].ledger.accepted
  {
    InvAlways(states, steps, n);
    var s := states[n];
    forall d | Emitted(s.ledger.outputs, d) ensures d in s.ledger.accepted {
      if d !in s.ledger.settledOut {
        var c :| c in s.calls && s.calls[c].Sent? && d in Deliveries(s.calls[c].claim.msgs);
        assert ClaimInForce(s.store, s.calls[c].claim);
        var g := s.store.groups[s.calls[c].claim.key];
        SplitMembers(g.msgs, g.claimedLen, s.ledger);
      }
    }
  }

  /** An Ack is safe: when Handle returned nil, its delivery, or a stored delivery of the same
      message id, is held now or was settled after a channel took it. */
  lemma AckMeansKept(states: seq<State>, steps: seq<(nat, Event)>, n: nat, c: nat) returns (d: nat)
    requires Run(states, steps) && n < |states|
    requires c in states[n].ledger.handles && c in states[n].calls && states[n].calls[c] == Returned(Nil)
    ensures var l := states[n].ledger;
      && d in l.accepted && d in l.handles && l.handles[d].ID() == l.handles[c].ID()
      && (InStore(states[n].store, d) || Emitted(l.outputs, d)
            || exists j :: 0 <= j < |l.expired| && l.expired[j].delivery == d)
  {
    InvAlways(states, steps, n);
    var l := states[n].ledger;
    assert ReplyInv(c, states[n].calls[c], l);
    d := if c in l.accepted then c else l.absorbed[c];
    Conservation(states, steps, n, d);
  }

  /** The downgrade: a call whose over-cap branch went on to ClaimGroup never stored its member,
      never answers nil, and whatever the aggregate function or the channel failed with, the
      error it answers is a transient overflow. */
  lemma OverCapStaysRedeliverable(states: seq<State>, steps: seq<(nat, Event)>, n: nat, c: nat)
    requires Run(states, steps) && n < |states|
    requires c in states[n].ledger.rescued && c in states[n].calls && states[n].calls[c].Returned?
    ensures c !in states[n].ledger.accepted && !InStore(states[n].store, c)
    ensures !states[n].calls[c].outcome.Nil?
    ensures states[n].calls[c].outcome.Fault? ==>
      Is(states[n].calls[c].outcome.err, OverflowDropped) && !IsPermanent(Some(states[n].calls[c].outcome.err))
  {
    InvAlways(states, steps, n);
    var s := states[n];
    assert ReplyInv(c, s.calls[c], s.ledger);
    forall k | k in s.store.groups ensures c !in Deliveries(s.store.groups[k].msgs) {
      assert MembersAccepted(s.store.groups[k].msgs, s.ledger);
    }
  }

  /** What Handle answers at once to a member the store refused. It answers unless a snapshot was
      returned and judged complete. It panics exactly when the strategy did. Otherwise the error is
      the store's, joined with the strategy's own if that failed, so Handle never upgrades a refusal
      on its own account: it is permanent exactly when one of the two is. */
  lemma RefusalNeverUpgraded(store: Store, key: string, m: Message, now: int, verdict: Verdict)
    requires Add(store, key, m, now).1.err.Some?
    ensures
      var reply := Add(store, key, m, now).1;
      var pc, judged := AfterAdd(key, reply, verdict), reply.live.Some? && reply.live.value != [];
      && (pc.Returned? <==> !(judged && verdict.Complete?))
      && (pc.Returned? ==> !pc.outcome.Nil? && (pc.outcome.Panicked? <==> judged && verdict.StrategyPanics?))
      && (pc.Returned? && pc.outcome.Fault? ==>
            && Is(pc.outcome.err, OverflowDropped)
            && (forall s :: Is(pc.outcome.err, s) <==>
                  Is(reply.err.value, s) || (judged && verdict.Undecidable? && Is(verdict.err, s)))
            && (IsPermanent(Some(pc.outcome.err)) <==>
                  IsPermanent(reply.err) || (judged && verdict.Undecidable? && IsPermanent(Some(verdict.err)))))
  {
    var reply := Add(store, key, m, now).1;
    RefusalClassification(store, key, m, now);
    if verdict.Undecidable? {
      JoinClassification(reply.err.value, verdict.err);
    }
  }

  lemma JoinClassification(a: Error, b: Error)
    ensures IsPermanent(Some(Join([a, b]))) <==> IsPermanent(Some(a)) || IsPermanent(Some(b))
    ensures forall s :: Is(Join([a, b]), s) <==> Is(a, s) || Is(b, s)
  {
    var parts := [a, b];
    assert parts[0] == a && parts[1] == b;
    assert HasPermanentMark(Join(parts)) <==> HasPermanentMark(a) || HasPermanentMark(b);
    forall s ensures Is(Join(parts), s) <==> Is(a, s) || Is(b, s) {
      assert Is(parts[0], s) == Is(a, s) && Is(parts[1], s) == Is(b, s);
    }
  }

  /** The drain loop never fails a call whose own release already settled: a Handle that stored
      its member and settled its claim answers nil, so the settled member is not redelivered. */
  lemma SettledReleaseIsAcked(states: seq<State>, steps: seq<(nat, Event)>, n: nat, c: nat)
    requires Run(states, steps) && n < |states|
    requires c in states[n].ledger.released && c in states[n].ledger.accepted
    requires c in states[n].calls && states[n].calls[c].Returned?
    ensures !states[n].calls[c].outcome.Fault?
  {
    InvAlways(states, steps, n);
    assert ReplyInv(c, states[n].calls[c], states[n].ledger);
  }

  /** The fence never misses under the Aggregator: a group is leased exactly when one call
      holds it, that call is the only one, and the claim in its hands is the lease in force,
      so its settle or abandon always takes effect. */
  lemma LeaseHasOneHolder(states: seq<State>, steps: seq<(nat, Event)>, n: nat, k: string)
    requires Run(states, steps) && n < |states| && k in states[n].store.groups
    ensures states[n].store.groups[k].leased <==> exists c :: c in states[n].calls && HoldsKey(states[n].calls[c], k)
    ensures forall c :: c in states[n].calls && HoldsKey(states[n].calls[c], k) ==>
      ClaimInForce(states[n].store, states[n].calls[c].claim)
      && forall d :: d in states[n].calls && HoldsKey(states[n].calls[d], k) ==> c == d
  {
    InvAlways(states, steps, n);
    var s := states[n];
    forall c | c in s.calls && HoldsKey(s.calls[c], k) ensures ClaimInForce(s.store, s.calls[c].claim) {
      assert Holding(s.calls[c]);
    }
  }

  /** A call that is over and did not crash holds nothing: each claim it took it settled or
      abandoned. So when every call has returned, no group is left leased. */
  lemma NothingLeftLeased(states: seq<State>, steps: seq<(nat, Event)>, n: nat)
    requires Run(states, steps) && n < |states|
    requires forall c :: c in states[n].calls ==> states[n].calls[c].Returned?
    ensures forall k :: k in states[n].store.groups ==> !states[n].store.groups[k].leased
  {
    InvAlways(states, steps, n);
  }

  /** The exception: a panic of the release strategy on a claimed group, or of the expired
      channel, ends the call with no deferred abandon to cover the claim. From then on the
      group stays leased in every later state, so no call ever claims that key again. */
  lemma {:induction false} CrashWedgesKey(states: seq<State>, steps: seq<(nat, Event)>, n: nat, m: nat, c: nat)
    requires Run(states, steps) && n <= m < |states|
    requires c in states[n].calls && states[n].calls[c].Crashed?
    ensures c in states[m].calls && states[m].calls[c] == states[n].calls[c]
    ensures states[n].calls[c].claim.key in states[m].store.groups
    ensures ClaimGroup(states[m].store, states[n].calls[c].claim.key).1.None?
    decreases m
  {
    InvAlways(states, steps, m);
    if n < m {
      CrashWedgesKey(states, steps, n, m - 1, c);
      CrashedStays(states[m - 1], steps[m - 1].0, steps[m - 1].1, c);
    }
    CrashedHolds(states[m].store, states[m].calls, c);
  }

  lemma CrashedStays(s: State, a: nat, ev: Event, c: nat)
    requires Enabled(s, a, ev) && c in s.calls && s.calls[c].Crashed?
    ensures c in Step(s, a, ev).calls && Step(s, a, ev).calls[c] == s.calls[c]
  {
  }

  lemma CrashedHolds(store: Store, calls: map<nat, Pc>, c: nat)
    requires LeasesInv(store, calls) && c in calls && calls[c].Crashed?
    ensures calls[c].claim.key in store.groups && ClaimGroup(store, calls[c].claim.key).1.None?
  {
    assert ClaimInForce(store, calls[c].claim);
  }

  /** And it is the only exception: unless its holder crashed, a leased group's holder always
      has a step of its own to take, so the lease is never stranded. */
  lemma LiveHolderCanProceed(states: seq<State>, steps: seq<(nat, Event)>, n: nat, k: string) returns (c: nat)
    requires Run(states, steps) && n < |states|
    requires k in states[n].store.groups && states[n].store.groups[k].leased
    ensures c in states[n].calls && HoldsKey(states[n].calls[c], k)
    ensures !states[n].calls[c].Crashed? ==> exists ev :: Enabled(states[n], c, ev)
  {
    InvAlways(states, steps, n);
    c := HolderOf(states[n].store, states[n].calls, k);
    HolderCanProceed(states[n], c);
  }

  lemma HolderOf(store: Store, calls: map<nat, Pc>, k: string) returns (c: nat)
    requires LeasesInv(store, calls) && k in store.groups && store.groups[k].leased
    ensures c in calls && HoldsKey(calls[c], k)
  {
    c :| c in calls && HoldsKey(calls[c], k);
  }

  lemma HolderCanProceed(s: State, c: nat)
    requires c in s.calls && Holding(s.calls[c])
    requires (s.calls[c].Expiring? ==> s.calls[c].sent <= |s.calls[c].claim.msgs|)
    ensures !s.calls[c].Crashed? ==> exists ev :: Enabled(s, c, ev)
  {
    match s.calls[c]
    case Releasing(_, _, _) => assert Enabled(s, c, Aggregate(SentOk));
    case Sent(_, _, _) => assert Enabled(s, c, Settle(0));
    case Unwinding(_, _, _, _) => assert Enabled(s, c, Abandon);
    case GivingBack(_, _) => assert Enabled(s, c, Abandon);
    case Judging(_, _) => assert Enabled(s, c, Judge(Complete));
    case Examining(_, _) => assert Enabled(s, c, Judge(Complete));
    case Expiring(claim, sent) =>
      if sent < |claim.msgs| {
        assert Enabled(s, c, SendExpired(SentOk));
      } else {
        assert Enabled(s, c, Settle(0));
      }
    case Crashed(_) =>
  }
}
