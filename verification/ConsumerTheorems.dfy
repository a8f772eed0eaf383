/** What every run of the consumer keeps, and the theorems about its settlements. */
module ConsumerTheorems {
  import opened Reliability
  import opened Messages
  import opened Collections
  import opened QueueSpec
  import QueueMachine
  import opened QueueTheorems
  import opened Attempts
  import opened Consumer

  // ---- Invariants ----------------------------------------------------------------------------

  /** The delivery is still in flight. */
  predicate Active(pc: Pc) {
    !pc.Evicting? && !pc.Finished?
  }

  /** A worker, or the poll loop for the row it was on, owes the delivery a settlement. */
  predicate Owes(pc: Pc) {
    Active(pc) && !pc.Polled? && !pc.Abandoned? && !pc.Unsettled?
  }

  predicate WorkerOk(s: State, k: nat)
    requires k in s.workers
  {
    k <= s.q.epoch && (Active(s.workers[k]) ==> k in s.q.inflight) && PcOk(s.cfg, s.workers[k])
  }

  /** Why a worker is where it is. */
  predicate PcOk(cfg: Config, pc: Pc) {
    match pc
    case Invalid(cause) => IsPermanent(Some(cause))
    case Failed(cause) => !IsPermanent(Some(cause))
    case Exhausted(cause) => !IsPermanent(Some(cause)) && cfg.maxAttempts > 0 && !cfg.nativeDlq
    case Accepted(sink, cause) => SinkOk(cfg, sink, cause)
    case Discarding(reason, cause) => DiscardOk(cfg, reason, cause)
    case _ => true
  }

  predicate SinkOk(cfg: Config, sink: Sink, cause: Error) {
    if IsPermanent(Some(cause)) then sink == InvalidTarget(cfg, cause) && !sink.NoSink?
    else sink == DeadLetterSink && cfg.maxAttempts > 0 && !cfg.nativeDlq
  }

  predicate DiscardOk(cfg: Config, reason: Reason, cause: Error) {
    IsPermanent(Some(cause)) && (reason.NowhereToSend? <==> InvalidTarget(cfg, cause).NoSink?)
  }

  predicate FateOk(cfg: Config, f: Fate) {
    match f
    case Handled => true
    case Sunk(sink, cause) => SinkOk(cfg, sink, cause)
    case Discarded(reason, cause) => DiscardOk(cfg, reason, cause)
  }

  ghost predicate WorkersInv(s: State) {
    && (forall k :: k in s.q.inflight ==> k in s.workers && Active(s.workers[k]))
    && (forall k :: k in s.workers ==> WorkerOk(s, k))
  }

  predicate PlacedOk(s: State, c: nat)
    requires c in s.place
  {
    && c < s.offered
    && !s.place[c].Dropped? && !s.place[c].Evicted?
    && (s.place[c].Acked? <==> c in s.fate)
  }

  ghost predicate FatesInv(s: State) {
    && (forall c :: c in s.place ==> PlacedOk(s, c))
    && (forall c :: 0 <= c < s.offered ==> c in s.place)
    && (forall c :: c in s.fate ==> c in s.place && FateOk(s.cfg, s.fate[c]))
  }

  /** Taken by a sink: acked since, or about to be, or its Ack failed. */
  predicate InSink(s: State, c: nat) {
    c in s.place && ((c in s.fate && s.fate[c].Sunk?) ||
                     (s.place[c].InFlight? && s.place[c].epoch in s.workers && SunkPc(s.workers[s.place[c].epoch])))
  }

  predicate SunkPc(pc: Pc) {
    pc.Accepted? || pc == Unsettled(true)
  }

  ghost predicate AcceptedInv(s: State) {
    && Distinct(s.accepted)
    && (forall c :: c in s.accepted <==> InSink(s, c))
  }

  /** The rows still with the poll loop are the polled ones. */
  ghost predicate BatchInv(s: State) {
    && Distinct(s.batch)
    && (forall k :: k in s.batch ==> k in s.workers && s.workers[k].Polled?)
    && (forall k :: k in s.workers && s.workers[k].Polled? ==> k in s.batch)
  }

  ghost predicate Inv(s: State) {
    ValidQueue(s.q) && PlacesInv(s.q, s.place) && WorkersInv(s) && FatesInv(s) && AcceptedInv(s) && BatchInv(s)
  }

  // ---- Queue and places -------------------------------------------------------------------------

  /** Only these events touch the queue, the places and the fates. */
  predicate TouchesQueue(ev: Event) {
    ev.AckNow? || ev.NackNow? || ev.ClaimSome? || ev.Offer?
  }

  lemma QueueFrame(s: State, ev: Event)
    requires Enabled(s, ev) && !TouchesQueue(ev)
    ensures var t := Step(s, ev);
      t.q == s.q && t.place == s.place && t.fate == s.fate && t.offered == s.offered && t.cfg == s.cfg
  {
  }

  lemma QueueStep(s: State, ev: Event)
    requires ValidQueue(s.q) && PlacesInv(s.q, s.place) && FatesInv(s) && Enabled(s, ev)
    ensures ValidQueue(Step(s, ev).q) && PlacesInv(Step(s, ev).q, Step(s, ev).place)
  {
    if !TouchesQueue(ev) {
      QueueFrame(s, ev);
    } else if ev.Offer? {
      AppendKeepsValid(s.q, ev.msg, s.now);
      PlacesAppend(s.q, s.place, ev.msg, s.now);
    } else if ev.ClaimSome? {
      ClaimKeepsValid(s.q, s.now, ev.max);
      PlacesClaim(s.q, s.place, s.now, ev.max);
    } else {
      QueueSettle(s, ev);
    }
  }

  lemma QueueSettle(s: State, ev: Event)
    requires ValidQueue(s.q) && PlacesInv(s.q, s.place) && Enabled(s, ev) && (ev.AckNow? || ev.NackNow?)
    ensures ValidQueue(Step(s, ev).q) && PlacesInv(Step(s, ev).q, Step(s, ev).place)
  {
    if ev.AckNow? {
      SettleKeepsValid(s.q, ev.k);
      PlacesRemove(s.q, s.place, ev.k, QueueMachine.Acked);
    } else {
      RequeueKeepsValid(s.q, ev.k, s.now, ev.delay);
      PlacesRequeue(s.q, s.place, ev.k, s.now, ev.delay);
    }
  }

  // ---- Workers ----------------------------------------------------------------------------------

  /** An event of one delivery. */
  predicate Moves(ev: Event) {
    !ev.ClaimSome? && !ev.Offer? && !ev.Tick? && !ev.SweepNow? && !IsLoop(ev)
  }

  /** A step that only moves worker k, whose delivery stays in flight. */
  lemma WorkersGoto(s: State, t: State, k: nat, pc: Pc)
    requires WorkersInv(s) && k in s.q.inflight && Active(pc) && PcOk(s.cfg, pc)
    requires t.q == s.q && t.cfg == s.cfg && t.workers == s.workers[k := pc]
    ensures WorkersInv(t)
  {
    forall j | j in t.workers ensures WorkerOk(t, j) {
      assert j in s.workers ==> WorkerOk(s, j);
      assert WorkerOk(s, k);
    }
  }

  /** A step that settles worker k's delivery. */
  lemma WorkersLeave(s: State, t: State, k: nat, pc: Pc)
    requires WorkersInv(s) && k in s.q.inflight && !Active(pc)
    requires t.q.inflight == s.q.inflight - {k} && t.q.epoch == s.q.epoch && t.cfg == s.cfg
    requires t.workers == s.workers[k := pc]
    ensures WorkersInv(t)
  {
    forall j | j in t.workers ensures WorkerOk(t, j) {
      assert j in s.workers ==> WorkerOk(s, j);
      assert WorkerOk(s, k);
    }
  }

  lemma WorkersClaim(s: State, max: int)
    requires ValidQueue(s.q) && WorkersInv(s)
    ensures WorkersInv(StepClaim(s, max))
  {
    var t := StepClaim(s, max);
    ClaimKeepsValid(s.q, s.now, max);
    forall k | k in t.q.inflight ensures k in t.workers && Active(t.workers[k]) {
      ClaimEntry(s.q, s.now, max, k);
    }
    forall k | k in t.workers ensures WorkerOk(t, k) {
      ClaimEntry(s.q, s.now, max, k);
      assert k in s.workers ==> WorkerOk(s, k);
    }
  }

  /** The poll loop moves rows about; none leaves the queue's in-flight entries. */
  lemma WorkersStepLoop(s: State, ev: Event)
    requires WorkersInv(s) && BatchInv(s) && Enabled(s, ev) && IsLoop(ev)
    ensures WorkersInv(Step(s, ev))
  {
    var t := Step(s, ev);
    forall j | j in t.workers ensures WorkerOk(t, j) {
      assert WorkerOk(s, j);
    }
    forall k | k in t.q.inflight ensures k in t.workers && Active(t.workers[k]) {
      assert k in s.q.inflight;
    }
  }

  predicate IsLoop(ev: Event) {
    ev.HandOver? || ev.AbortHandoff? || ev.StopPolling?
  }

  lemma WorkersStepSame(s: State, ev: Event)
    requires WorkersInv(s) && Enabled(s, ev) && (ev.Offer? || ev.Tick? || ev.SweepNow? || ev.EvictNow?)
    ensures WorkersInv(Step(s, ev))
  {
    var t := Step(s, ev);
    forall j | j in t.workers ensures WorkerOk(t, j) {
      assert WorkerOk(s, j);
    }
  }

  lemma WorkersStep(s: State, ev: Event)
    requires ValidQueue(s.q) && WorkersInv(s) && BatchInv(s) && Enabled(s, ev)
    ensures WorkersInv(Step(s, ev))
  {
    var t := Step(s, ev);
    if ev.ClaimSome? {
      WorkersClaim(s, ev.max);
    } else if IsLoop(ev) {
      WorkersStepLoop(s, ev);
    } else if ev.Offer? || ev.Tick? || ev.SweepNow? || ev.EvictNow? {
      WorkersStepSame(s, ev);
    } else {
      assert WorkerOk(s, ev.k);
      if ev.AckNow? {
        WorkersLeave(s, t, ev.k, Evicting(MsgOf(s, ev.k).ID()));
      } else if ev.NackNow? {
        WorkersLeave(s, t, ev.k, Finished);
      } else {
        PcStep(s, ev);
        WorkersGoto(s, t, ev.k, NextPc(s, ev));
      }
    }
  }

  /** The settlement switch justifies where it sends a worker. */
  lemma PcStep(s: State, ev: Event)
    requires Simple(ev) && Enabled(s, ev) && PcOk(s.cfg, s.workers[ev.k])
    ensures Active(NextPc(s, ev)) && PcOk(s.cfg, NextPc(s, ev))
  {
  }

  // ---- Fates ------------------------------------------------------------------------------------

  lemma FatesStepAck(s: State, k: nat)
    requires PlacesInv(s.q, s.place) && WorkersInv(s) && FatesInv(s) && Enabled(s, AckNow(k))
    ensures FatesInv(StepAck(s, k))
  {
    var t := StepAck(s, k);
    assert Held(s.q, s.place, k);
    assert WorkerOk(s, k);
    forall c | c in t.place ensures PlacedOk(t, c) {
      assert PlacedOk(s, c);
    }
  }

  lemma FatesStepNack(s: State, k: nat, delay: int)
    requires PlacesInv(s.q, s.place) && FatesInv(s) && k in s.q.inflight
    ensures FatesInv(StepNack(s, k, delay))
  {
    var t := StepNack(s, k, delay);
    assert Held(s.q, s.place, k);
    forall c | c in t.place ensures PlacedOk(t, c) {
      assert PlacedOk(s, c);
    }
  }

  lemma FatesStepClaim(s: State, max: int)
    requires ValidQueue(s.q) && PlacesInv(s.q, s.place) && FatesInv(s)
    ensures FatesInv(StepClaim(s, max))
  {
    var t := StepClaim(s, max);
    PlacesClaim(s.q, s.place, s.now, max);
    forall c | c in t.place ensures PlacedOk(t, c) {
      assert PlacedOk(s, c);
      ClaimedWereReady(s.q, s.place, s.now, max, c);
      ClaimPlaces(s.place, Claim(s.q, s.now, max).1, c);
    }
  }

  lemma FatesStepOffer(s: State, msg: Message)
    requires FatesInv(s) && msg.delivery == s.offered
    ensures FatesInv(Step(s, Offer(msg)))
  {
    var t := Step(s, Offer(msg));
    forall c | c in t.place ensures PlacedOk(t, c) {
      assert c in s.place ==> PlacedOk(s, c);
      assert msg.delivery in s.place ==> PlacedOk(s, msg.delivery);
    }
  }

  lemma FatesStep(s: State, ev: Event)
    requires ValidQueue(s.q) && PlacesInv(s.q, s.place) && WorkersInv(s) && FatesInv(s) && Enabled(s, ev)
    ensures FatesInv(Step(s, ev))
  {
    if ev.AckNow? {
      FatesStepAck(s, ev.k);
    } else if ev.NackNow? {
      FatesStepNack(s, ev.k, ev.delay);
    } else if ev.ClaimSome? {
      FatesStepClaim(s, ev.max);
    } else if ev.Offer? {
      FatesStepOffer(s, ev.msg);
    } else {
      QueueFrame(s, ev);
      FatesSame(s, Step(s, ev));
    }
  }

  lemma FatesSame(s: State, t: State)
    requires FatesInv(s) && t.place == s.place && t.fate == s.fate && t.offered == s.offered && t.cfg == s.cfg
    ensures FatesInv(t)
  {
    forall c | c in t.place ensures PlacedOk(t, c) {
      assert PlacedOk(s, c);
    }
  }

  // ---- Sinks ------------------------------------------------------------------------------------

  /** The message of the worker that moves, and it alone, is the one in flight under its token. */
  lemma OneToken(s: State, k: nat, c: nat)
    requires FlightInv(s.q, s.place) && k in s.q.inflight && c in s.place && s.place[c] == QueueMachine.InFlight(k)
    ensures c == MsgOf(s, k).delivery
  {
    assert Claimed(s.q, s.place, c);
  }

  lemma InSinkGoto(s: State, ev: Event, c: nat)
    requires Enabled(s, ev) && Moves(ev) && !ev.AckNow? && !ev.NackNow? && !IsAccept(ev)
    ensures InSink(Step(s, ev), c) == InSink(s, c)
  {
  }

  lemma InSinkAck(s: State, k: nat, c: nat)
    requires FlightInv(s.q, s.place) && FatesInv(s) && Enabled(s, AckNow(k))
    ensures InSink(StepAck(s, k), c) == InSink(s, c)
  {
    assert Held(s.q, s.place, k);
    var c0 := MsgOf(s, k).delivery;
    assert PlacedOk(s, c0);
    if c in s.place && s.place[c] == QueueMachine.InFlight(k) {
      OneToken(s, k, c);
    }
  }

  lemma InSinkNack(s: State, k: nat, delay: int, c: nat)
    requires FlightInv(s.q, s.place) && FatesInv(s) && Enabled(s, NackNow(k, delay))
    ensures InSink(StepNack(s, k, delay), c) == InSink(s, c)
  {
    assert Held(s.q, s.place, k);
    var c0 := MsgOf(s, k).delivery;
    assert PlacedOk(s, c0);
    if c in s.place && s.place[c] == QueueMachine.InFlight(k) {
      OneToken(s, k, c);
    }
  }

  lemma InSinkClaim(s: State, max: int, c: nat)
    requires ValidQueue(s.q) && PlacesInv(s.q, s.place) && WorkersInv(s) && FatesInv(s)
    ensures InSink(StepClaim(s, max), c) == InSink(s, c)
  {
    var t := StepClaim(s, max);
    PlacesClaim(s.q, s.place, s.now, max);
    if c in s.place {
      assert PlacedOk(s, c);
      ClaimedWereReady(s.q, s.place, s.now, max, c);
      ClaimPlaces(s.place, Claim(s.q, s.now, max).1, c);
      if t.place[c].InFlight? {
        var k := t.place[c].epoch;
        ClaimClaimed(s.q, s.place, s.now, max, c);
        ClaimEntry(s.q, s.now, max, k);
        if s.place[c].InFlight? {
          assert Claimed(s.q, s.place, c) && k in s.q.inflight;
        } else {
          InSinkNew(s, max, c);
        }
      }
    }
  }

  /** A message just claimed is with a worker that has not started. */
  lemma InSinkNew(s: State, max: int, c: nat)
    requires ValidQueue(s.q) && PlacesInv(s.q, s.place) && WorkersInv(s)
    requires c in s.place && s.place[c].Ready? && c in StepClaim(s, max).place && StepClaim(s, max).place[c].InFlight?
    ensures var t := StepClaim(s, max); t.place[c].epoch in t.workers && t.workers[t.place[c].epoch].Polled?
  {
    var t, claimed := StepClaim(s, max), Claim(s.q, s.now, max).1;
    ClaimedWereReady(s.q, s.place, s.now, max, c);
    ClaimPlaces(s.place, claimed, c);
    var i := CountOccurs(claimed, c);
    ClaimPlaceAt(s.place, claimed, i);
    ClaimToken(s.q, s.now, max, i);
  }

  lemma InSinkAccept(s: State, ev: Event, c: nat)
    requires FlightInv(s.q, s.place) && FatesInv(s) && Enabled(s, ev) && IsAccept(ev)
    ensures !InSink(s, MsgOf(s, ev.k).delivery)
    ensures InSink(Step(s, ev), c) <==> InSink(s, c) || c == MsgOf(s, ev.k).delivery
  {
    assert Held(s.q, s.place, ev.k);
    var c0 := MsgOf(s, ev.k).delivery;
    assert PlacedOk(s, c0);
    if c in s.place && s.place[c] == QueueMachine.InFlight(ev.k) {
      OneToken(s, ev.k, c);
    }
  }

  lemma AcceptedStepNew(s: State, ev: Event)
    requires FlightInv(s.q, s.place) && FatesInv(s) && AcceptedInv(s) && Enabled(s, ev) && IsAccept(ev)
    ensures AcceptedInv(Step(s, ev))
  {
    var t, c0 := Step(s, ev), MsgOf(s, ev.k).delivery;
    InSinkAccept(s, ev, c0);
    assert t.accepted == s.accepted + [c0];
    forall c ensures c in t.accepted <==> InSink(t, c) {
      InSinkAccept(s, ev, c);
      assert c in s.accepted <==> InSink(s, c);
    }
  }

  lemma AcceptedSame(s: State, t: State)
    requires AcceptedInv(s) && t.accepted == s.accepted && forall c :: InSink(t, c) == InSink(s, c)
    ensures AcceptedInv(t)
  {
  }

  lemma AcceptedStep(s: State, ev: Event)
    requires Inv(s) && Enabled(s, ev)
    ensures AcceptedInv(Step(s, ev))
  {
    if IsAccept(ev) {
      AcceptedStepNew(s, ev);
    } else {
      var t := Step(s, ev);
      forall c ensures InSink(t, c) == InSink(s, c) {
        InSinkSame(s, ev, c);
      }
      AcceptedSame(s, t);
    }
  }

  lemma InSinkSame(s: State, ev: Event, c: nat)
    requires ValidQueue(s.q) && PlacesInv(s.q, s.place) && WorkersInv(s) && FatesInv(s) && BatchInv(s)
    requires Enabled(s, ev) && !IsAccept(ev)
    ensures InSink(Step(s, ev), c) == InSink(s, c)
  {
    if ev.AckNow? {
      InSinkAck(s, ev.k, c);
    } else if ev.NackNow? {
      InSinkNack(s, ev.k, ev.delay, c);
    } else if ev.ClaimSome? {
      InSinkClaim(s, ev.max, c);
    } else if ev.Offer? {
      InSinkOffer(s, ev.msg, c);
    } else if IsLoop(ev) {
      InSinkLoop(s, ev, c);
    } else if Moves(ev) {
      InSinkGoto(s, ev, c);
    }
  }

  lemma InSinkOffer(s: State, msg: Message, c: nat)
    requires FatesInv(s) && msg.delivery == s.offered
    ensures InSink(Step(s, Offer(msg)), c) == InSink(s, c)
  {
    assert msg.delivery in s.place ==> PlacedOk(s, msg.delivery);
  }

  lemma InSinkLoop(s: State, ev: Event, c: nat)
    requires BatchInv(s) && Enabled(s, ev) && IsLoop(ev)
    ensures InSink(Step(s, ev), c) == InSink(s, c)
  {
  }

  // ---- The poll loop's rows ---------------------------------------------------------------------

  lemma BatchClaim(s: State, max: int)
    requires ValidQueue(s.q) && WorkersInv(s) && BatchInv(s) && s.batch == []
    ensures BatchInv(StepClaim(s, max))
  {
    var t := StepClaim(s, max);
    ClaimCounts(s.q.ready, |s.q.ready|, s.now, max, s.q.epoch);
    forall k | k in t.batch ensures k in t.workers && t.workers[k].Polled? {
      var i :| 0 <= i < |t.batch| && t.batch[i] == k;
      BatchRow(s, max, i);
    }
    forall k | k in t.workers && t.workers[k].Polled? ensures k in t.batch {
      PolledIsRow(s, max, k);
    }
  }

  lemma BatchRow(s: State, max: int, i: nat)
    requires ValidQueue(s.q) && i < |StepClaim(s, max).batch|
    ensures var t := StepClaim(s, max); t.batch[i] in t.workers && t.workers[t.batch[i]].Polled?
  {
    ClaimToken(s.q, s.now, max, i);
  }

  lemma PolledIsRow(s: State, max: int, k: nat)
    requires ValidQueue(s.q) && WorkersInv(s) && BatchInv(s) && s.batch == []
    requires k in StepClaim(s, max).workers && StepClaim(s, max).workers[k].Polled?
    ensures k in StepClaim(s, max).batch
  {
    assert forall j :: j in s.workers ==> WorkerOk(s, j);
    ClaimEntry(s.q, s.now, max, k);
    ClaimToken(s.q, s.now, max, k - s.q.epoch - 1);
    assert StepClaim(s, max).batch[k - s.q.epoch - 1] == k;
  }

  lemma BatchStep(s: State, ev: Event)
    requires ValidQueue(s.q) && WorkersInv(s) && BatchInv(s) && Enabled(s, ev)
    ensures BatchInv(Step(s, ev))
  {
    if ev.ClaimSome? {
      BatchClaim(s, ev.max);
    } else if IsLoop(ev) {
      BatchLoop(s, ev);
    } else if Moves(ev) {
      BatchMove(s, ev);
    }
  }

  lemma BatchLoop(s: State, ev: Event)
    requires BatchInv(s) && Enabled(s, ev) && IsLoop(ev)
    ensures BatchInv(Step(s, ev))
  {
    if ev.HandOver? {
      var rest := s.batch[1..];
      assert s.batch == [s.batch[0]] + rest;
      assert s.batch[0] !in rest;
    }
  }

  lemma BatchMove(s: State, ev: Event)
    requires BatchInv(s) && Enabled(s, ev) && Moves(ev)
    ensures BatchInv(Step(s, ev))
  {
    MoveFrame(s, ev);
    BatchKept(s, Step(s, ev), ev.k);
  }

  lemma MoveFrame(s: State, ev: Event)
    requires Enabled(s, ev) && Moves(ev)
    ensures
      var t := Step(s, ev);
      && t.batch == s.batch && ev.k in s.workers && ev.k in t.workers && !s.workers[ev.k].Polled?
      && !t.workers[ev.k].Polled?
      && t.workers == s.workers[ev.k := t.workers[ev.k]]
  {
  }

  lemma BatchKept(s: State, t: State, k: nat)
    requires BatchInv(s) && t.batch == s.batch && k in s.workers && k in t.workers && !s.workers[k].Polled?
    requires !t.workers[k].Polled?
    requires t.workers == s.workers[k := t.workers[k]]
    ensures BatchInv(t)
  {
  }

  // ---- Runs -------------------------------------------------------------------------------------

  lemma InvStep(s: State, ev: Event)
    requires Inv(s) && Enabled(s, ev)
    ensures Inv(Step(s, ev))
  {
    QueueStep(s, ev);
    WorkersStep(s, ev);
    FatesStep(s, ev);
    AcceptedStep(s, ev);
    BatchStep(s, ev);
  }

  lemma InvInit(s: State)
    requires Init(s)
    ensures Inv(s)
  {
  }

  lemma {:induction false} InvAlways(states: seq<State>, events: seq<Event>, t: nat)
    requires Run(states, events) && t < |states|
    ensures Inv(states[t])
  {
    if t == 0 {
      InvInit(states[0]);
    } else {
      InvAlways(states, events, t - 1);
      assert StepAt(states, events, t - 1);
      InvStep(states[t - 1], events[t - 1]);
    }
  }

  /** At every point of every run, each message offered is in exactly one place: listed once in
      ready, or in flight under one token, or acked with one fate. In flight it is in exactly one
      of these hands: the poll loop's, still to be handed over; a worker that owes it a
      settlement; or nobody's, because the loop abandoned it or its settle closure failed. */
  lemma EveryMessageIsInOnePlace(states: seq<State>, events: seq<Event>, t: nat, c: nat)
    requires Run(states, events) && t < |states| && c < states[t].offered
    ensures
      var s := states[t];
      && c in s.place && (s.place[c].Ready? || s.place[c].InFlight? || s.place[c].Acked?)
      && Count(s.q.ready, c) == (if s.place[c].Ready? then 1 else 0)
      && (s.place[c].Acked? <==> c in s.fate)
      && (s.place[c].InFlight? ==> s.place[c].epoch in s.q.inflight && InHands(s, s.place[c].epoch))
    ensures forall k :: k in states[t].q.inflight ==>
      (MsgOf(states[t], k).delivery == c <==> states[t].place[c] == QueueMachine.InFlight(k))
  {
    InvAlways(states, events, t);
    OnePlace(states[t], c);
  }

  predicate InHands(s: State, k: nat) {
    && k in s.workers
    && (k in s.batch || Owes(s.workers[k]) || s.workers[k].Abandoned? || s.workers[k].Unsettled?)
    && (k in s.batch <==> s.workers[k].Polled?)
  }

  lemma OnePlace(s: State, c: nat)
    requires PlacesInv(s.q, s.place) && WorkersInv(s) && FatesInv(s) && BatchInv(s) && c < s.offered
    ensures c in s.place && (s.place[c].Ready? || s.place[c].InFlight? || s.place[c].Acked?)
    ensures Count(s.q.ready, c) == if s.place[c].Ready? then 1 else 0
    ensures s.place[c].Acked? <==> c in s.fate
    ensures s.place[c].InFlight? ==> s.place[c].epoch in s.q.inflight && InHands(s, s.place[c].epoch)
    ensures forall k :: k in s.q.inflight ==> (MsgOf(s, k).delivery == c <==> s.place[c] == QueueMachine.InFlight(k))
  {
    assert PlacedOk(s, c) && Claimed(s.q, s.place, c);
    forall k | k in s.q.inflight ensures MsgOf(s, k).delivery == c <==> s.place[c] == QueueMachine.InFlight(k) {
      assert Held(s.q, s.place, k);
    }
  }

  /** The fates are what the settlement switch names: nothing is discarded but an invalid
      message with no sink to go to (none configured, or over-size without an invalid-message
      sink) or one its sink refused; a transient failure ends only in the dead-letter sink. */
  lemma FatesAreNamed(states: seq<State>, events: seq<Event>, t: nat, c: nat)
    requires Run(states, events) && t < |states| && c in states[t].fate
    ensures
      var cfg, f := states[t].cfg, states[t].fate[c];
      && (f.Discarded? ==> IsPermanent(Some(f.cause)))
      && (f.Discarded? && f.reason.NowhereToSend? ==>
            !cfg.invalidSink && (Is(f.cause, PayloadTooLarge) || !cfg.deadLetter))
      && (f.Discarded? && f.reason.SinkRefused? ==>
            cfg.invalidSink || (cfg.deadLetter && !Is(f.cause, PayloadTooLarge)))
      && (f.Sunk? && !IsPermanent(Some(f.cause)) ==> f.sink == DeadLetterSink && cfg.maxAttempts > 0 && !cfg.nativeDlq)
      && (f.Sunk? && IsPermanent(Some(f.cause)) && cfg.invalidSink ==> f.sink == InvalidSink)
      && (f.Sunk? && IsPermanent(Some(f.cause)) && !cfg.invalidSink ==>
            f.sink == DeadLetterSink && cfg.deadLetter && !Is(f.cause, PayloadTooLarge))
  {
    InvAlways(states, events, t);
    assert FateOk(states[t].cfg, states[t].fate[c]);
  }

  /** No message is deposited twice, in one sink or in two; and one that a sink accepted is
      never acked as anything else, nor requeued. */
  lemma DepositedAtMostOnce(states: seq<State>, events: seq<Event>, t: nat)
    requires Run(states, events) && t < |states|
    ensures Distinct(states[t].accepted)
    ensures forall c :: c in states[t].accepted ==>
              && c in states[t].place && !states[t].place[c].Ready?
              && (c in states[t].fate ==> states[t].fate[c].Sunk?)
    ensures forall c :: c in states[t].fate && states[t].fate[c].Sunk? ==> c in states[t].accepted
  {
    InvAlways(states, events, t);
    forall c | c in states[t].accepted
      ensures c in states[t].place && !states[t].place[c].Ready? && (c in states[t].fate ==> states[t].fate[c].Sunk?)
    {
      InSinkMeans(states[t], c);
    }
    forall c | c in states[t].fate && states[t].fate[c].Sunk? ensures c in states[t].accepted {
      assert InSink(states[t], c);
    }
  }

  lemma InSinkMeans(s: State, c: nat)
    requires FatesInv(s) && InSink(s, c)
    ensures !s.place[c].Ready? && (c in s.fate ==> s.fate[c].Sunk?)
  {
    assert PlacedOk(s, c);
  }

  /** A fate is final. */
  lemma {:induction false} FateIsFinal(states: seq<State>, events: seq<Event>, t: nat, u: nat, c: nat)
    requires Run(states, events) && t <= u < |states| && c in states[t].fate
    ensures c in states[u].fate && states[u].fate[c] == states[t].fate[c]
    decreases u
  {
    if t < u {
      FateIsFinal(states, events, t, u - 1, c);
      InvAlways(states, events, u - 1);
      assert StepAt(states, events, u - 1);
      FateKept(states[u - 1], events[u - 1], c);
    }
  }

  lemma FateKept(s: State, ev: Event, c: nat)
    requires FlightInv(s.q, s.place) && FatesInv(s) && Enabled(s, ev) && c in s.fate
    ensures c in Step(s, ev).fate && Step(s, ev).fate[c] == s.fate[c]
  {
    if ev.AckNow? {
      assert Held(s.q, s.place, ev.k);
      assert PlacedOk(s, c);
    } else if !ev.NackNow? && !ev.ClaimSome? && !ev.Offer? {
      QueueFrame(s, ev);
    }
  }

  // ---- What is never settled -----------------------------------------------------------------------

  /** The hand-off was aborted at step i, before row k. */
  predicate AbortedBefore(states: seq<State>, events: seq<Event>, i: nat, k: nat) {
    i < |events| && i < |states| && events[i].AbortHandoff? && states[i].batch != [] && k in states[i].batch
      && k != states[i].batch[0]
  }

  lemma AbandonedByStep(s: State, ev: Event, k: nat)
    requires WorkersInv(s) && BatchInv(s) && Enabled(s, ev)
    ensures (k in Step(s, ev).workers && Step(s, ev).workers[k].Abandoned?) <==>
            (k in s.workers && s.workers[k].Abandoned?) || (ev.AbortHandoff? && k in s.batch && k != s.batch[0])
  {
    if ev.ClaimSome? {
      AbandonedClaim(s, ev.max, k);
    }
  }

  lemma AbandonedClaim(s: State, max: int, k: nat)
    requires WorkersInv(s)
    ensures (k in StepClaim(s, max).workers && StepClaim(s, max).workers[k].Abandoned?) <==>
      (k in s.workers && s.workers[k].Abandoned?)
  {
    assert k in s.workers ==> WorkerOk(s, k);
  }

  /** A claimed row is abandoned exactly when the hand-off of its batch was aborted at an earlier
      row. */
  lemma {:induction false} AbandonedIff(states: seq<State>, events: seq<Event>, t: nat, k: nat)
    requires Run(states, events) && t < |states|
    ensures (k in states[t].workers && states[t].workers[k].Abandoned?) <==>
      exists i :: 0 <= i < t && AbortedBefore(states, events, i, k)
  {
    if t > 0 {
      AbandonedIff(states, events, t - 1, k);
      InvAlways(states, events, t - 1);
      assert StepAt(states, events, t - 1);
      AbandonedByStep(states[t - 1], events[t - 1], k);
      assert AbortedBefore(states, events, t - 1, k) <==>
        (events[t - 1].AbortHandoff? && k in states[t - 1].batch && k != states[t - 1].batch[0]);
    }
  }

  /** And then for good: it keeps its slot in flight in every later state, and no step settles it. */
  lemma {:induction false} AbandonedForGood(states: seq<State>, events: seq<Event>, t: nat, u: nat, k: nat)
    requires Run(states, events) && t <= u < |states| && k in states[t].workers && states[t].workers[k].Abandoned?
    ensures k in states[u].workers && states[u].workers[k].Abandoned? && k in states[u].q.inflight && states[u].stopped
    decreases u
  {
    if t < u {
      AbandonedForGood(states, events, t, u - 1, k);
      InvAlways(states, events, u - 1);
      assert StepAt(states, events, u - 1);
      AbandonedByStep(states[u - 1], events[u - 1], k);
    }
    InvAlways(states, events, u);
    assert WorkerOk(states[u], k);
    AbandonedStopped(states, events, u, k);
  }

  lemma {:induction false} AbandonedStopped(states: seq<State>, events: seq<Event>, t: nat, k: nat)
    requires Run(states, events) && t < |states|
    ensures k in states[t].workers && states[t].workers[k].Abandoned? ==> states[t].stopped
  {
    if t > 0 {
      AbandonedStopped(states, events, t - 1, k);
      InvAlways(states, events, t - 1);
      assert StepAt(states, events, t - 1);
      AbandonedByStep(states[t - 1], events[t - 1], k);
      StoppedStays(states[t - 1], events[t - 1]);
    }
  }

  lemma StoppedStays(s: State, ev: Event)
    requires Enabled(s, ev)
    ensures s.stopped || ev.AbortHandoff? ==> Step(s, ev).stopped
  {
  }

  lemma UnsettledByStep(s: State, ev: Event, k: nat)
    requires WorkersInv(s) && BatchInv(s) && Enabled(s, ev)
    ensures (k in Step(s, ev).workers && Step(s, ev).workers[k].Unsettled?) <==>
            (k in s.workers && s.workers[k].Unsettled?) || ev == SettleFails(k)
  {
    if Simple(ev) {
      UnsettledSimple(s, ev, k);
    } else if ev.ClaimSome? {
      assert k in s.workers ==> WorkerOk(s, k);
    }
  }

  lemma UnsettledSimple(s: State, ev: Event, k: nat)
    requires Simple(ev) && Enabled(s, ev)
    ensures (k in StepSimple(s, ev).workers && StepSimple(s, ev).workers[k].Unsettled?) <==>
            (k in s.workers && s.workers[k].Unsettled?) || ev == SettleFails(k)
  {
  }

  lemma {:induction false} UnsettledIff(states: seq<State>, events: seq<Event>, t: nat, k: nat)
    requires Run(states, events) && t < |states|
    ensures (k in states[t].workers && states[t].workers[k].Unsettled?) <==>
      exists i :: 0 <= i < t && events[i] == SettleFails(k)
  {
    if t > 0 {
      UnsettledIff(states, events, t - 1, k);
      InvAlways(states, events, t - 1);
      assert StepAt(states, events, t - 1);
      UnsettledByStep(states[t - 1], events[t - 1], k);
    }
  }

  /** No silent loss, exactly: once nobody owes a settlement and the loop holds no row, a token is
      still in flight, its message neither settled nor requeued and its slot taken, if and only
      if its hand-off was aborted at an earlier row or its settle closure failed. */
  lemma StuckIff(states: seq<State>, events: seq<Event>, t: nat, k: nat)
    requires Run(states, events) && t < |states| && states[t].batch == []
    requires forall j :: j in states[t].workers ==> !Owes(states[t].workers[j])
    ensures k in states[t].q.inflight <==>
            (exists i :: 0 <= i < t && AbortedBefore(states, events, i, k))
              || (exists i :: 0 <= i < t && events[i] == SettleFails(k))
  {
    AbandonedIff(states, events, t, k);
    UnsettledIff(states, events, t, k);
    InvAlways(states, events, t);
    StuckTokens(states[t], k);
  }

  lemma StuckTokens(s: State, k: nat)
    requires WorkersInv(s) && BatchInv(s) && s.batch == [] && forall j :: j in s.workers ==> !Owes(s.workers[j])
    ensures k in s.q.inflight <==> k in s.workers && (s.workers[k].Abandoned? || s.workers[k].Unsettled?)
  {
    if k in s.workers {
      assert WorkerOk(s, k);
    }
  }

  // ---- A run that abandons a row ---------------------------------------------------------------------

  lemma Extend(states: seq<State>, events: seq<Event>, ev: Event) returns (states': seq<State>, events': seq<Event>)
    requires Run(states, events) && Enabled(states[|states| - 1], ev)
    ensures Run(states', events') && events' == events + [ev] && states' == states + [Step(states[|states| - 1], ev)]
  {
    states', events' := states + [Step(states[|states| - 1], ev)], events + [ev];
    forall t | 0 <= t < |events'| ensures StepAt(states', events', t) {
      if t < |events| {
        assert StepAt(states, events, t);
        assert states'[t] == states[t] && states'[t + 1] == states[t + 1] && events'[t] == events[t];
      } else {
        assert states'[t] == states[|states| - 1];
      }
    }
  }

  lemma ClaimTwo(q: Queue, a: Message, b: Message)
    requires q == Queue([Entry(a, 0, 0), Entry(b, 0, 0)], map[], 0)
    ensures
      var (q', claimed) := Claim(q, 0, 2);
      && claimed == [Entry(a, 0, 1), Entry(b, 0, 2)] && q'.ready == [] && q'.epoch == 2
      && q'.inflight == map[1 := Entry(a, 0, 1), 2 := Entry(b, 0, 2)]
  {
    var ready := q.ready;
    assert Taken(ready, 1, 0, 2, 0) == [Entry(a, 0, 1)] && Kept(ready, 1, 0, 2, 0) == [];
    assert Taken(ready, 2, 0, 2, 0) == [Entry(a, 0, 1), Entry(b, 0, 2)] && Kept(ready, 2, 0, 2, 0) == [];
    var claimed := [Entry(a, 0, 1), Entry(b, 0, 2)];
    assert claimed[..1] == [Entry(a, 0, 1)] && [Entry(a, 0, 1)][..0] == [];
    assert Leased(map[], [Entry(a, 0, 1)]) == map[1 := Entry(a, 0, 1)];
  }

  /** Two messages are claimed in one poll, and the context is done at the first row: it is
      requeued, and the second stays in flight with nobody to settle it. */
  lemma AbandonHappens(cfg: Config, a: Message, b: Message) returns (states: seq<State>, events: seq<Event>)
    requires cfg.Valid() && a.delivery == 0 && b.delivery == 1
    ensures Run(states, events) && events == [Offer(a), Offer(b), ClaimSome(2), AbortHandoff, NackNow(1, 0)]
    ensures
      var s := states[5];
      && |states| == 6 && s.batch == [] && (forall j :: j in s.workers ==> !Owes(s.workers[j]))
      && s.q.inflight == map[2 := Entry(b, 0, 2)] && 2 in s.workers && s.workers[2].Abandoned?
      && s.q.ready == [Entry(a, 0, 0)]
  {
    states, events := TwoClaimed(cfg, a, b);
    states, events := FirstRequeued(states, events, a, b);
  }

  predicate TwoPolled(s: State, a: Message, b: Message) {
    && s.batch == [1, 2] && s.workers == map[1 := Polled, 2 := Polled] && s.now == 0
    && s.q == Queue([], map[1 := Entry(a, 0, 1), 2 := Entry(b, 0, 2)], 2)
  }

  lemma TwoClaimed(cfg: Config, a: Message, b: Message) returns (states: seq<State>, events: seq<Event>)
    requires cfg.Valid() && a.delivery == 0 && b.delivery == 1
    ensures Run(states, events) && events == [Offer(a), Offer(b), ClaimSome(2)] && |states| == 4
    ensures TwoPolled(states[3], a, b)
  {
    var s0 := State(cfg, NEW_QUEUE, 0, map[], 1, map[], [], false, map[], map[], [], 0);
    AfterOffers(s0, a, b);
    states, events := ExtendTwo([s0], [], Offer(a), Offer(b));
    AfterClaimTwo(states[2], a, b);
    states, events := Extend(states, events, ClaimSome(2));
  }

  lemma FirstRequeued(states: seq<State>, events: seq<Event>, a: Message, b: Message)
    returns (states': seq<State>, events': seq<Event>)
    requires Run(states, events) && |states| == 4 && TwoPolled(states[3], a, b)
    ensures Run(states', events') && events' == events + [AbortHandoff, NackNow(1, 0)] && |states'| == 6
    ensures
      var s := states'[5];
      s.workers == map[1 := Finished, 2 := Abandoned] && s.batch == []
        && s.q == Queue([Entry(a, 0, 0)], map[2 := Entry(b, 0, 2)], 2)
  {
    AfterAbort(states[3], a, b);
    AfterNack(Step(states[3], AbortHandoff), a, b);
    states', events' := ExtendTwo(states, events, AbortHandoff, NackNow(1, 0));
  }

  lemma ExtendTwo(states: seq<State>, events: seq<Event>, ev: Event, ev': Event)
    returns (states': seq<State>, events': seq<Event>)
    requires Run(states, events) && Enabled(states[|states| - 1], ev) && Enabled(Step(states[|states| - 1], ev), ev')
    ensures Run(states', events') && events' == events + [ev, ev'] && |states'| == |states| + 2
    ensures states'[|states'| - 1] == Step(Step(states[|states| - 1], ev), ev')
  {
    states', events' := Extend(states, events, ev);
    states', events' := Extend(states', events', ev');
  }

  lemma AfterOffers(s: State, a: Message, b: Message)
    requires s.q == NEW_QUEUE && s.now == 0 && s.workers == map[] && s.batch == [] && !s.stopped && s.offered == 0
    requires a.delivery == 0 && b.delivery == 1
    ensures
      var t := Step(Step(s, Offer(a)), Offer(b));
      && t.q == Queue([Entry(a, 0, 0), Entry(b, 0, 0)], map[], 0) && t.workers == map[] && t.now == 0 && t.batch == []
      && !t.stopped
  {
    var t := Step(s, Offer(a));
    assert t.q.ready == [Entry(a, 0, 0)];
  }

  lemma AfterAbort(s: State, a: Message, b: Message)
    requires s.batch == [1, 2] && s.workers == map[1 := Polled, 2 := Polled] && s.now == 0
    requires s.q == Queue([], map[1 := Entry(a, 0, 1), 2 := Entry(b, 0, 2)], 2)
    ensures
      var t := Step(s, AbortHandoff);
      t.workers == map[1 := Retrying, 2 := Abandoned] && t.batch == [] && t.q == s.q && t.now == 0
  {
  }

  lemma AfterNack(s: State, a: Message, b: Message)
    requires s.workers == map[1 := Retrying, 2 := Abandoned] && s.batch == [] && s.now == 0
    requires s.q == Queue([], map[1 := Entry(a, 0, 1), 2 := Entry(b, 0, 2)], 2)
    ensures
      var t := StepNack(s, 1, 0);
      t.workers == map[1 := Finished, 2 := Abandoned] && t.batch == []
        && t.q == Queue([Entry(a, 0, 0)], map[2 := Entry(b, 0, 2)], 2)
  {
    assert s.q.inflight - {1} == map[2 := Entry(b, 0, 2)];
  }

  lemma AfterClaimTwo(s: State, a: Message, b: Message)
    requires s.q == Queue([Entry(a, 0, 0), Entry(b, 0, 0)], map[], 0) && s.workers == map[] && s.now == 0
    ensures
      var t := StepClaim(s, 2);
      && t.batch == [1, 2] && t.workers == map[1 := Polled, 2 := Polled] && t.now == 0
      && t.q == Queue([], map[1 := Entry(a, 0, 1), 2 := Entry(b, 0, 2)], 2)
  {
    ClaimTwo(s.q, a, b);
  }

  // ---- Attempts ---------------------------------------------------------------------------------

  /** No native delivery count. */
  predicate Tracked(m: Message) {
    !(HEADER_DELIVERY_COUNT in m.headers && m.headers[HEADER_DELIVERY_COUNT].Int?)
  }

  /** The transient failures of an id since it was last forgotten, by an eviction or by a sweep
      that found it idle, and when the last of them was counted: read off the events and the
      clock of the run. */
  function Tally(states: seq<State>, events: seq<Event>, t: nat, id: string): Option<Attempt>
    requires Run(states, events) && t < |states|
  {
    if t == 0 then None
    else
      var before, s, ev := Tally(states, events, t - 1, id), states[t - 1], events[t - 1];
      assert StepAt(states, events, t - 1);
      if ev.CountAttempt? && Tracked(MsgOf(s, ev.k)) && MsgOf(s, ev.k).ID() == id then
        Some(Attempt((if before.Some? then before.value.count else 0) + 1, s.now))
      else if ev.EvictNow? && s.workers[ev.k].id == id then None
      else if ev.SweepNow? && before.Some? && s.now - before.value.lastSeen >= s.ttl then None
      else before
  }

  function FailuresSince(states: seq<State>, events: seq<Event>, t: nat, id: string): nat
    requires Run(states, events) && t < |states|
  {
    var tally := Tally(states, events, t, id);
    if tally.Some? then tally.value.count else 0
  }

  function Tracks(tracker: map<string, Attempt>, id: string): Option<Attempt> {
    if id in tracker then Some(tracker[id]) else None
  }

  /** The tracker holds just that. */
  lemma {:induction false} TrackerCounts(states: seq<State>, events: seq<Event>, t: nat, id: string)
    requires Run(states, events) && t < |states|
    ensures Tracks(states[t].tracker, id) == Tally(states, events, t, id)
  {
    if t > 0 {
      TrackerCounts(states, events, t - 1, id);
      assert StepAt(states, events, t - 1);
      TrackerStep(states[t - 1], events[t - 1], id);
    }
  }

  lemma TrackerStep(s: State, ev: Event, id: string)
    requires Enabled(s, ev)
    ensures Tracks(Step(s, ev).tracker, id) ==
      if ev.CountAttempt? && Tracked(MsgOf(s, ev.k)) && MsgOf(s, ev.k).ID() == id
        then Some(Attempt(CountOf(s.tracker, id) + 1, s.now))
      else if ev.EvictNow? && s.workers[ev.k].id == id then None
      else if ev.SweepNow? && id in s.tracker && Idle(s.tracker[id], s.now, s.ttl) then None
      else Tracks(s.tracker, id)
  {
  }

  /** The attempt a transient failure counts as: the native delivery count if the message carries
      one, else one more than the failures of its id since it was last forgotten. */
  function AttemptNumber(states: seq<State>, events: seq<Event>, t: nat, m: Message): int
    requires Run(states, events) && t < |states|
  {
    if Tracked(m) then FailuresSince(states, events, t, m.ID()) + 1 else m.headers[HEADER_DELIVERY_COUNT].n
  }

  /** Without native dead-lettering, the m-th attempt to fail, and each later one, goes to the
      dead-letter sink, and no earlier one does; with it, none does. The others are redelivered.
      A native count leaves the tracker alone. */
  lemma DeadLetterFromTheMth(states: seq<State>, events: seq<Event>, t: nat)
    requires Run(states, events) && t < |events| && events[t].CountAttempt? && StepAt(states, events, t)
    ensures
      var s, k, max := states[t], events[t].k, states[t].cfg.maxAttempts;
      var m := MsgOf(s, k);
      var dead := 0 < max <= AttemptNumber(states, events, t, m) && !s.cfg.nativeDlq;
      && k in states[t + 1].workers
      && states[t + 1].workers[k] == (if dead then Exhausted(s.workers[k].cause) else Retrying)
      && (!Tracked(m) ==> states[t + 1].tracker == s.tracker)
  {
    TrackerCounts(states, events, t, MsgOf(states[t], events[t].k).ID());
  }

  /** The dead-letter sink sees a transient failure only after its count, in the same dispatch. */
  lemma {:induction false} ExhaustedWasCounted(states: seq<State>, events: seq<Event>, t: nat, k: nat) returns (u: nat)
    requires Run(states, events) && t < |states| && k in states[t].workers && states[t].workers[k].Exhausted?
    ensures u < t && events[u] == CountAttempt(k)
    ensures forall v :: u < v <= t ==> k in states[v].workers && states[v].workers[k].Exhausted?
  {
    var s, ev := states[t - 1], events[t - 1];
    assert StepAt(states, events, t - 1);
    if k in s.workers && s.workers[k].Exhausted? {
      u := ExhaustedWasCounted(states, events, t - 1, k);
    } else {
      BecomesExhausted(s, ev, k);
      u := t - 1;
    }
  }

  lemma BecomesExhausted(s: State, ev: Event, k: nat)
    requires Enabled(s, ev) && !(k in s.workers && s.workers[k].Exhausted?)
    requires k in Step(s, ev).workers && Step(s, ev).workers[k].Exhausted?
    ensures ev == CountAttempt(k)
  {
  }
}
