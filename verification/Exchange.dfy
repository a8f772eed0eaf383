/** endpoint/exchange.go: the reply correlator and every interleaving of Exchange calls,
    reply deliveries and Close, with correlation ids reused at will. */
module Exchange {
  import opened Reliability

  /** A one-shot reply slot: a channel of capacity one. A reply is named by the delivery that
      brought it. */
  datatype Slot = Slot(buffer: Option<nat>, closed: bool)

  /** The correlator. A slot is named by the Exchange call that registered it, which is its
      identity. `fault` records a send on a full or closed slot, or a second close of one. */
  datatype Correlator = Correlator(waiters: map<string, nat>, slots: map<nat, Slot>, closed: bool, fault: bool)

  datatype Registration = Granted | GatewayClosed | DuplicateCorrelation

  function Register(c: Correlator, id: string, x: nat): (Correlator, Registration) {
    if c.closed then (c, GatewayClosed)
    else if id in c.waiters then (c, DuplicateCorrelation)
    else (c.(waiters := c.waiters[id := x], slots := c.slots[x := Slot(None, false)]), Granted)
  }

  /** Removes the entry only if it is the caller's own slot. */
  function Deregister(c: Correlator, id: string, x: nat): (Correlator, bool) {
    if id in c.waiters && c.waiters[id] == x then (c.(waiters := c.waiters - {id}), true) else (c, false)
  }

  /** The first half of deliver, under the lock. */
  function Lookup(c: Correlator, id: string): (Correlator, Option<nat>) {
    if id in c.waiters then (c.(waiters := c.waiters - {id}), Some(c.waiters[id])) else (c, None)
  }

  /** The second half of deliver, outside the lock. */
  function Push(c: Correlator, x: nat, d: nat): Correlator {
    if x !in c.slots || c.slots[x].closed || c.slots[x].buffer.Some? then c.(fault := true)
    else c.(slots := c.slots[x := Slot(Some(d), false)])
  }

  /** A receive would not block: a value is there, or the slot is closed. */
  predicate Receivable(c: Correlator, x: nat) {
    x in c.slots && (c.slots[x].buffer.Some? || c.slots[x].closed)
  }

  function AfterReceive(c: Correlator, x: nat): Correlator
    requires x in c.slots
  {
    c.(slots := c.slots[x := c.slots[x].(buffer := None)])
  }

  /** closeAll: every waiting slot is closed and removed; a second call does nothing. */
  ghost function CloseAll(c: Correlator): Correlator {
    if c.closed then c
    else
      Correlator(map[],
                 MarkClosed(c.slots, c.waiters.Values),
                 true,
                 c.fault || AnyClosed(c.slots, c.waiters.Values))
  }

  /** The correlator in its own form: fields updated under its mutex. */
  class ReplyCorrelator {
    var waiters: map<string, nat>
    var slots: map<nat, Slot>
    var closed: bool
    var fault: bool

    ghost function Value(): Correlator
      reads this
    {
      Correlator(waiters, slots, closed, fault)
    }

    constructor ()
      ensures Value() == Correlator(map[], map[], false, false)
    {
      waiters, slots, closed, fault := map[], map[], false, false;
    }

    method RegisterWaiter(id: string, x: nat) returns (reg: Registration)
      modifies this
      ensures (Value(), reg) == Register(old(Value()), id, x)
    {
      if closed {
        return GatewayClosed;
      }
      if id in waiters {
        return DuplicateCorrelation;
      }
      slots := slots[x := Slot(None, false)];
      waiters := waiters[id := x];
      return Granted;
    }

    method DeregisterWaiter(id: string, x: nat) returns (removed: bool)
      modifies this
      ensures (Value(), removed) == Deregister(old(Value()), id, x)
    {
      if id in waiters && waiters[id] == x {
        waiters := waiters - {id};
        return true;
      }
      return false;
    }

    /** deliver up to the unlock. */
    method TakeWaiter(id: string) returns (slot: Option<nat>)
      modifies this
      ensures (Value(), slot) == Lookup(old(Value()), id)
    {
      slot := None;
      if id in waiters {
        slot := Some(waiters[id]);
        waiters := waiters - {id};
      }
    }

    /** closeAll: walks the map in any order, closing and removing each entry. It needs no two
        entries to share a slot, which register guarantees. */
    method CloseWaiters()
      requires forall a, b :: a in waiters && b in waiters && waiters[a] == waiters[b] ==> a == b
      requires forall id :: id in waiters ==> waiters[id] in slots
      modifies this
      ensures Value() == CloseAll(old(Value()))
    {
      if closed {
        return;
      }
      closed := true;
      ghost var all, before, fault0 := waiters, slots, fault;
      ghost var done: set<nat> := {};
      while waiters.Keys != {}
        invariant closed && waiters.Keys <= all.Keys
        invariant forall id :: id in waiters ==> waiters[id] == all[id] && all[id] !in done
        invariant forall id :: id in all && id !in waiters ==> all[id] in done
        invariant done <= all.Values
        invariant slots == MarkClosed(before, done)
        invariant fault == (fault0 || AnyClosed(before, done))
        decreases waiters.Keys
      {
        var id :| id in waiters.Keys;
        var x := waiters[id];
        MarkOne(before, done, x);
        if slots[x].closed {
          fault := true;
        }
        slots := slots[x := slots[x].(closed := true)];
        waiters := waiters - {id};
        done := done + {x};
      }
      assert done == all.Values;
    }
  }

  /** The slots with the given ones closed. */
  ghost function MarkClosed(slots: map<nat, Slot>, xs: set<nat>): map<nat, Slot> {
    map x | x in slots :: if x in xs then slots[x].(closed := true) else slots[x]
  }

  ghost predicate AnyClosed(slots: map<nat, Slot>, xs: set<nat>) {
    exists x :: x in xs && (x !in slots || slots[x].closed)
  }

  lemma MarkOne(slots: map<nat, Slot>, done: set<nat>, x: nat)
    requires x in slots && x !in done
    ensures MarkClosed(slots, done)[x] == slots[x]
    ensures MarkClosed(slots, done + {x}) == MarkClosed(slots, done)[x := slots[x].(closed := true)]
    ensures AnyClosed(slots, done + {x}) <==> AnyClosed(slots, done) || slots[x].closed
  {
  }

  // ---- Calls and events -------------------------------------------------------------

  datatype Result = Refused(why: Registration) | Replied(reply: nat) | Closed | Abandoned

  /** Where an Exchange call stands. Sending is the request send in progress; GivingUp is the
      deferred reconciler about to deregister, after a send error, a timeout, a cancelled
      context or a panic; Draining is the reconciler blocked on its slot. */
  datatype Call =
    | Sending(id: string)
    | Waiting(id: string)
    | GivingUp(id: string)
    | Draining(id: string)
    | Done(result: Result)

  /** Where the delivery of a reply stands. Finished replies went to a slot or to routeUnmatched. */
  datatype Delivery =
    | Arrived(id: string)
    | Committed(id: string, slot: nat)
    | Finished(id: string)

  /** unmatched: how often each reply went to routeUnmatched; requests: the correlation id each
      Exchange call asked for. */
  datatype State = State(
    corr: Correlator,
    calls: map<nat, Call>,
    deliveries: map<nat, Delivery>,
    requests: map<nat, string>,
    unmatched: multiset<nat>)

  datatype Event =
    | Begin(x: nat, id: string)
    | SendDone(x: nat)
    | Receive(x: nat)
    | GiveUp(x: nat)
    | Reconcile(x: nat)
    | Drain(x: nat)
    | ReplyArrives(d: nat, replyId: string)
    | Take(d: nat)
    | Put(d: nat)
    | Close

  ghost predicate Enabled(s: State, ev: Event) {
    match ev
    case Begin(x, _) => x !in s.calls
    case SendDone(x) => x in s.calls && s.calls[x].Sending?
    case Receive(x) => x in s.calls && s.calls[x].Waiting? && Receivable(s.corr, x)
    case GiveUp(x) => x in s.calls && (s.calls[x].Sending? || s.calls[x].Waiting?)
    case Reconcile(x) => x in s.calls && s.calls[x].GivingUp?
    case Drain(x) => x in s.calls && s.calls[x].Draining? && Receivable(s.corr, x)
    case ReplyArrives(d, _) => d !in s.deliveries
    case Take(d) => d in s.deliveries && s.deliveries[d].Arrived?
    case Put(d) => d in s.deliveries && s.deliveries[d].Committed?
    case Close => true
  }

  ghost function Step(s: State, ev: Event): State
    requires Enabled(s, ev)
  {
    match ev
    case Begin(x, id) =>
      var (corr', reg) := Register(s.corr, id, x);
      s.(corr := corr', calls := s.calls[x := if reg.Granted? then Sending(id) else Done(Refused(reg))],
         requests := s.requests[x := id])
    case SendDone(x) => s.(calls := s.calls[x := Waiting(s.calls[x].id)])
    case Receive(x) =>
      var slot := s.corr.slots[x];
      s.(corr := AfterReceive(s.corr, x),
         calls := s.calls[x := Done(if slot.buffer.Some? then Replied(slot.buffer.value) else Closed)])
    case GiveUp(x) => s.(calls := s.calls[x := GivingUp(s.calls[x].id)])
    case Reconcile(x) =>
      var (corr', removed) := Deregister(s.corr, s.calls[x].id, x);
      s.(corr := corr', calls := s.calls[x := if removed then Done(Abandoned) else Draining(s.calls[x].id)])
    case Drain(x) =>
      var slot := s.corr.slots[x];
      s.(corr := AfterReceive(s.corr, x), calls := s.calls[x := Done(Abandoned)],
         unmatched := if slot.buffer.Some? then s.unmatched + multiset{slot.buffer.value} else s.unmatched)
    case ReplyArrives(d, id) => s.(deliveries := s.deliveries[d := Arrived(id)])
    case Take(d) =>
      var id := s.deliveries[d].id;
      var (corr', slot) := Lookup(s.corr, id);
      if slot.Some? then s.(corr := corr', deliveries := s.deliveries[d := Committed(id, slot.value)])
      else s.(deliveries := s.deliveries[d := Finished(id)], unmatched := s.unmatched + multiset{d})
    case Put(d) =>
      s.(corr := Push(s.corr, s.deliveries[d].slot, d), deliveries := s.deliveries[d := Finished(s.deliveries[d].id)])
    case Close => s.(corr := CloseAll(s.corr))
  }

  ghost predicate Init(s: State) {
    s == State(Correlator(map[], map[], false, false), map[], map[], map[], multiset{})
  }

  ghost predicate Run(states: seq<State>, events: seq<Event>) {
    && |states| == |events| + 1
    && Init(states[0])
    && forall i :: 0 <= i < |events| ==> RunsAt(states, events, i)
  }

  ghost predicate RunsAt(states: seq<State>, events: seq<Event>, i: nat)
    requires |states| == |events| + 1 && i < |events|
  {
    Enabled(states[i], events[i]) && states[i + 1] == Step(states[i], events[i])
  }

  // ---- The invariant ----------------------------------------------------------------

  /** The call still has a slot to look at. */
  predicate Live(call: Call) {
    !call.Done?
  }

  /** The call's slot is in the waiters map. */
  predicate Registered(s: State, x: nat) {
    x in s.calls && Live(s.calls[x]) && s.calls[x].id in s.corr.waiters && s.corr.waiters[s.calls[x].id] == x
  }

  /** Some delivery has taken the slot off the map and will send to it. */
  ghost predicate Promised(s: State, x: nat) {
    exists d :: PromisedBy(s, x, d)
  }

  ghost predicate PromisedBy(s: State, x: nat, d: nat) {
    d in s.deliveries && s.deliveries[d].Committed? && s.deliveries[d].slot == x
  }

  /** Every waiter entry is the open, empty slot of a live call of that id, which no delivery
      has taken. */
  ghost predicate WaitersInv(s: State) {
    && (s.corr.closed ==> s.corr.waiters == map[])
    && (forall id :: id in s.corr.waiters ==> WaiterOk(s, id))
  }

  ghost predicate WaiterOk(s: State, id: string)
    requires id in s.corr.waiters
  {
    var x := s.corr.waiters[id];
    && x in s.calls && Live(s.calls[x]) && !s.calls[x].Draining? && s.calls[x].id == id
    && x in s.corr.slots && s.corr.slots[x] == Slot(None, false)
    && !Promised(s, x)
  }

  /** A live call off the map was promised a reply, holds one, or was closed; exactly one. */
  ghost predicate CallOk(s: State, x: nat)
    requires x in s.calls
  {
    && x in s.requests
    && (Live(s.calls[x]) ==>
          && s.calls[x].id == s.requests[x]
          && x in s.corr.slots
          && (s.corr.slots[x].buffer.Some? ==> !s.corr.slots[x].closed)
          && (Registered(s, x) || Promised(s, x) || s.corr.slots[x].buffer.Some? || s.corr.slots[x].closed))
    && (!Live(s.calls[x]) ==> x in s.corr.slots ==> s.corr.slots[x].buffer.None?)
  }

  /** A committed delivery goes to the empty, open slot of a live call of its own id. */
  ghost predicate DeliveryOk(s: State, d: nat)
    requires d in s.deliveries
  {
    s.deliveries[d].Committed? ==>
      var x := s.deliveries[d].slot;
      && x in s.calls && Live(s.calls[x]) && s.calls[x].id == s.deliveries[d].id
      && x in s.corr.slots && s.corr.slots[x] == Slot(None, false)
      && forall e :: PromisedBy(s, x, e) ==> e == d
  }

  ghost predicate SlotsInv(s: State) {
    && !s.corr.fault
    && WaitersInv(s)
    && (forall x :: x in s.corr.slots ==> x in s.calls)
    && (forall x :: x in s.calls ==> CallOk(s, x))
    && (forall d :: d in s.deliveries ==> DeliveryOk(s, d))
  }

  /** Where a reply can be once its delivery is over. */
  datatype Place = Sink | InSlot(x: nat) | Answer(x: nat)

  predicate At(s: State, d: nat, p: Place) {
    match p
    case Sink => s.unmatched[d] > 0
    case InSlot(x) => x in s.corr.slots && s.corr.slots[x].buffer == Some(d)
    case Answer(x) => x in s.calls && s.calls[x] == Done(Replied(d))
  }

  /** A finished delivery's reply is in exactly one place, once, under its own id; an unfinished
      one's is nowhere yet. */
  ghost predicate FateOk(s: State, d: nat) {
    && s.unmatched[d] <= 1
    && (forall p :: At(s, d, p) ==> d in s.deliveries && s.deliveries[d].Finished?)
    && (forall p, q :: At(s, d, p) && At(s, d, q) ==> p == q)
    && (d in s.deliveries && s.deliveries[d].Finished? ==> exists p :: At(s, d, p))
    && (forall p :: At(s, d, p) && !p.Sink? ==> p.x in s.requests && s.requests[p.x] == s.deliveries[d].id)
  }

  ghost predicate FatesInv(s: State) {
    forall d :: FateOk(s, d)
  }

  ghost predicate Inv(s: State) {
    SlotsInv(s) && FatesInv(s)
  }

  // ---- Slots, event by event --------------------------------------------------------

  lemma SlotsBegin(s: State, x: nat, id: string)
    requires SlotsInv(s) && x !in s.calls
    ensures SlotsInv(Step(s, Begin(x, id)))
  {
    var s' := Step(s, Begin(x, id));
    assert x !in s.corr.slots;
    forall y ensures Promised(s', y) <==> Promised(s, y) {
      assert forall d :: PromisedBy(s', y, d) <==> PromisedBy(s, y, d);
    }
    assert !Promised(s, x) by {
      forall d | d in s.deliveries ensures !PromisedBy(s, x, d) {
        assert DeliveryOk(s, d);
      }
    }
    forall i | i in s'.corr.waiters ensures WaiterOk(s', i) {
      if i in s.corr.waiters {
        assert WaiterOk(s, i);
      }
    }
    forall y | y in s'.calls ensures CallOk(s', y) {
      if y != x {
        assert CallOk(s, y);
      }
    }
    forall d | d in s'.deliveries ensures DeliveryOk(s', d) {
      assert DeliveryOk(s, d);
      assert forall y, e :: PromisedBy(s', y, e) <==> PromisedBy(s, y, e);
    }
  }

  /** A call that goes on without touching the correlator. */
  lemma SlotsMove(s: State, x: nat, call: Call)
    requires SlotsInv(s) && x in s.calls && Live(s.calls[x]) && !s.calls[x].Draining?
    requires Live(call) && !call.Draining? && call.id == s.calls[x].id
    ensures SlotsInv(s.(calls := s.calls[x := call]))
  {
    var s' := s.(calls := s.calls[x := call]);
    SamePromises(s, s');
    forall i | i in s'.corr.waiters ensures WaiterOk(s', i) {
      assert WaiterOk(s, i);
    }
    forall y | y in s'.calls ensures CallOk(s', y) {
      assert CallOk(s, y);
      assert Registered(s, y) ==> Registered(s', y);
    }
    forall d | d in s'.deliveries ensures DeliveryOk(s', d) {
      assert DeliveryOk(s, d);
    }
  }

  lemma SamePromises(s: State, s': State)
    requires s'.deliveries == s.deliveries
    ensures forall y, d :: PromisedBy(s', y, d) <==> PromisedBy(s, y, d)
    ensures forall y :: Promised(s', y) <==> Promised(s, y)
  {
    forall y ensures Promised(s', y) <==> Promised(s, y) {
      assert forall d :: PromisedBy(s', y, d) <==> PromisedBy(s, y, d);
    }
  }

  /** Receiving empties the caller's own slot and ends the call. */
  lemma SlotsReceive(s: State, x: nat, s': State)
    requires SlotsInv(s) && x in s.calls && Live(s.calls[x]) && Receivable(s.corr, x)
    requires s'.corr == AfterReceive(s.corr, x) && s'.deliveries == s.deliveries && s'.requests == s.requests
    requires s'.calls.Keys == s.calls.Keys && s'.calls[x].Done?
    requires forall y :: y in s.calls && y != x ==> s'.calls[y] == s.calls[y]
    ensures SlotsInv(s')
  {
    SamePromises(s, s');
    assert CallOk(s, x);
    forall i | i in s'.corr.waiters ensures WaiterOk(s', i) {
      assert WaiterOk(s, i);
    }
    forall y | y in s'.calls ensures CallOk(s', y) {
      assert CallOk(s, y);
      assert y != x && Registered(s, y) ==> Registered(s', y);
    }
    forall d | d in s'.deliveries ensures DeliveryOk(s', d) {
      assert DeliveryOk(s, d);
    }
  }

  lemma SlotsReconcile(s: State, x: nat)
    requires SlotsInv(s) && x in s.calls && s.calls[x].GivingUp?
    ensures SlotsInv(Step(s, Reconcile(x)))
  {
    var s' := Step(s, Reconcile(x));
    SamePromises(s, s');
    assert CallOk(s, x);
    var own := Registered(s, x);
    forall i | i in s'.corr.waiters ensures WaiterOk(s', i) {
      assert WaiterOk(s, i);
    }
    forall y | y in s'.calls ensures CallOk(s', y) {
      assert CallOk(s, y);
      if y == x {
        if own {
          assert WaiterOk(s, s.calls[x].id);
        }
      } else if Registered(s, y) {
        assert Registered(s', y);
      }
    }
    forall d | d in s'.deliveries ensures DeliveryOk(s', d) {
      assert DeliveryOk(s, d);
      assert own ==> !PromisedBy(s, x, d) by {
        assert own ==> WaiterOk(s, s.calls[x].id);
      }
    }
  }

  lemma SlotsArrive(s: State, d: nat, id: string)
    requires SlotsInv(s) && d !in s.deliveries
    ensures SlotsInv(s.(deliveries := s.deliveries[d := Arrived(id)]))
  {
    SlotsAside(s, d, Arrived(id), s.unmatched);
  }

  /** A delivery that is not and was not committed changes no promise. */
  lemma SlotsAside(s: State, d: nat, del: Delivery, unmatched: multiset<nat>)
    requires SlotsInv(s) && !del.Committed? && (d in s.deliveries ==> !s.deliveries[d].Committed?)
    ensures SlotsInv(s.(deliveries := s.deliveries[d := del], unmatched := unmatched))
  {
    var s' := s.(deliveries := s.deliveries[d := del], unmatched := unmatched);
    forall y ensures Promised(s', y) <==> Promised(s, y) {
      assert forall e :: PromisedBy(s', y, e) <==> PromisedBy(s, y, e);
    }
    forall i | i in s'.corr.waiters ensures WaiterOk(s', i) {
      assert WaiterOk(s, i);
    }
    forall y | y in s'.calls ensures CallOk(s', y) {
      assert CallOk(s, y);
    }
    forall e | e in s'.deliveries ensures DeliveryOk(s', e) {
      if e != d {
        assert DeliveryOk(s, e);
        assert forall y, f :: PromisedBy(s', y, f) <==> PromisedBy(s, y, f);
      }
    }
  }

  /** Taking a slot off the map promises it to exactly this delivery. */
  lemma SlotsTake(s: State, d: nat)
    requires SlotsInv(s) && d in s.deliveries && s.deliveries[d].Arrived? && s.deliveries[d].id in s.corr.waiters
    ensures SlotsInv(Step(s, Take(d)))
  {
    var s' := Step(s, Take(d));
    var id := s.deliveries[d].id;
    var x := s.corr.waiters[id];
    assert WaiterOk(s, id);
    assert forall y, e :: PromisedBy(s', y, e) <==> PromisedBy(s, y, e) || (e == d && y == x);
    assert PromisedBy(s', x, d);
    forall e ensures !PromisedBy(s, x, e) {
      assert !Promised(s, x);
    }
    forall y | y != x ensures Promised(s', y) <==> Promised(s, y) {
      if Promised(s, y) {
        var e :| PromisedBy(s, y, e);
        assert PromisedBy(s', y, e);
      }
    }
    forall i | i in s'.corr.waiters ensures WaiterOk(s', i) {
      assert WaiterOk(s, i);
      assert s.corr.waiters[i] != x;
    }
    forall y | y in s'.calls ensures CallOk(s', y) {
      assert CallOk(s, y);
      assert y != x && Registered(s, y) ==> Registered(s', y);
    }
    forall e | e in s'.deliveries ensures DeliveryOk(s', e) {
      assert DeliveryOk(s, e);
      assert !PromisedBy(s, x, e);
    }
  }

  /** The promised send finds its slot empty and open. */
  lemma SlotsPut(s: State, d: nat)
    requires SlotsInv(s) && d in s.deliveries && s.deliveries[d].Committed?
    ensures SlotsInv(Step(s, Put(d)))
  {
    var s' := Step(s, Put(d));
    var x := s.deliveries[d].slot;
    assert DeliveryOk(s, d);
    assert forall y, e :: PromisedBy(s', y, e) <==> PromisedBy(s, y, e) && e != d;
    forall y | y != x ensures Promised(s', y) <==> Promised(s, y) {
      if Promised(s, y) {
        var e :| PromisedBy(s, y, e);
        assert PromisedBy(s', y, e);
      }
    }
    forall i | i in s'.corr.waiters ensures WaiterOk(s', i) {
      assert WaiterOk(s, i);
      assert PromisedBy(s, x, d);
    }
    forall y | y in s'.calls ensures CallOk(s', y) {
      assert CallOk(s, y);
      assert Registered(s, y) ==> Registered(s', y);
    }
    forall e | e in s'.deliveries ensures DeliveryOk(s', e) {
      assert DeliveryOk(s, e);
      if e != d && s.deliveries[e].Committed? && s.deliveries[e].slot == x {
        assert PromisedBy(s, x, e);
      }
    }
  }

  /** Close reaches exactly the waiting slots, each for the first time. */
  lemma SlotsClose(s: State)
    requires SlotsInv(s)
    ensures SlotsInv(Step(s, Close))
  {
    var s' := Step(s, Close);
    SamePromises(s, s');
    if !s.corr.closed {
      forall x | x in s.corr.waiters.Values
        ensures x in s.corr.slots && s.corr.slots[x] == Slot(None, false) && !Promised(s, x) {
        var id :| id in s.corr.waiters && s.corr.waiters[id] == x;
        assert WaiterOk(s, id);
      }
      forall y | y in s'.calls ensures CallOk(s', y) {
        assert CallOk(s, y);
        if Registered(s, y) {
          assert y in s.corr.waiters.Values;
        }
      }
      forall d | d in s'.deliveries ensures DeliveryOk(s', d) {
        assert DeliveryOk(s, d);
        if s.deliveries[d].Committed? {
          assert PromisedBy(s, s.deliveries[d].slot, d);
        }
      }
    }
  }

  lemma SlotsStep(s: State, ev: Event)
    requires SlotsInv(s) && Enabled(s, ev)
    ensures SlotsInv(Step(s, ev))
  {
    match ev
    case Begin(x, id) => SlotsBegin(s, x, id);
    case SendDone(x) => SlotsMove(s, x, Waiting(s.calls[x].id));
    case GiveUp(x) => SlotsMove(s, x, GivingUp(s.calls[x].id));
    case Receive(x) => SlotsReceive(s, x, Step(s, ev));
    case Drain(x) => SlotsReceive(s, x, Step(s, ev));
    case Reconcile(x) => SlotsReconcile(s, x);
    case ReplyArrives(d, id) => SlotsArrive(s, d, id);
    case Take(d) =>
      if s.deliveries[d].id in s.corr.waiters {
        SlotsTake(s, d);
      } else {
        SlotsAside(s, d, Finished(s.deliveries[d].id), s.unmatched + multiset{d});
      }
    case Put(d) => SlotsPut(s, d);
    case Close => SlotsClose(s);
  }

  // ---- Fates, event by event --------------------------------------------------------

  /** An event that moves no reply. */
  lemma FatesSame(s: State, s': State)
    requires FatesInv(s)
    requires s'.unmatched == s.unmatched
    requires forall x, d :: At(s', d, InSlot(x)) <==> At(s, d, InSlot(x))
    requires forall x, d :: At(s', d, Answer(x)) <==> At(s, d, Answer(x))
    requires forall d :: d in s.deliveries && s.deliveries[d].Finished? <==>
      d in s'.deliveries && s'.deliveries[d].Finished?
    requires forall d :: d in s.deliveries ==> d in s'.deliveries && s'.deliveries[d].id == s.deliveries[d].id
    requires forall x :: x in s.requests ==> x in s'.requests && s'.requests[x] == s.requests[x]
    ensures FatesInv(s')
  {
    forall d ensures FateOk(s', d) {
      assert FateOk(s, d);
      forall p ensures At(s', d, p) <==> At(s, d, p) {
        match p
        case Sink =>
        case InSlot(x) =>
        case Answer(x) =>
      }
    }
  }

  /** An event that takes reply r, and only it, from one place, or from none, to another. */
  lemma FatesMove(s: State, s': State, r: nat, to: Place)
    requires FatesInv(s)
    requires r in s'.deliveries && s'.deliveries[r].Finished? && s'.unmatched[r] <= 1
    requires forall p :: At(s', r, p) <==> p == to
    requires !to.Sink? ==> to.x in s'.requests && s'.requests[to.x] == s'.deliveries[r].id
    requires forall d :: d != r ==> s'.unmatched[d] == s.unmatched[d]
    requires forall d, p :: d != r ==> (At(s', d, p) <==> At(s, d, p))
    requires forall d :: d != r ==> (d in s'.deliveries <==> d in s.deliveries)
    requires forall d :: d != r && d in s.deliveries ==> s'.deliveries[d] == s.deliveries[d]
    requires s'.requests == s.requests
    ensures FatesInv(s')
  {
    forall d ensures FateOk(s', d) {
      assert FateOk(s, d);
      if d == r {
        assert At(s', r, to);
      }
    }
  }

  lemma FatesStep(s: State, ev: Event)
    requires Inv(s) && Enabled(s, ev)
    ensures FatesInv(Step(s, ev))
  {
    var s' := Step(s, ev);
    match ev
    case Begin(x, id) => FatesBegin(s, x, id);
    case SendDone(x) => FatesSame(s, s');
    case GiveUp(x) => FatesSame(s, s');
    case Reconcile(x) => FatesSame(s, s');
    case ReplyArrives(d, id) => FatesSame(s, s');
    case Receive(x) => FatesReceive(s, x);
    case Drain(x) => FatesDrain(s, x);
    case Take(d) => FatesTake(s, d);
    case Put(d) => FatesPut(s, d);
    case Close => FatesSame(s, s');
  }

  lemma FatesBegin(s: State, x: nat, id: string)
    requires Inv(s) && x !in s.calls
    ensures FatesInv(Step(s, Begin(x, id)))
  {
    assert x !in s.corr.slots;
    var s' := Step(s, Begin(x, id));
    forall d ensures FateOk(s', d) {
      assert FateOk(s, d);
      assert forall p :: At(s', d, p) <==> At(s, d, p);
    }
  }

  lemma FatesReceive(s: State, x: nat)
    requires Inv(s) && Enabled(s, Receive(x))
    ensures FatesInv(Step(s, Receive(x)))
  {
    var s' := Step(s, Receive(x));
    var slot := s.corr.slots[x];
    if slot.buffer.Some? {
      var r := slot.buffer.value;
      assert FateOk(s, r) && At(s, r, InSlot(x));
      forall p ensures At(s', r, p) <==> p == Answer(x) {
        assert At(s', r, p) && p != Answer(x) ==> At(s, r, p) && p != InSlot(x);
      }
      FatesMove(s, s', r, Answer(x));
    } else {
      FatesSame(s, s');
    }
  }

  lemma FatesDrain(s: State, x: nat)
    requires Inv(s) && Enabled(s, Drain(x))
    ensures FatesInv(Step(s, Drain(x)))
  {
    var s' := Step(s, Drain(x));
    var slot := s.corr.slots[x];
    if slot.buffer.Some? {
      var r := slot.buffer.value;
      assert FateOk(s, r) && At(s, r, InSlot(x)) && !At(s, r, Sink);
      forall p ensures At(s', r, p) <==> p == Sink {
        assert At(s', r, p) && p != Sink ==> At(s, r, p) && p != InSlot(x);
      }
      FatesMove(s, s', r, Sink);
    } else {
      FatesSame(s, s');
    }
  }

  lemma FatesTake(s: State, d: nat)
    requires Inv(s) && Enabled(s, Take(d))
    ensures FatesInv(Step(s, Take(d)))
  {
    var s' := Step(s, Take(d));
    assert FateOk(s, d);
    if s.deliveries[d].id in s.corr.waiters {
      FatesSame(s, s');
    } else {
      assert !At(s, d, Sink);
      forall p ensures At(s', d, p) <==> p == Sink {
        assert At(s', d, p) && p != Sink ==> At(s, d, p);
      }
      FatesMove(s, s', d, Sink);
    }
  }

  lemma FatesPut(s: State, d: nat)
    requires Inv(s) && Enabled(s, Put(d))
    ensures FatesInv(Step(s, Put(d)))
  {
    var s' := Step(s, Put(d));
    var x := s.deliveries[d].slot;
    assert FateOk(s, d) && DeliveryOk(s, d) && CallOk(s, x);
    forall p ensures At(s', d, p) <==> p == InSlot(x) {
      assert At(s', d, p) && p != InSlot(x) ==> At(s, d, p);
    }
    FatesMove(s, s', d, InSlot(x));
  }

  lemma {:induction false} InvAlways(states: seq<State>, events: seq<Event>, n: nat)
    requires Run(states, events) && n < |states|
    ensures Inv(states[n])
  {
    if n > 0 {
      InvAlways(states, events, n - 1);
      assert RunsAt(states, events, n - 1);
      SlotsStep(states[n - 1], events[n - 1]);
      FatesStep(states[n - 1], events[n - 1]);
    }
  }

  // ---- The promises -----------------------------------------------------------------

  /** Over every run no reply is sent to a full or closed slot and no slot is closed twice, so
      neither a delivery nor Close can block or panic; and a delivery that has taken a slot
      finds it empty and open, on a call of its own id that has not ended. */
  lemma SendsAlwaysFit(states: seq<State>, events: seq<Event>, n: nat, d: nat)
    requires Run(states, events) && n < |states|
    ensures !states[n].corr.fault
    ensures d in states[n].deliveries && states[n].deliveries[d].Committed? ==>
      var s, x := states[n], states[n].deliveries[d].slot;
      && x in s.calls && Live(s.calls[x]) && s.calls[x].id == s.deliveries[d].id
      && x in s.corr.slots && s.corr.slots[x] == Slot(None, false)
  {
    InvAlways(states, events, n);
    if d in states[n].deliveries {
      assert DeliveryOk(states[n], d);
    }
  }

  /** Every reply whose delivery is over is in exactly one place: once in the unmatched sink, in
      the slot of one call that has not ended yet, or answered to one Exchange; and only ever
      in the slot, or the answer, of a request that asked for its correlation id. */
  lemma EveryReplyHasOneFate(states: seq<State>, events: seq<Event>, n: nat, d: nat) returns (p: Place)
    requires Run(states, events) && n < |states|
    requires d in states[n].deliveries && states[n].deliveries[d].Finished?
    ensures At(states[n], d, p) && (forall q :: At(states[n], d, q) ==> q == p)
    ensures p.Sink? ==> states[n].unmatched[d] == 1
    ensures !p.Sink? ==>
      states[n].unmatched[d] == 0 && p.x in states[n].requests
      && states[n].requests[p.x] == states[n].deliveries[d].id
    ensures p.InSlot? ==> p.x in states[n].calls && Live(states[n].calls[p.x])
  {
    InvAlways(states, events, n);
    var s := states[n];
    assert FateOk(s, d);
    p :| At(s, d, p);
    if p.InSlot? {
      assert CallOk(s, p.x);
    }
    if !p.Sink? {
      assert !At(s, d, Sink);
    }
  }

  /** No reply is routed anywhere before its own delivery is over. */
  lemma UnfinishedIsNowhere(states: seq<State>, events: seq<Event>, n: nat, d: nat, p: Place)
    requires Run(states, events) && n < |states|
    requires d !in states[n].deliveries || !states[n].deliveries[d].Finished?
    ensures !At(states[n], d, p)
  {
    InvAlways(states, events, n);
    assert FateOk(states[n], d);
  }

  /** The give-up drain is bounded: a call that blocks on its slot after a failed deregister has
      a value or a close in it already, or a delivery that is committed to send to it. */
  lemma DrainIsCommitted(states: seq<State>, events: seq<Event>, n: nat, x: nat)
    requires Run(states, events) && n < |states|
    requires x in states[n].calls && states[n].calls[x].Draining?
    ensures Receivable(states[n].corr, x) || exists d :: PromisedBy(states[n], x, d) && Enabled(states[n], Put(d))
  {
    InvAlways(states, events, n);
    var s := states[n];
    assert CallOk(s, x);
    assert s.calls[x].id in s.corr.waiters ==> WaiterOk(s, s.calls[x].id);
    if Promised(s, x) {
      var d :| PromisedBy(s, x, d);
      assert Enabled(s, Put(d));
    }
  }

  /** No waiter is orphaned: a call that has not ended is still on the map, where a reply and
      Close both find it, or its slot is filled, closed, or about to be filled. Once the
      correlator is closed, only the latter. */
  lemma NoOrphanedWaiter(states: seq<State>, events: seq<Event>, n: nat, x: nat)
    requires Run(states, events) && n < |states|
    requires x in states[n].calls && Live(states[n].calls[x])
    ensures Registered(states[n], x) || Promised(states[n], x) || Receivable(states[n].corr, x)
    ensures states[n].corr.closed ==> Promised(states[n], x) || Receivable(states[n].corr, x)
  {
    InvAlways(states, events, n);
    assert CallOk(states[n], x);
  }

  /** An ended call leaves nothing behind: its slot is off the map and holds no reply. */
  lemma EndedCallIsForgotten(states: seq<State>, events: seq<Event>, n: nat, x: nat, id: string)
    requires Run(states, events) && n < |states|
    requires x in states[n].calls && states[n].calls[x].Done?
    ensures id in states[n].corr.waiters ==> states[n].corr.waiters[id] != x
    ensures x in states[n].corr.slots ==> states[n].corr.slots[x].buffer.None?
    ensures !Promised(states[n], x)
  {
    InvAlways(states, events, n);
    var s := states[n];
    assert CallOk(s, x);
    if id in s.corr.waiters {
      assert WaiterOk(s, id);
    }
    forall d ensures !PromisedBy(s, x, d) {
      assert d in s.deliveries ==> DeliveryOk(s, d);
    }
  }
}
