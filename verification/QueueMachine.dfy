/** Every interleaving of Enqueue, Claim, Ack and Nack calls on one QueueStore: any number of
    callers, settle closures called any number of times, in any order. */
module QueueMachine {
  import opened Reliability
  import opened Messages
  import opened QueueSpec

  datatype Policy = Block | DropNewest | DropOldest | Reject

  /** Where an admitted message is. `delivery` of a message names the Enqueue call that brought
      it. Acked, Dropped and Evicted are for good. */
  datatype Place = Ready | InFlight(epoch: nat) | Acked | Dropped | Evicted

  /** The store, and the calls in progress: enqueuers before the semaphore, between it and the
      append, and on the way to shed; settlers that have removed an entry and not yet freed its
      slot. msgs has each call's message; place, settled and returned are the record of the run. */
  datatype State = State(
    q: Queue, sem: nat, capacity: nat, policy: Policy, now: int,
    msgs: map<nat, Message>, arriving: set<nat>, slotted: set<nat>, shedding: set<nat>, releasing: set<nat>,
    place: map<nat, Place>, settled: seq<nat>, returned: map<nat, Option<Error>>, calls: nat)

  datatype Event =
    | Tick(elapsed: nat)
    | Call(msg: Message)
    | TakeSlot(c: nat)
    | FindFull(c: nat)
    | Cancel(c: nat)
    | AppendOne(c: nat)
    | Shed(c: nat)
    | ClaimSome(max: int)
    | AckRemove(token: nat)
    | NackDrop(token: nat)
    | NackRequeue(token: nat, delay: int)
    | FreeSlot(c: nat)

  predicate Enabled(s: State, ev: Event) {
    match ev
    case Call(msg) => msg.delivery == s.calls
    case TakeSlot(c) => c in s.arriving && s.sem < s.capacity
    case FindFull(c) => c in s.arriving && s.policy != Block && s.sem >= s.capacity
    case Cancel(c) => c in s.arriving && s.policy == Block
    case AppendOne(c) => c in s.slotted && c in s.msgs
    case Shed(c) => c in s.shedding && c in s.msgs
    case FreeSlot(c) => c in s.releasing
    case _ => true
  }

  /** Messages just claimed are in flight under their tokens. */
  function PlaceClaimed(place: map<nat, Place>, claimed: seq<Entry>): map<nat, Place> {
    if claimed == [] then place
    else
      var e := claimed[|claimed| - 1];
      PlaceClaimed(place, claimed[..|claimed| - 1])[e.msg.delivery := InFlight(e.epoch)]
  }

  function Returns(s: State, c: nat, err: Option<Error>): State {
    s.(returned := s.returned[c := err])
  }

  function StepShed(s: State, c: nat): State
    requires c in s.msgs
  {
    var msg := s.msgs[c];
    var t := s.(shedding := s.shedding - {c});
    if s.policy == DropOldest then
      var (q', ok) := EvictAndAppend(s.q, msg, s.now);
      if ok then
        Returns(t.(q := q', place := s.place[s.q.ready[0].msg.delivery := Evicted][c := Ready]), c, None)
      else Returns(t, c, Some(Leaf(OverflowDropped)))
    else if s.policy == DropNewest then Returns(t, c, None)
    else Returns(t, c, Some(Leaf(OverflowDropped)))
  }

  /** Ack, or Nack without requeue: the entry leaves, and its slot is freed in a later step. */
  function StepRemove(s: State, token: nat, end: Place): State {
    var (q', live) := Settle(s.q, token);
    if !live then s.(q := q')
    else
      s.(q := q', releasing := s.releasing + {s.calls}, calls := s.calls + 1,
         place := s.place[s.q.inflight[token].msg.delivery := end], settled := s.settled + [token])
  }

  function StepRequeue(s: State, token: nat, delay: int): State {
    var (q', live) := Requeue(s.q, token, s.now, delay);
    if !live then s.(q := q')
    else s.(q := q', place := s.place[s.q.inflight[token].msg.delivery := Ready], settled := s.settled + [token])
  }

  function Step(s: State, ev: Event): State
    requires Enabled(s, ev)
  {
    match ev
    case Tick(elapsed) => s.(now := s.now + elapsed)
    case Call(msg) => s.(msgs := s.msgs[s.calls := msg], arriving := s.arriving + {s.calls}, calls := s.calls + 1)
    case TakeSlot(c) => s.(sem := s.sem + 1, arriving := s.arriving - {c}, slotted := s.slotted + {c})
    case FindFull(c) => s.(arriving := s.arriving - {c}, shedding := s.shedding + {c})
    case Cancel(c) => Returns(s.(arriving := s.arriving - {c}), c, Some(Leaf(Cancelled)))
    case AppendOne(c) =>
      Returns(s.(q := Append(s.q, s.msgs[c], s.now), slotted := s.slotted - {c}, place := s.place[c := Ready]), c, None)
    case Shed(c) => StepShed(s, c)
    case ClaimSome(max) =>
      var (q', claimed) := Claim(s.q, s.now, max);
      s.(q := q', place := PlaceClaimed(s.place, claimed))
    case AckRemove(token) => StepRemove(s, token, Acked)
    case NackDrop(token) => StepRemove(s, token, Dropped)
    case NackRequeue(token, delay) => StepRequeue(s, token, delay)
    case FreeSlot(c) => s.(sem := if s.sem > 0 then s.sem - 1 else 0, releasing := s.releasing - {c})
  }

  predicate Init(s: State) {
    && s.q == NEW_QUEUE && s.sem == 0 && s.capacity >= 1 && s.calls == 0
    && s.msgs == map[] && s.arriving == {} && s.slotted == {} && s.shedding == {} && s.releasing == {}
    && s.place == map[] && s.settled == [] && s.returned == map[]
  }

  predicate StepAt(states: seq<State>, events: seq<Event>, t: nat)
    requires t < |events| && |states| == |events| + 1
  {
    Enabled(states[t], events[t]) && states[t + 1] == Step(states[t], events[t])
  }

  predicate Run(states: seq<State>, events: seq<Event>) {
    && |states| == |events| + 1 && Init(states[0])
    && forall t :: 0 <= t < |events| ==> StepAt(states, events, t)
  }

  // ---- Slots --------------------------------------------------------------------------------

  /** The calls in progress are at one place each, and each has its message. */
  ghost predicate CallsInv(s: State) {
    && s.arriving !! s.slotted && s.arriving !! s.shedding && s.slotted !! s.shedding
    && (forall c :: c in s.arriving + s.slotted + s.shedding ==> c in s.msgs && s.msgs[c].delivery == c)
    && (forall c :: c in s.msgs ==> c < s.calls)
    && (forall c :: c in s.releasing ==> c < s.calls)
  }

  /** Every occupied slot is accounted for. */
  predicate SlotsInv(s: State) {
    && s.sem == |s.q.ready| + |s.q.inflight| + |s.slotted| + |s.releasing|
    && s.sem <= s.capacity
    && ValidQueue(s.q)
  }

  predicate IsSettle(ev: Event) {
    ev.AckRemove? || ev.NackDrop? || ev.NackRequeue? || ev.FreeSlot?
  }

  lemma CallsStep(s: State, ev: Event)
    requires CallsInv(s) && Enabled(s, ev)
    ensures CallsInv(Step(s, ev))
  {
    if IsSettle(ev) || ev.ClaimSome? || ev.Tick? {
      CallsStepSettle(s, ev);
    } else if ev.Call? || ev.TakeSlot? || ev.FindFull? {
      CallsStepArrive(s, ev);
    }
  }

  lemma CallsStepSettle(s: State, ev: Event)
    requires CallsInv(s) && Enabled(s, ev) && (IsSettle(ev) || ev.ClaimSome? || ev.Tick?)
    ensures CallsInv(Step(s, ev))
  {
  }

  lemma CallsStepArrive(s: State, ev: Event)
    requires CallsInv(s) && Enabled(s, ev) && (ev.Call? || ev.TakeSlot? || ev.FindFull?)
    ensures CallsInv(Step(s, ev))
  {
  }

  lemma SlotsStepShed(s: State, c: nat)
    requires SlotsInv(s) && c in s.shedding && c in s.msgs
    ensures SlotsInv(StepShed(s, c))
  {
    EvictKeepsValid(s.q, s.msgs[c], s.now);
  }

  lemma SlotsStepRemove(s: State, token: nat, end: Place)
    requires SlotsInv(s) && CallsInv(s)
    ensures SlotsInv(StepRemove(s, token, end))
  {
    SettleKeepsValid(s.q, token);
    assert s.calls !in s.releasing;
  }

  lemma SlotsStepSettle(s: State, ev: Event)
    requires CallsInv(s) && SlotsInv(s) && Enabled(s, ev) && IsSettle(ev)
    ensures SlotsInv(Step(s, ev))
  {
    match ev
    case FreeSlot(c) => assert |s.releasing - {c}| == |s.releasing| - 1;
    case AckRemove(token) => SlotsStepRemove(s, token, Acked);
    case NackDrop(token) => SlotsStepRemove(s, token, Dropped);
    case NackRequeue(token, delay) => RequeueKeepsValid(s.q, token, s.now, delay);
  }

  lemma SlotsStepAppend(s: State, c: nat)
    requires SlotsInv(s) && Enabled(s, AppendOne(c))
    ensures SlotsInv(Step(s, AppendOne(c)))
  {
    AppendKeepsValid(s.q, s.msgs[c], s.now);
    assert |s.slotted - {c}| == |s.slotted| - 1;
  }

  lemma SlotsStep(s: State, ev: Event)
    requires CallsInv(s) && SlotsInv(s) && Enabled(s, ev)
    ensures SlotsInv(Step(s, ev))
  {
    if IsSettle(ev) {
      SlotsStepSettle(s, ev);
    } else {
      match ev
      case ClaimSome(max) => ClaimKeepsValid(s.q, s.now, max);
      case AppendOne(c) => SlotsStepAppend(s, c);
      case Shed(c) => SlotsStepShed(s, c);
      case _ =>
    }
  }
}
