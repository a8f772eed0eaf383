/** endpoint/consumer.go and the hand-off of endpoint/poller.go: how a consumer settles what it
    claims from an in-memory queue. A run interleaves the poll loop and any number of workers,
    each on its own delivery, with arrivals and the attempt sweep; handlers, codecs, sinks and
    governors answer what they like. */
module Consumer {
  import opened Reliability
  import opened Messages
  import opened QueueSpec
  import opened QueueMachine
  import opened Attempts

  const HEADER_DELIVERY_COUNT := "msgin.delivery-count"

  datatype Config = Config(invalidSink: bool, deadLetter: bool, maxAttempts: nat, nativeDlq: bool) {
    /** RetryPolicy.Validate. */
    predicate Valid() {
      maxAttempts > 0 ==> deadLetter
    }
  }

  datatype Sink = NoSink | InvalidSink | DeadLetterSink

  /** invalidTarget: the invalid-message sink, else the dead-letter sink, which is withheld from
      over-size payloads. */
  function InvalidTarget(cfg: Config, cause: Error): Sink {
    if cfg.invalidSink then InvalidSink
    else if Is(cause, PayloadTooLarge) then NoSink
    else if cfg.deadLetter then DeadLetterSink
    else NoSink
  }

  datatype Reason = NowhereToSend | SinkRefused

  /** Where one delivery is between the claim and its settlement. Polled is still with the poll
      loop. Abandoned was left there by a loop that stopped; Unsettled is one whose settle
      closure failed, after a sink had accepted it or not. */
  datatype Pc =
    | Polled
    | Abandoned
    | Unsettled(sunk: bool)
    | Waiting
    | Succeeded
    | Invalid(cause: Error)
    | Failed(cause: Error)
    | Exhausted(cause: Error)
    | Accepted(sink: Sink, cause: Error)
    | Discarding(reason: Reason, cause: Error)
    | Retrying
    | Evicting(id: string)
    | Finished

  /** What became of a message that was acked. */
  datatype Fate = Handled | Sunk(sink: Sink, cause: Error) | Discarded(reason: Reason, cause: Error)

  /** batch are the rows of the current poll still to be handed over, in order. */
  datatype State = State(
    cfg: Config, q: Queue, now: int, tracker: map<string, Attempt>, ttl: int, workers: map<nat, Pc>,
    batch: seq<nat>, stopped: bool, place: map<nat, Place>, fate: map<nat, Fate>, accepted: seq<nat>, offered: nat)

  datatype Event =
    | Tick(elapsed: nat)
    | Offer(msg: Message)
    | ClaimSome(max: int)
    | HandOver
    | AbortHandoff                              // the loop's context is done at the row it is on
    | StopPolling
    | Refuse(k: nat)                            // drain deadline passed, or the breaker says no
    | DecodeFails(k: nat, cause: Error)
    | HandlerReturns(k: nat, err: Option<Error>)
    | NoTarget(k: nat)
    | SendInvalid(k: nat, ok: bool, down: bool) // down: the settle context is done
    | CountAttempt(k: nat)
    | SendDead(k: nat, ok: bool)
    | AckNow(k: nat)
    | NackNow(k: nat, delay: int)
    | SettleFails(k: nat)
    | EvictNow(k: nat)
    | SweepNow

  /** The message a live delivery carries. */
  function MsgOf(s: State, k: nat): Message
    requires k in s.q.inflight
  {
    s.q.inflight[k].msg
  }

  predicate At(s: State, k: nat, pc: Pc) {
    k in s.workers && s.workers[k] == pc && k in s.q.inflight
  }

  predicate Acking(pc: Pc) {
    pc.Succeeded? || pc.Accepted? || pc.Discarding?
  }

  predicate Enabled(s: State, ev: Event) {
    match ev
    case Offer(msg) => msg.delivery == s.offered
    case ClaimSome(_) => s.batch == [] && !s.stopped
    case HandOver => s.batch != []
    case AbortHandoff => s.batch != []
    case StopPolling => s.batch == []
    case Refuse(k) => At(s, k, Waiting)
    case DecodeFails(k, cause) => At(s, k, Waiting) && IsPermanent(Some(cause))
    case HandlerReturns(k, _) => At(s, k, Waiting)
    case NoTarget(k) =>
      k in s.workers && k in s.q.inflight && s.workers[k].Invalid? && InvalidTarget(s.cfg, s.workers[k].cause).NoSink?
    case SendInvalid(k, _, _) =>
      k in s.workers && k in s.q.inflight && s.workers[k].Invalid? && !InvalidTarget(s.cfg, s.workers[k].cause).NoSink?
    case CountAttempt(k) => k in s.workers && k in s.q.inflight && s.workers[k].Failed?
    case SendDead(k, _) => k in s.workers && k in s.q.inflight && s.workers[k].Exhausted?
    case AckNow(k) => k in s.workers && k in s.q.inflight && Acking(s.workers[k])
    case NackNow(k, _) => At(s, k, Retrying)
    case SettleFails(k) => k in s.workers && k in s.q.inflight && (Acking(s.workers[k]) || s.workers[k].Retrying?)
    case EvictNow(k) => k in s.workers && s.workers[k].Evicting?
    case _ => true
  }

  function Goto(s: State, k: nat, pc: Pc): State {
    s.(workers := s.workers[k := pc])
  }

  /** attempts: the native count if the message has one, else the tracker. */
  function AttemptsOf(s: State, m: Message): (int, map<string, Attempt>) {
    if HEADER_DELIVERY_COUNT in m.headers && m.headers[HEADER_DELIVERY_COUNT].Int?
      then (m.headers[HEADER_DELIVERY_COUNT].n, s.tracker)
    else
      var tracker' := Observe(s.tracker, m.ID(), s.now);
      (tracker'[m.ID()].count, tracker')
  }

  /** The dead-letter arm of dispatch. */
  predicate OutOfAttempts(cfg: Config, n: int) {
    cfg.maxAttempts > 0 && n >= cfg.maxAttempts && !cfg.nativeDlq
  }

  function FateOf(pc: Pc): Fate
    requires Acking(pc)
  {
    if pc.Succeeded? then Handled
    else if pc.Accepted? then Sunk(pc.sink, pc.cause)
    else Discarded(pc.reason, pc.cause)
  }

  function StepAck(s: State, k: nat): State
    requires Enabled(s, AckNow(k))
  {
    var c := MsgOf(s, k).delivery;
    Goto(s.(q := Settle(s.q, k).0, place := s.place[c := Acked], fate := s.fate[c := FateOf(s.workers[k])]), k,
      Evicting(MsgOf(s, k).ID()))
  }

  function StepNack(s: State, k: nat, delay: int): State
    requires k in s.q.inflight
  {
    Goto(s.(q := Requeue(s.q, k, s.now, delay).0, place := s.place[MsgOf(s, k).delivery := Ready]), k, Finished)
  }

  function Tokens(claimed: seq<Entry>): (r: seq<nat>)
    ensures |r| == |claimed| && forall i :: 0 <= i < |r| ==> r[i] == claimed[i].epoch
  {
    seq(|claimed|, i requires 0 <= i < |claimed| => claimed[i].epoch)
  }

  function StepClaim(s: State, max: int): State {
    var (q', claimed) := Claim(s.q, s.now, max);
    s.(q := q', place := PlaceClaimed(s.place, claimed), batch := Tokens(claimed),
       workers := s.workers + map k | k in q'.inflight && k > s.q.epoch :: Polled)
  }

  /** The row at hand is Nacked; the rows after it are left as they are. */
  function StepAbort(s: State): State
    requires s.batch != []
  {
    s.(batch := [], stopped := true,
       workers := map k | k in s.workers :: if k == s.batch[0] then Retrying else if k in s.batch then Abandoned
         else s.workers[k])
  }

  /** The events that move one delivery without settling it. */
  predicate Simple(ev: Event) {
    || ev.Refuse? || ev.DecodeFails? || ev.HandlerReturns? || ev.CountAttempt?
    || ev.NoTarget? || ev.SendInvalid? || ev.SendDead? || ev.SettleFails?
  }

  /** Where such an event takes its delivery: the branches of the settlement switch. */
  function NextPc(s: State, ev: Event): Pc
    requires Simple(ev) && Enabled(s, ev)
  {
    var pc := s.workers[ev.k];
    match ev
    case Refuse(_) => Retrying
    case DecodeFails(_, cause) => Invalid(cause)
    case HandlerReturns(_, err) =>
      if err.None? then Succeeded else if IsPermanent(err) then Invalid(err.value) else Failed(err.value)
    case CountAttempt(k) =>
      if OutOfAttempts(s.cfg, AttemptsOf(s, MsgOf(s, k)).0) then Exhausted(pc.cause) else Retrying
    case NoTarget(_) => Discarding(NowhereToSend, pc.cause)
    case SendInvalid(_, ok, down) =>
      if ok then Accepted(InvalidTarget(s.cfg, pc.cause), pc.cause)
      else if down then Retrying
      else Discarding(SinkRefused, pc.cause)
    case SendDead(_, ok) => if ok then Accepted(DeadLetterSink, pc.cause) else Retrying
    case SettleFails(_) => Unsettled(pc.Accepted?)
  }

  predicate IsAccept(ev: Event) {
    (ev.SendInvalid? || ev.SendDead?) && ev.ok
  }

  function StepSimple(s: State, ev: Event): State
    requires Simple(ev) && Enabled(s, ev)
  {
    s.(workers := s.workers[ev.k := NextPc(s, ev)],
       tracker := if ev.CountAttempt? then AttemptsOf(s, MsgOf(s, ev.k)).1 else s.tracker,
       accepted := if IsAccept(ev) then s.accepted + [MsgOf(s, ev.k).delivery] else s.accepted)
  }

  function Step(s: State, ev: Event): State
    requires Enabled(s, ev)
  {
    if Simple(ev) then StepSimple(s, ev)
    else
      match ev
      case Tick(elapsed) => s.(now := s.now + elapsed)
      case Offer(msg) => s.(q := Append(s.q, msg, s.now), place := s.place[msg.delivery := Ready],
        offered := s.offered + 1)
      case ClaimSome(max) => StepClaim(s, max)
      case HandOver => Goto(s.(batch := s.batch[1..]), s.batch[0], Waiting)
      case AbortHandoff => StepAbort(s)
      case StopPolling => s.(stopped := true)
      case AckNow(k) => StepAck(s, k)
      case NackNow(k, delay) => StepNack(s, k, delay)
      case EvictNow(k) => Goto(s.(tracker := Evict(s.tracker, s.workers[k].id)), k, Finished)
      case SweepNow => s.(tracker := Sweep(s.tracker, s.now, s.ttl))
  }

  predicate Init(s: State) {
    && s.cfg.Valid() && s.q == NEW_QUEUE && s.tracker == map[] && s.workers == map[]
    && s.batch == [] && !s.stopped
    && s.place == map[] && s.fate == map[] && s.accepted == [] && s.offered == 0
  }

  predicate StepAt(states: seq<State>, events: seq<Event>, t: nat)
    requires t < |events| && |states| == |events| + 1
  {
    Enabled(states[t], events[t]) && states[t + 1] == Step(states[t], events[t])
  }

  predicate Run(states: seq<State>, events: seq<Event>) {
    && |states| == |events| + 1 && Init(states[0])
    && forall t :: 0 <= t < |events| ==> StepAt(states, events, t)
  }

  // ---- One dispatch, in the order of its code -----------------------------------------------------

  /** The state a sequence of events leads to, if each is enabled in turn. */
  function Replay(s: State, events: seq<Event>): Option<State> {
    if events == [] then Some(s)
    else
      var before := Replay(s, events[..|events| - 1]);
      var ev := events[|events| - 1];
      if before.Some? && Enabled(before.value, ev) then Some(Step(before.value, ev)) else None
  }

  method Take(ghost s: State, t: State, trace: seq<Event>, ev: Event) returns (t': State, trace': seq<Event>)
    requires Replay(s, trace) == Some(t) && Enabled(t, ev)
    ensures t' == Step(t, ev) && trace' == trace + [ev] && Replay(s, trace') == Some(t')
  {
    t', trace' := Step(t, ev), trace + [ev];
    assert trace'[..|trace|] == trace;
  }

  /** What the world answers during one dispatch: the codec, the handler, the sink, whether the
      settle context is done, whether the settle closure works, and the backoff. */
  datatype Answers = Answers(decoded: Option<Error>, handled: Option<Error>, sent: bool, down: bool, settles: bool,
                             delay: int)

  /** The error a dispatch settles on. */
  function CauseOf(a: Answers): Option<Error> {
    if a.decoded.Some? then a.decoded else a.handled
  }

  /** How one dispatch means to leave its message: acked with a fate, or back in the queue. */
  function Settlement(cfg: Config, a: Answers, attempts: int): Option<Fate> {
    var cause := CauseOf(a);
    if cause.None? then Some(Handled)
    else if IsPermanent(cause) then
      var sink := InvalidTarget(cfg, cause.value);
      if sink.NoSink? then Some(Discarded(NowhereToSend, cause.value))
      else if a.sent then Some(Sunk(sink, cause.value))
      else if a.down then None
      else Some(Discarded(SinkRefused, cause.value))
    else if OutOfAttempts(cfg, attempts) && a.sent then Some(Sunk(DeadLetterSink, cause.value))
    else None
  }

  /** The delivery k of s has been settled by t, acked with that fate and its id forgotten, or
      back at the tail of the queue; or, if the settle closure failed, it is as it was. */
  predicate Done(s: State, k: nat, settlement: Option<Fate>, settles: bool, t: State)
    requires k in s.q.inflight
  {
    var m := MsgOf(s, k);
    && k in t.workers
    && (!settles ==> t.q == s.q && t.fate == s.fate && t.place == s.place && t.workers[k].Unsettled?)
    && (settles ==> k !in t.q.inflight && t.workers[k] == Finished && m.delivery in t.place)
    && (settles && settlement.Some? ==>
          t.place[m.delivery] == Acked && m.delivery in t.fate && t.fate[m.delivery] == settlement.value
          && m.ID() !in t.tracker)
    && (settles && settlement.None? ==>
          t.place[m.delivery] == Ready && t.fate == s.fate && t.q.ready != [] && t.q.ready[|t.q.ready| - 1].msg == m)
  }

  /** An Ack, with the eviction that follows it only if it worked. */
  method AckAndEvict(ghost s: State, t: State, trace: seq<Event>, k: nat, a: Answers)
    returns (t': State, trace': seq<Event>)
    requires Replay(s, trace) == Some(t) && Enabled(t, AckNow(k))
    ensures Replay(s, trace') == Some(t') && Done(t, k, Some(FateOf(t.workers[k])), a.settles, t')
    ensures !a.settles ==> t'.tracker == t.tracker
  {
    if !a.settles {
      t', trace' := Take(s, t, trace, SettleFails(k));
      return;
    }
    t', trace' := Take(s, t, trace, AckNow(k));
    t', trace' := Take(s, t', trace', EvictNow(k));
  }

  /** A Nack with requeue. */
  method NackBack(ghost s: State, t: State, trace: seq<Event>, k: nat, a: Answers, delay: int)
    returns (t': State, trace': seq<Event>)
    requires Replay(s, trace) == Some(t) && Enabled(t, NackNow(k, delay))
    ensures Replay(s, trace') == Some(t') && Done(t, k, None, a.settles, t') && t'.tracker == t.tracker
    ensures a.settles ==> t'.q.ready == t.q.ready + [t.q.inflight[k].(visibleAt := t.now + delay, epoch := 0)]
  {
    if !a.settles {
      t', trace' := Take(s, t, trace, SettleFails(k));
    } else {
      t', trace' := Take(s, t, trace, NackNow(k, delay));
    }
  }

  /** divertTerminal, and the eviction its caller makes if it settled. */
  method DivertTerminal(ghost s: State, t: State, trace: seq<Event>, k: nat, a: Answers)
    returns (t': State, trace': seq<Event>)
    requires Replay(s, trace) == Some(t) && k in t.workers && k in t.q.inflight
    requires CauseOf(a).Some? && IsPermanent(CauseOf(a)) && t.workers[k] == Invalid(CauseOf(a).value)
    ensures Replay(s, trace') == Some(t') && Done(t, k, Settlement(t.cfg, a, 0), a.settles, t')
    ensures !a.settles ==> t'.tracker == t.tracker
  {
    if InvalidTarget(t.cfg, t.workers[k].cause).NoSink? {
      t', trace' := Take(s, t, trace, NoTarget(k));
    } else {
      t', trace' := Take(s, t, trace, SendInvalid(k, a.sent, a.down));
      if !a.sent && a.down {
        t', trace' := NackBack(s, t', trace', k, a, 0);
        return;
      }
    }
    t', trace' := AckAndEvict(s, t', trace', k, a);
  }

  /** divert, and the eviction its caller makes if it settled. */
  method Divert(ghost s: State, t: State, trace: seq<Event>, k: nat, a: Answers) returns (t': State, trace': seq<Event>)
    requires Replay(s, trace) == Some(t) && k in t.workers && k in t.q.inflight && t.workers[k].Exhausted?
    ensures Replay(s, trace') == Some(t')
    ensures Done(t, k, if a.sent then Some(Sunk(DeadLetterSink, t.workers[k].cause)) else None, a.settles, t')
    ensures !a.settles || !a.sent ==> t'.tracker == t.tracker
  {
    t', trace' := Take(s, t, trace, SendDead(k, a.sent));
    if a.sent {
      t', trace' := AckAndEvict(s, t', trace', k, a);
    } else {
      t', trace' := NackBack(s, t', trace', k, a, a.delay);
    }
  }

  /** The transient arms. */
  method SettleTransient(ghost s: State, t: State, trace: seq<Event>, k: nat, a: Answers)
    returns (t': State, trace': seq<Event>)
    requires Replay(s, trace) == Some(t) && k in t.workers && k in t.q.inflight
    requires CauseOf(a).Some? && !IsPermanent(CauseOf(a)) && t.workers[k] == Failed(CauseOf(a).value)
    ensures Replay(s, trace') == Some(t')
    ensures
      var (n, tracker) := AttemptsOf(t, MsgOf(t, k));
      && Done(t, k, Settlement(t.cfg, a, n), a.settles, t')
      && (!a.settles || Settlement(t.cfg, a, n).None? ==> t'.tracker == tracker)
  {
    t', trace' := Take(s, t, trace, CountAttempt(k));
    if t'.workers[k].Exhausted? {
      t', trace' := Divert(s, t', trace', k, a);
    } else {
      t', trace' := NackBack(s, t', trace', k, a, a.delay);
    }
  }

  /** dispatch, run without interruption: it takes steps of the machine, settles its delivery
      exactly as Settlement says if the settle closure works and leaves it as it was if not,
      forgets the id exactly when it acked, and returns the error it settled on. */
  method Dispatch(s: State, k: nat, a: Answers) returns (t: State, trace: seq<Event>, err: Option<Error>)
    requires At(s, k, Waiting) && (a.decoded.Some? ==> IsPermanent(a.decoded))
    ensures Replay(s, trace) == Some(t) && err == CauseOf(a)
    ensures
      var (n, tracker) := AttemptsOf(s, MsgOf(s, k));
      && Done(s, k, Settlement(s.cfg, a, n), a.settles, t)
      && (!a.settles && (err.None? || IsPermanent(err)) ==> t.tracker == s.tracker)
      && (err.Some? && !IsPermanent(err) && (!a.settles || Settlement(s.cfg, a, n).None?) ==> t.tracker == tracker)
  {
    t, trace, err := s, [], CauseOf(a);
    if a.decoded.Some? {
      t, trace := Take(s, t, trace, DecodeFails(k, a.decoded.value));
      t, trace := DivertTerminal(s, t, trace, k, a);
      return;
    }
    t, trace := Take(s, t, trace, HandlerReturns(k, a.handled));
    if a.handled.None? {
      t, trace := AckAndEvict(s, t, trace, k, a);
      return;
    }
    if IsPermanent(a.handled) {
      t, trace := DivertTerminal(s, t, trace, k, a);
      return;
    }
    t, trace := SettleTransient(s, t, trace, k, a);
  }
}
