/** routing/aggregator.go over the in-memory group store, as a state machine: any number of
    Handle calls and reaper visits in flight, each store operation one atomic step. */
module Aggregator {
  import opened Reliability
  import opened Messages
  import opened GroupStoreSpec

  /** What a release strategy answers about a group. */
  datatype Verdict = Complete | Incomplete | Undecidable(err: Error) | StrategyPanics

  /** What aggregating or sending came to. */
  datatype Sending = SentOk | Failed(err: Error) | SendPanics

  /** How a call ends. */
  datatype Outcome = Nil | Fault(err: Error) | Panicked

  /** Which code path took the claim: Handle after storing its member, Handle in its
      over-cap branch, or the reaper. */
  datatype Caller = FromHandle | FromOverflow | FromReaper

  /** Where a call stands between two atomic steps. `main` tells the release of the claim the
      call set out for from the releases of its drain loop. Crashed is a call that a panic
      ended while it held a claim that no deferred abandon covers. */
  datatype Pc =
    | Arrived(msg: Message)
    | Ready(key: string, caller: Caller)
    | Releasing(claim: Claim, caller: Caller, main: bool)
    | Sent(claim: Claim, caller: Caller, main: bool)
    | Unwinding(claim: Claim, caller: Caller, main: bool, outcome: Outcome)
    | Draining(key: string, caller: Caller)
    | Judging(claim: Claim, caller: Caller)
    | GivingBack(claim: Claim, caller: Caller)
    | Sweeping(key: string, cutoff: Option<int>)
    | Examining(claim: Claim, cutoff: Option<int>)
    | Expiring(claim: Claim, sent: nat)
    | Crashed(claim: Claim)
    | Returned(outcome: Outcome)

  /** The ledger: what happened so far. No step reads it.
      handles: the message each Handle call was given; accepted: the deliveries Add stored;
      absorbed: for a delivery whose id was already held, the delivery of the holder;
      outputs: the aggregates the output channel took; expired: the members the expired
      channel took; settledOut, settledExpired: the deliveries settlement deleted;
      rescued: the calls whose over-cap branch went on to ClaimGroup;
      released: the calls that settled the claim they set out for. */
  datatype Ledger = Ledger(
    handles: map<nat, Message>,
    accepted: set<nat>,
    absorbed: map<nat, nat>,
    outputs: seq<seq<Message>>,
    expired: seq<Message>,
    settledOut: set<nat>,
    settledExpired: set<nat>,
    rescued: set<nat>,
    released: set<nat>)

  datatype State = State(store: Store, calls: map<nat, Pc>, ledger: Ledger)

  datatype Event =
    | Call(msg: Message)
    | Sweep(key: string, cutoff: Option<int>)
    | Refuse(err: Error)
    | AddMember(key: string, verdict: Verdict, now: int)
    | TryClaim
    | Aggregate(sending: Sending)
    | Settle(now: int)
    | Abandon
    | Judge(verdict: Verdict)
    | SendExpired(sending: Sending)

  predicate Holding(pc: Pc) {
    pc.Releasing? || pc.Sent? || pc.Unwinding? || pc.Judging? || pc.GivingBack?
    || pc.Examining? || pc.Expiring? || pc.Crashed?
  }

  predicate HoldsKey(pc: Pc, key: string) {
    Holding(pc) && pc.claim.key == key
  }

  /** A fresh error that wraps nothing but the sentinel. */
  function OverflowRetryable(): Error {
    Wrap(Leaf(OverflowDropped))
  }

  /** What the call returns once a.release has returned, or panicked, with this outcome. */
  function Answer(caller: Caller, outcome: Outcome): Outcome {
    match caller
    case FromHandle => outcome
    case FromOverflow => if outcome.Panicked? then Panicked else Fault(OverflowRetryable())
    case FromReaper => if outcome.Panicked? then Panicked else Nil
  }

  /** Handle from the moment Add answered. */
  function AfterAdd(key: string, reply: AddReply, verdict: Verdict): (pc: Pc)
    ensures !Holding(pc)
  {
    if reply.err.Some? then
      if reply.live.None? || reply.live.value == [] then Returned(Fault(reply.err.value))
      else match verdict
        case Undecidable(e) => Returned(Fault(Join([reply.err.value, e])))
        case Incomplete => Returned(Fault(reply.err.value))
        case Complete => Ready(key, FromOverflow)
        case StrategyPanics => Returned(Panicked)
    else match verdict
      case Undecidable(e) => Returned(Fault(e))
      case Incomplete => Returned(Nil)
      case Complete => Ready(key, FromHandle)
      case StrategyPanics => Returned(Panicked)
  }

  /** From the answer of ClaimGroup. */
  function AfterClaim(pc: Pc, claim: Option<Claim>): Pc
    requires pc.Ready? || pc.Draining? || pc.Sweeping?
  {
    match pc
    case Ready(_, caller) =>
      if claim.Some? then Releasing(claim.value, caller, true) else Returned(Answer(caller, Nil))
    case Draining(_, caller) =>
      if claim.Some? then Judging(claim.value, caller) else Returned(Answer(caller, Nil))
    case Sweeping(_, cutoff) =>
      if claim.Some? then Examining(claim.value, cutoff) else Returned(Nil)
  }

  /** From the release strategy's answer about a claim. */
  function AfterJudge(pc: Pc, verdict: Verdict): Pc
    requires pc.Judging? || pc.Examining?
  {
    if verdict.StrategyPanics? then Crashed(pc.claim)
    else match pc
      case Judging(claim, caller) =>
        if verdict.Complete? then Releasing(claim, caller, false) else GivingBack(claim, caller)
      case Examining(claim, cutoff) =>
        if verdict.Complete? then Releasing(claim, FromReaper, true)
        else if cutoff.Some? && claim.createdAt < cutoff.value then Expiring(claim, 0)
        else GivingBack(claim, FromReaper)
  }

  function AfterAggregate(pc: Pc, sending: Sending): Pc
    requires pc.Releasing?
  {
    match sending
    case SentOk => Sent(pc.claim, pc.caller, pc.main)
    case Failed(e) => Unwinding(pc.claim, pc.caller, pc.main, Fault(e))
    case SendPanics => Unwinding(pc.claim, pc.caller, pc.main, Panicked)
  }

  /** From AbandonGroup: the deferred one of releaseOnce, or an explicit one. A failed drain
      release is swallowed; a panic never is. */
  function AfterAbandon(pc: Pc): Pc
    requires pc.Unwinding? || pc.GivingBack?
  {
    match pc
    case Unwinding(_, caller, main, outcome) =>
      Returned(Answer(caller, if main || outcome.Panicked? then outcome else Nil))
    case GivingBack(_, caller) => Returned(Answer(caller, Nil))
  }

  ghost predicate Enabled(s: State, c: nat, ev: Event) {
    match ev
    case Call(msg) => c !in s.calls && msg.delivery == c
    case Sweep(_, _) => c !in s.calls
    case Refuse(_) => c in s.calls && s.calls[c].Arrived?
    case AddMember(_, _, _) => c in s.calls && s.calls[c].Arrived?
    case TryClaim => c in s.calls && (s.calls[c].Ready? || s.calls[c].Draining? || s.calls[c].Sweeping?)
    case Aggregate(_) => c in s.calls && s.calls[c].Releasing?
    case Settle(_) =>
      c in s.calls && (s.calls[c].Sent? || (s.calls[c].Expiring? && s.calls[c].sent == |s.calls[c].claim.msgs|))
    case Abandon => c in s.calls && (s.calls[c].Unwinding? || s.calls[c].GivingBack?)
    case Judge(_) => c in s.calls && (s.calls[c].Judging? || s.calls[c].Examining?)
    case SendExpired(_) => c in s.calls && s.calls[c].Expiring? && s.calls[c].sent < |s.calls[c].claim.msgs|
  }

  /** The delivery of a member that carries the given id, if there is one. */
  ghost function Carrier(msgs: seq<Message>, id: string): nat {
    if i :| 0 <= i < |msgs| && msgs[i].ID() == id then msgs[i].delivery else 0
  }

  ghost function Deliveries(msgs: seq<Message>): set<nat> {
    set i | 0 <= i < |msgs| :: msgs[i].delivery
  }

  ghost function StepCall(s: State, c: nat, msg: Message): State {
    State(s.store, s.calls[c := Arrived(msg)], s.ledger.(handles := s.ledger.handles[c := msg]))
  }

  ghost function StepAdd(s: State, c: nat, key: string, verdict: Verdict, now: int): (r: State)
    requires c in s.calls && s.calls[c].Arrived?
    ensures r.calls.Keys == s.calls.Keys
  {
    var msg := s.calls[c].msg;
    var (store', reply) := Add(s.store, key, msg, now);
    var ledger' :=
      if Accepted(s.store, key, msg) then s.ledger.(accepted := s.ledger.accepted + {c})
      else if Duplicate(s.store, key, msg) then
        s.ledger.(absorbed := s.ledger.absorbed[c := Carrier(s.store.groups[key].msgs, msg.ID())])
      else s.ledger;
    State(store', s.calls[c := AfterAdd(key, reply, verdict)], ledger')
  }

  ghost function StepClaim(s: State, c: nat): State
    requires c in s.calls && (s.calls[c].Ready? || s.calls[c].Draining? || s.calls[c].Sweeping?)
  {
    var pc := s.calls[c];
    var (store', claim) := ClaimGroup(s.store, pc.key);
    var ledger' := if pc.Ready? && pc.caller.FromOverflow? then s.ledger.(rescued := s.ledger.rescued + {c})
      else s.ledger;
    State(store', s.calls[c := AfterClaim(pc, claim)], ledger')
  }

  ghost function StepAggregate(s: State, c: nat, sending: Sending): State
    requires c in s.calls && s.calls[c].Releasing?
  {
    var pc := s.calls[c];
    var ledger' := if sending.SentOk? then s.ledger.(outputs := s.ledger.outputs + [pc.claim.msgs]) else s.ledger;
    State(s.store, s.calls[c := AfterAggregate(pc, sending)], ledger')
  }

  ghost function StepSettle(s: State, c: nat, now: int): State
    requires c in s.calls && (s.calls[c].Sent? || s.calls[c].Expiring?)
  {
    var pc := s.calls[c];
    var gone := Deliveries(pc.claim.msgs);
    var store' := SettleGroup(s.store, pc.claim, now);
    if pc.Sent? then
      State(store', s.calls[c := Draining(pc.claim.key, pc.caller)],
            s.ledger.(settledOut := s.ledger.settledOut + gone, released := s.ledger.released + {c}))
    else
      State(store', s.calls[c := Returned(Nil)],
            s.ledger.(settledExpired := s.ledger.settledExpired + gone))
  }

  ghost function StepAbandon(s: State, c: nat): State
    requires c in s.calls && (s.calls[c].Unwinding? || s.calls[c].GivingBack?)
  {
    State(AbandonGroup(s.store, s.calls[c].claim), s.calls[c := AfterAbandon(s.calls[c])], s.ledger)
  }

  ghost function StepSendExpired(s: State, c: nat, sending: Sending): State
    requires c in s.calls && s.calls[c].Expiring? && s.calls[c].sent < |s.calls[c].claim.msgs|
  {
    var pc := s.calls[c];
    match sending
    case SentOk =>
      State(s.store, s.calls[c := pc.(sent := pc.sent + 1)],
            s.ledger.(expired := s.ledger.expired + [pc.claim.msgs[pc.sent]]))
    case Failed(_) => s.(calls := s.calls[c := GivingBack(pc.claim, FromReaper)])
    case SendPanics => s.(calls := s.calls[c := Crashed(pc.claim)])
  }

  ghost function Step(s: State, c: nat, ev: Event): State
    requires Enabled(s, c, ev)
  {
    match ev
    case Call(msg) => StepCall(s, c, msg)
    case Sweep(key, cutoff) => s.(calls := s.calls[c := Sweeping(key, cutoff)])
    case Refuse(e) => s.(calls := s.calls[c := Returned(Fault(e))])
    case AddMember(key, verdict, now) => StepAdd(s, c, key, verdict, now)
    case TryClaim => StepClaim(s, c)
    case Aggregate(sending) => StepAggregate(s, c, sending)
    case Settle(now) => StepSettle(s, c, now)
    case Abandon => StepAbandon(s, c)
    case Judge(verdict) => s.(calls := s.calls[c := AfterJudge(s.calls[c], verdict)])
    case SendExpired(sending) => StepSendExpired(s, c, sending)
  }

  ghost predicate Init(s: State) {
    && s.store.groups == map[] && 1 <= s.store.maxGroups && 1 <= s.store.maxMembers
    && s.calls == map[]
    && s.ledger == Ledger(map[], {}, map[], [], [], {}, {}, {}, {})
  }

  /** A run: states[0] is initial and each state is the next one's predecessor by one step. */
  ghost predicate Run(states: seq<State>, steps: seq<(nat, Event)>) {
    && |states| == |steps| + 1
    && Init(states[0])
    && forall i :: 0 <= i < |steps| ==>
         Enabled(states[i], steps[i].0, steps[i].1) && states[i + 1] == Step(states[i], steps[i].0, steps[i].1)
  }
}
