/** resilience/breaker.go, and the parking of endpoint/consumer.go's admitBreaker on it: any
    number of dispatchers and parked waiters, the cooldown timer, and Records that arrive late. */
module Breaker {
  import opened Reliability
  import opened Collections

  datatype Mode = Closed | Open | HalfOpen

  /** The breaker's fields. wake names the current channel; timer the last one armed. */
  datatype Core = Core(mode: Mode, fails: nat, probe: bool, wake: nat, timer: Option<nat>, threshold: nat)

  /** The channels closed so far, and the timers: armed, or fired and on the way to toHalfOpen.
      fault records a second close of a channel. */
  datatype World = World(closed: set<nat>, armed: set<nat>, firing: set<nat>, fault: bool, nextName: nat)

  predicate Allow(b: Core) {
    b.mode != Open
  }

  function TryProbe(b: Core): (Core, bool) {
    match b.mode
    case Open => (b, false)
    case HalfOpen => if b.probe then (b, false) else (b.(probe := true), true)
    case Closed => (b, true)
  }

  /** openLocked: stops the old timer and arms a new one. */
  function OpenNow(b: Core, w: World): (Core, World) {
    var armed := if b.timer.Some? then w.armed - {b.timer.value} else w.armed;
    (b.(mode := Open, timer := Some(w.nextName)), w.(armed := armed + {w.nextName}, nextName := w.nextName + 1))
  }

  function Record(b: Core, w: World, success: bool): (Core, World) {
    if success then
      (if b.mode == HalfOpen then b.(fails := 0, mode := Closed, probe := false) else b.(fails := 0), w)
    else
      var b' := b.(fails := b.fails + 1);
      match b.mode
      case Closed => if b'.fails >= b.threshold then OpenNow(b', w) else (b', w)
      case HalfOpen => OpenNow(b'.(probe := false), w)
      case Open => (b', w)
  }

  /** toHalfOpen: closes the wake channel and mints the next. */
  function ToHalfOpen(b: Core, w: World): (Core, World) {
    if b.mode != Open then (b, w)
    else
      (b.(mode := HalfOpen, probe := false, wake := w.nextName),
       w.(closed := w.closed + {b.wake}, fault := w.fault || b.wake in w.closed, nextName := w.nextName + 1))
  }

  /** The breaker in its own form. */
  class CircuitBreaker {
    var mode: Mode
    var fails: nat
    var probeInFlight: bool
    var wake: nat
    var timer: Option<nat>
    var world: World
    const threshold: nat

    ghost function Value(): Core
      reads this
    {
      Core(mode, fails, probeInFlight, wake, timer, threshold)
    }

    constructor (threshold: nat)
      ensures Value() == Core(Closed, 0, false, 0, None, threshold) && world == World({}, {}, {}, false, 1)
    {
      mode, fails, probeInFlight, wake, timer := Closed, 0, false, 0, None;
      world, this.threshold := World({}, {}, {}, false, 1), threshold;
    }

    method TryProbeNow() returns (ok: bool)
      modifies this`probeInFlight
      ensures (Value(), ok) == TryProbe(old(Value()))
    {
      match mode
      case Open => return false;
      case HalfOpen =>
        if probeInFlight {
          return false;
        }
        probeInFlight := true;
        return true;
      case Closed => return true;
    }

    method RecordNow(success: bool)
      modifies this
      ensures (Value(), world) == Record(old(Value()), old(world), success)
    {
      if success {
        fails := 0;
        if mode == HalfOpen {
          mode := Closed;
          probeInFlight := false;
        }
        return;
      }
      fails := fails + 1;
      match mode
      case Closed =>
        if fails >= threshold {
          OpenLocked();
        }
      case HalfOpen =>
        probeInFlight := false;
        OpenLocked();
      case Open =>
    }

    method OpenLocked()
      modifies this`mode, this`timer, this`world
      ensures (Value(), world) == OpenNow(old(Value()), old(world))
    {
      mode := Open;
      if timer.Some? {
        world := world.(armed := world.armed - {timer.value});
      }
      timer := Some(world.nextName);
      world := world.(armed := world.armed + {world.nextName}, nextName := world.nextName + 1);
    }

    method HalfOpenNow()
      modifies this
      ensures (Value(), world) == ToHalfOpen(old(Value()), old(world))
    {
      if mode != Open {
        return;
      }
      mode := HalfOpen;
      probeInFlight := false;
      world := world.(closed := world.closed + {wake}, fault := world.fault || wake in world.closed);
      wake := world.nextName;
      world := world.(nextName := world.nextName + 1);
    }
  }

  // ---- The machine ---------------------------------------------------------------------------

  /** Where a call of admitBreaker is. */
  datatype Waiter = Checking | Subscribing | Rechecking(ch: nat) | Parked(ch: nat) | Gone

  /** probed lists the half-open episodes in which a TryProbe succeeded. */
  datatype State = State(b: Core, w: World, waiters: map<nat, Waiter>, episode: nat, probed: seq<nat>)

  datatype Event =
    | Arrive(v: nat)
    | Check(v: nat)
    | Subscribe(v: nat)
    | Recheck(v: nat)
    | Wake(v: nat)
    | Leave(v: nat)            // the context is done
    | Probe
    | RecordOne(success: bool)
    | Expire(id: nat)          // the cooldown has elapsed
    | Fire(id: nat)            // toHalfOpen gets the lock

  predicate Enabled(s: State, ev: Event) {
    match ev
    case Arrive(v) => v !in s.waiters
    case Check(v) => v in s.waiters && s.waiters[v].Checking?
    case Subscribe(v) => v in s.waiters && s.waiters[v].Subscribing?
    case Recheck(v) => v in s.waiters && s.waiters[v].Rechecking?
    case Wake(v) => v in s.waiters && s.waiters[v].Parked? && s.waiters[v].ch in s.w.closed
    case Leave(v) => v in s.waiters && s.waiters[v].Parked?
    case Expire(id) => id in s.w.armed
    case Fire(id) => id in s.w.firing
    case _ => true
  }

  function StepFire(s: State, id: nat): State {
    var w := s.w.(firing := s.w.firing - {id});
    var (b', w') := ToHalfOpen(s.b, w);
    s.(b := b', w := w', episode := if s.b.mode == Open then s.episode + 1 else s.episode)
  }

  function StepProbe(s: State): State {
    var (b', ok) := TryProbe(s.b);
    s.(b := b', probed := if ok && s.b.mode == HalfOpen then s.probed + [s.episode] else s.probed)
  }

  function Step(s: State, ev: Event): State
    requires Enabled(s, ev)
  {
    match ev
    case Arrive(v) => s.(waiters := s.waiters[v := Checking])
    case Check(v) => s.(waiters := s.waiters[v := if Allow(s.b) then Gone else Subscribing])
    case Subscribe(v) => s.(waiters := s.waiters[v := Rechecking(s.b.wake)])
    case Recheck(v) => s.(waiters := s.waiters[v := if Allow(s.b) then Gone else Parked(s.waiters[v].ch)])
    case Wake(v) => s.(waiters := s.waiters[v := Checking])
    case Leave(v) => s.(waiters := s.waiters[v := Gone])
    case Probe => StepProbe(s)
    case RecordOne(success) => var (b', w') := Record(s.b, s.w, success); s.(b := b', w := w')
    case Expire(id) => s.(w := s.w.(armed := s.w.armed - {id}, firing := s.w.firing + {id}))
    case Fire(id) => StepFire(s, id)
  }

  predicate Init(s: State) {
    && s.b == Core(Closed, 0, false, 0, None, s.b.threshold) && s.b.threshold >= 1
    && s.w == World({}, {}, {}, false, 1) && s.waiters == map[] && s.episode == 0 && s.probed == []
  }

  predicate StepAt(states: seq<State>, events: seq<Event>, t: nat)
    requires t < |events| && |states| == |events| + 1
  {
    Enabled(states[t], events[t]) && states[t + 1] == Step(states[t], events[t])
  }

  predicate Run(states: seq<State>, events: seq<Event>) {
    && |states| == |events| + 1 && Init(states[0])
    && forall t :: 0 <= t < |events| ==> StepAt(states, events, t)
  }

  // ---- Invariants -------------------------------------------------------------------------------

  /** The one timer, while open and only then. */
  predicate TimerInv(s: State) {
    && (if s.b.mode == Open
          then s.b.timer.Some? && s.w.armed + s.w.firing == {s.b.timer.value} && s.w.armed !! s.w.firing
        else s.w.armed == {} && s.w.firing == {})
    && (forall id :: id in s.w.armed + s.w.firing ==> id < s.w.nextName)
    && (s.b.timer.Some? ==> s.b.timer.value < s.w.nextName)
  }

  predicate WakeInv(s: State) {
    && s.b.wake !in s.w.closed && s.b.wake < s.w.nextName && !s.w.fault
    && (forall ch :: ch in s.w.closed ==> ch < s.w.nextName)
  }

  predicate WaiterOk(s: State, v: nat)
    requires v in s.waiters
  {
    match s.waiters[v]
    case Rechecking(ch) => ch in s.w.closed || ch == s.b.wake
    case Parked(ch) => ch in s.w.closed || (ch == s.b.wake && s.b.mode == Open)
    case _ => true
  }

  ghost predicate WaitersInv(s: State) {
    forall v :: v in s.waiters ==> WaiterOk(s, v)
  }

  predicate ProbeInv(s: State) {
    && Distinct(s.probed) && (forall e :: e in s.probed ==> e <= s.episode)
    && (s.b.mode == HalfOpen ==> (s.b.probe <==> s.episode in s.probed))
    && (s.b.probe ==> s.b.mode == HalfOpen)
    && (s.b.mode == Closed ==> s.b.fails < s.b.threshold)
    && s.b.threshold >= 1
  }

  ghost predicate Inv(s: State) {
    TimerInv(s) && WakeInv(s) && WaitersInv(s) && ProbeInv(s)
  }

  lemma TimerStep(s: State, ev: Event)
    requires TimerInv(s) && Enabled(s, ev)
    ensures TimerInv(Step(s, ev))
  {
  }

  lemma WakeStep(s: State, ev: Event)
    requires WakeInv(s) && Enabled(s, ev)
    ensures WakeInv(Step(s, ev))
  {
  }

  lemma WaitersStep(s: State, ev: Event)
    requires WakeInv(s) && WaitersInv(s) && Enabled(s, ev)
    ensures WaitersInv(Step(s, ev))
  {
    var t := Step(s, ev);
    forall v | v in t.waiters ensures WaiterOk(t, v) {
      assert v in s.waiters ==> WaiterOk(s, v);
    }
  }

  lemma ProbeStep(s: State, ev: Event)
    requires ProbeInv(s) && Enabled(s, ev)
    ensures ProbeInv(Step(s, ev))
  {
  }

  lemma {:induction false} InvAlways(states: seq<State>, events: seq<Event>, t: nat)
    requires Run(states, events) && t < |states|
    ensures Inv(states[t])
  {
    if t > 0 {
      InvAlways(states, events, t - 1);
      assert StepAt(states, events, t - 1);
      TimerStep(states[t - 1], events[t - 1]);
      WakeStep(states[t - 1], events[t - 1]);
      WaitersStep(states[t - 1], events[t - 1]);
      ProbeStep(states[t - 1], events[t - 1]);
    }
  }

  // ---- Theorems -----------------------------------------------------------------------------------

  /** A cooldown timer is pending, and only one, exactly when the breaker is open; when it fires
      the breaker is still open, so it neither sticks open nor fires stale. */
  lemma TimerPendingIffOpen(states: seq<State>, events: seq<Event>, t: nat)
    requires Run(states, events) && t < |states|
    ensures states[t].b.mode == Open <==> |states[t].w.armed + states[t].w.firing| == 1
    ensures states[t].b.mode != Open <==> |states[t].w.armed + states[t].w.firing| == 0
    ensures t < |events| && events[t].Fire? ==> states[t].b.mode == Open && states[t + 1].b.mode == HalfOpen
  {
    InvAlways(states, events, t);
    if t < |events| {
      assert StepAt(states, events, t);
    }
  }

  /** At most one TryProbe succeeds per half-open episode, whatever late Records arrive. */
  lemma OneProbePerEpisode(states: seq<State>, events: seq<Event>, t: nat)
    requires Run(states, events) && t < |states|
    ensures Distinct(states[t].probed)
    ensures states[t].b.mode == HalfOpen ==> (TryProbe(states[t].b).1 <==> states[t].episode !in states[t].probed)
    ensures states[t].b.probe ==> states[t].b.mode == HalfOpen
  {
    InvAlways(states, events, t);
  }

  /** Failures recorded in a row, read off the run. */
  function FailuresInARow(events: seq<Event>, t: nat): nat
    requires t <= |events|
  {
    if t == 0 then 0
    else if !events[t - 1].RecordOne? then FailuresInARow(events, t - 1)
    else if events[t - 1].success then 0
    else FailuresInARow(events, t - 1) + 1
  }

  lemma {:induction false} FailsCountsThem(states: seq<State>, events: seq<Event>, t: nat)
    requires Run(states, events) && t < |states|
    ensures states[t].b.fails == FailuresInARow(events, t) && states[t].b.threshold == states[0].b.threshold
  {
    if t > 0 {
      FailsCountsThem(states, events, t - 1);
      assert StepAt(states, events, t - 1);
    }
  }

  /** A closed breaker opens at the threshold-th failure in a row and at no other point. */
  lemma OpensAtThreshold(states: seq<State>, events: seq<Event>, t: nat)
    requires Run(states, events) && t < |events| && states[t].b.mode == Closed
    ensures states[t + 1].b.mode == Open <==> FailuresInARow(events, t + 1) == states[0].b.threshold
    ensures states[t + 1].b.mode == Open ==> events[t] == RecordOne(false)
  {
    InvAlways(states, events, t);
    FailsCountsThem(states, events, t);
    FailsCountsThem(states, events, t + 1);
    assert StepAt(states, events, t);
  }

  /** Every step's mode, exactly, by what happened: half-open by the cooldown, or still; closed by a
      success recorded half-open, or still, short of the threshold; open by a failure recorded
      half-open or by the threshold, or still. So a success never closes an open breaker, only a
      cooldown ends an open one, and any outcome ends a half-open one. */
  lemma ModeMoves(states: seq<State>, events: seq<Event>, t: nat)
    requires Run(states, events) && t < |events|
    ensures
      var from, to, ev := states[t].b.mode, states[t + 1].b.mode, events[t];
      var trips := FailuresInARow(events, t + 1) == states[0].b.threshold;
      && (to == HalfOpen <==> ev.Fire? || (from == HalfOpen && !ev.RecordOne?))
      && (to == Closed <==> (from == HalfOpen && ev == RecordOne(true)) || (from == Closed && !trips))
      && (to == Open <==>
            || (from == HalfOpen && ev == RecordOne(false)) || (from == Closed && trips)
            || (from == Open && !ev.Fire?))
  {
    assert StepAt(states, events, t);
    TimerPendingIffOpen(states, events, t);
    if states[t].b.mode == Closed {
      OpensAtThreshold(states, events, t);
    }
  }

  /** A cooldown leaves the probe free whatever flag it finds, so no stuck flag can deny every probe
      of the episode it starts. */
  lemma EpisodeStartsUnprobed(b: Core, w: World)
    requires b.mode == Open
    ensures ToHalfOpen(b, w).0.mode == HalfOpen && TryProbe(ToHalfOpen(b, w).0).1
    ensures !TryProbe(TryProbe(ToHalfOpen(b, w).0).0).1
  {
  }

  /** Since the cooldown at i no other one has ended and nobody has asked for a probe. */
  predicate UnprobedSince(events: seq<Event>, t: nat, i: nat)
    requires t <= |events|
  {
    i < t && events[i].Fire? && forall j :: i < j < t ==> !events[j].Fire? && !events[j].Probe?
  }

  /** Whoever asks may dispatch if and only if the breaker is closed, or half-open and nobody has
      asked since the cooldown that made it so. */
  lemma {:induction false} ProbesIff(states: seq<State>, events: seq<Event>, t: nat)
    requires Run(states, events) && t < |states|
    ensures TryProbe(states[t].b).1 <==>
      || states[t].b.mode == Closed
      || (states[t].b.mode == HalfOpen && exists i: nat :: UnprobedSince(events, t, i))
  {
    if t > 0 {
      ProbesIff(states, events, t - 1);
      InvAlways(states, events, t - 1);
      assert StepAt(states, events, t - 1);
      ModeMoves(states, events, t - 1);
      var last := events[t - 1];
      if last.Fire? {
        assert UnprobedSince(events, t, t - 1);
      } else if states[t - 1].b.mode == HalfOpen {
        forall i: nat ensures UnprobedSince(events, t, i) <==> UnprobedSince(events, t - 1, i) && !last.Probe? {
          assert UnprobedSince(events, t, i) ==> i != t - 1 && !events[t - 1].Probe?;
        }
        var before := t - 1;
        if exists i: nat :: UnprobedSince(events, before, i) {
          var i: nat :| UnprobedSince(events, before, i);
          assert UnprobedSince(events, t, i) <==> !last.Probe?;
        }
      }
    }
  }

  /** What becomes of a dispatcher in admitBreaker: it is let through, or gives up, if and only if it
      checked while the breaker was not open, or its context ended while it was parked. */
  lemma {:induction false} AdmittedIff(states: seq<State>, events: seq<Event>, t: nat, v: nat)
    requires Run(states, events) && t < |states|
    ensures (v in states[t].waiters && states[t].waiters[v].Gone?) <==>
      exists u :: 0 <= u < t && LetsGo(states, events, v, u)
  {
    if t > 0 {
      AdmittedIff(states, events, t - 1, v);
      assert StepAt(states, events, t - 1);
      assert (exists u :: 0 <= u < t && LetsGo(states, events, v, u)) <==>
        (exists u :: 0 <= u < t - 1 && LetsGo(states, events, v, u)) || LetsGo(states, events, v, t - 1);
    }
  }

  predicate LetsGo(states: seq<State>, events: seq<Event>, v: nat, u: nat)
    requires |states| == |events| + 1
  {
    && u < |events|
    && (events[u] == Leave(v) || ((events[u] == Check(v) || events[u] == Recheck(v)) && states[u].b.mode != Open))
  }

  /** No lost wakeup: a parked waiter holds a channel already closed, or the current wake
      channel of an open breaker whose cooldown is pending, which will close it; once woken, it
      checks the breaker again. */
  lemma NoLostWakeup(states: seq<State>, events: seq<Event>, t: nat, v: nat)
    requires Run(states, events) && t < |states| && v in states[t].waiters && states[t].waiters[v].Parked?
    ensures
      var s, ch := states[t], states[t].waiters[v].ch;
      || ch in s.w.closed
      || (ch == s.b.wake && s.b.mode == Open && |s.w.armed + s.w.firing| == 1)
    ensures t < |events| && events[t].Fire? ==> states[t].waiters[v].ch in states[t + 1].w.closed
    ensures t < |events| && events[t] == Wake(v) ==> Enabled(states[t + 1], Check(v))
  {
    InvAlways(states, events, t);
    assert WaiterOk(states[t], v);
    TimerPendingIffOpen(states, events, t);
    if t < |events| {
      assert StepAt(states, events, t);
    }
  }
}
