/** What each Exchange call is granted and how it ends, and where each reply goes, read off the
    events of a run. */
module ExchangeAnswers {
  import opened Reliability
  import opened Exchange

  // ---- Who is waiting ----------------------------------------------------------------

  ghost predicate ClosedBefore(events: seq<Event>, n: nat) {
    exists j :: 0 <= j < n && j < |events| && events[j].Close?
  }

  /** This event takes call x, which asked for id, off the map: a reply of its id is taken, its
      own reconciler removes it, or the gateway is closed. */
  ghost predicate TakesOff(s: State, ev: Event, x: nat, id: string) {
    || ev.Close?
    || ev == Reconcile(x)
    || (ev.Take? && ev.d in s.deliveries && s.deliveries[ev.d].id == id)
  }

  /** Step j registered call x under id. */
  ghost predicate RegistersAt(states: seq<State>, events: seq<Event>, x: nat, id: string, j: nat)
    requires |states| == |events| + 1
  {
    j < |events| && events[j] == Begin(x, id) && x in states[j + 1].calls && states[j + 1].calls[x].Sending?
  }

  /** Call x was registered under id at j, and nothing has taken it off the map since. */
  ghost predicate WaitsFrom(states: seq<State>, events: seq<Event>, n: nat, x: nat, id: string, j: nat)
    requires |states| == |events| + 1 && n <= |events|
  {
    j < n && RegistersAt(states, events, x, id, j)
    && forall k :: j < k < n ==> !TakesOff(states[k], events[k], x, id)
  }

  ghost predicate Waits(states: seq<State>, events: seq<Event>, n: nat, x: nat, id: string)
    requires |states| == |events| + 1 && n <= |events|
  {
    exists j: nat :: WaitsFrom(states, events, n, x, id, j)
  }

  predicate OnMap(s: State, x: nat, id: string) {
    id in s.corr.waiters && s.corr.waiters[id] == x
  }

  lemma WaitsOneMore(states: seq<State>, events: seq<Event>, n: nat, x: nat, id: string)
    requires |states| == |events| + 1 && n < |events|
    ensures Waits(states, events, n + 1, x, id) <==>
      || RegistersAt(states, events, x, id, n)
      || (Waits(states, events, n, x, id) && !TakesOff(states[n], events[n], x, id))
  {
    if RegistersAt(states, events, x, id, n) {
      assert WaitsFrom(states, events, n + 1, x, id, n);
    }
    if Waits(states, events, n, x, id) && !TakesOff(states[n], events[n], x, id) {
      var j: nat :| WaitsFrom(states, events, n, x, id, j);
      assert WaitsFrom(states, events, n + 1, x, id, j);
    }
    if Waits(states, events, n + 1, x, id) {
      var j: nat :| WaitsFrom(states, events, n + 1, x, id, j);
      assert j < n ==> WaitsFrom(states, events, n, x, id, j);
    }
  }

  lemma OnMapStep(s: State, ev: Event, x: nat, id: string)
    requires WaitersInv(s) && Enabled(s, ev)
    ensures
      var t := Step(s, ev);
      OnMap(t, x, id) <==>
        || (ev == Begin(x, id) && x in t.calls && t.calls[x].Sending?)
        || (OnMap(s, x, id) && !TakesOff(s, ev, x, id))
  {
    match ev
    case Reconcile(y) => OnMapReconcile(s, y, x, id);
    case Begin(_, _) => OnMapOther(s, ev, x, id);
    case Take(_) => OnMapOther(s, ev, x, id);
    case Close => OnMapOther(s, ev, x, id);
    case _ => assert Step(s, ev).corr.waiters == s.corr.waiters;
  }

  lemma OnMapOther(s: State, ev: Event, x: nat, id: string)
    requires (s.corr.closed ==> s.corr.waiters == map[]) && Enabled(s, ev) && (ev.Begin? || ev.Take? || ev.Close?)
    ensures
      var t := Step(s, ev);
      OnMap(t, x, id) <==>
        || (ev == Begin(x, id) && x in t.calls && t.calls[x].Sending?)
        || (OnMap(s, x, id) && !TakesOff(s, ev, x, id))
  {
  }

  lemma OnMapReconcile(s: State, y: nat, x: nat, id: string)
    requires WaitersInv(s) && Enabled(s, Reconcile(y))
    ensures OnMap(Step(s, Reconcile(y)), x, id) <==> OnMap(s, x, id) && x != y
  {
    assert id in s.corr.waiters ==> WaiterOk(s, id);
    assert s.calls[y].id in s.corr.waiters ==> WaiterOk(s, s.calls[y].id);
  }

  /** The map holds exactly the calls that wait. */
  lemma {:induction false} OnMapIffWaits(states: seq<State>, events: seq<Event>, n: nat, x: nat, id: string)
    requires Run(states, events) && n < |states|
    ensures OnMap(states[n], x, id) <==> Waits(states, events, n, x, id)
  {
    if n > 0 {
      OnMapIffWaits(states, events, n - 1, x, id);
      InvAlways(states, events, n - 1);
      assert RunsAt(states, events, n - 1);
      OnMapStep(states[n - 1], events[n - 1], x, id);
      WaitsOneMore(states, events, n - 1, x, id);
    }
  }

  lemma {:induction false} ClosedIff(states: seq<State>, events: seq<Event>, n: nat)
    requires Run(states, events) && n < |states|
    ensures states[n].corr.closed <==> ClosedBefore(events, n)
  {
    if n > 0 {
      ClosedIff(states, events, n - 1);
      assert RunsAt(states, events, n - 1);
      assert ClosedBefore(events, n) <==> ClosedBefore(events, n - 1) || events[n - 1].Close?;
    }
  }

  // ---- How a call ends ---------------------------------------------------------------

  ghost predicate GaveUp(events: seq<Event>, n: nat, x: nat) {
    exists j :: 0 <= j < n && j < |events| && events[j] == GiveUp(x)
  }

  /** Reply d was sent to the slot of call x. */
  ghost predicate SentTo(states: seq<State>, events: seq<Event>, n: nat, d: nat, x: nat)
    requires |states| == |events| + 1
  {
    exists j :: 0 <= j < n && SendsAt(states, events, d, x, j)
  }

  ghost predicate SendsAt(states: seq<State>, events: seq<Event>, d: nat, x: nat, j: nat)
    requires |states| == |events| + 1
  {
    j < |events| && events[j] == Put(d) && PromisedBy(states[j], x, d)
  }

  /** The replies sent to x so far, as one: a slot is sent to once. */
  ghost predicate ReplyOf(states: seq<State>, events: seq<Event>, n: nat, x: nat, reply: Option<nat>)
    requires |states| == |events| + 1
  {
    forall d: nat :: SentTo(states, events, n, d, x) <==> reply == Some(d)
  }

  /** Where a call stands, against whether it gave up and what was sent to it. */
  ghost predicate Ending(s: State, x: nat, gaveUp: bool, reply: Option<nat>) {
    if x !in s.calls then !gaveUp && reply.None?
    else match s.calls[x]
      case Done(Refused(_)) => !gaveUp && reply.None?
      case Done(Replied(d)) => !gaveUp && reply == Some(d)
      case Done(Closed) => !gaveUp && reply.None?
      case Done(Abandoned) => gaveUp
      case call =>
        && (call.GivingUp? || call.Draining? <==> gaveUp)
        && x in s.corr.slots && s.corr.slots[x].buffer == reply
  }

  lemma EndingStep(s: State, ev: Event, x: nat, gaveUp: bool, reply: Option<nat>)
    requires Enabled(s, ev) && Ending(s, x, gaveUp, reply) && (x in s.calls ==> CallOk(s, x))
    requires ev.Put? ==> DeliveryOk(s, ev.d)
    ensures
      var sent := ev.Put? && PromisedBy(s, x, ev.d);
      && (sent ==> reply.None?)
      && Ending(Step(s, ev), x, gaveUp || ev == GiveUp(x), if sent then Some(ev.d) else reply)
  {
  }

  lemma {:induction false} EndingAlways(states: seq<State>, events: seq<Event>, n: nat, x: nat)
    returns (reply: Option<nat>)
    requires Run(states, events) && n < |states|
    ensures ReplyOf(states, events, n, x, reply) && Ending(states[n], x, GaveUp(events, n, x), reply)
  {
    if n == 0 {
      return None;
    }
    reply := EndingAlways(states, events, n - 1, x);
    InvAlways(states, events, n - 1);
    var s, ev := states[n - 1], events[n - 1];
    assert RunsAt(states, events, n - 1);
    EndingStep(s, ev, x, GaveUp(events, n - 1, x), reply);
    assert GaveUp(events, n, x) <==> GaveUp(events, n - 1, x) || ev == GiveUp(x);
    var sent := ev.Put? && PromisedBy(s, x, ev.d);
    forall d ensures SentTo(states, events, n, d, x) <==>
      SentTo(states, events, n - 1, d, x) || (sent && ev.d == d)
    {
      assert SendsAt(states, events, d, x, n - 1) <==> sent && ev.d == d;
    }
    reply := if sent then Some(ev.d) else reply;
  }

  // ---- Theorems ----------------------------------------------------------------------

  /** Registration, exactly: a call is refused as closed if and only if Close came before it; else
      as a duplicate if and only if a call of the same id waits; else it is registered, with an
      open, empty slot of its own. */
  lemma RegistersIff(states: seq<State>, events: seq<Event>, n: nat, x: nat, id: string)
    requires Run(states, events) && n < |events| && events[n] == Begin(x, id)
    ensures
      var t := states[n + 1];
      && x in t.calls
      && (t.calls[x] == Done(Refused(GatewayClosed)) <==> ClosedBefore(events, n))
      && (t.calls[x] == Done(Refused(DuplicateCorrelation)) <==>
            !ClosedBefore(events, n) && exists y :: Waits(states, events, n, y, id))
      && (t.calls[x].Done? || (t.calls[x] == Sending(id) && OnMap(t, x, id) && x in t.corr.slots
                               && t.corr.slots[x] == Slot(None, false)))
      && (t.calls[x].Done? ==> t.calls[x].result.Refused? && !t.calls[x].result.why.Granted?)
  {
    assert RunsAt(states, events, n);
    ClosedIff(states, events, n);
    forall y ensures OnMap(states[n], y, id) <==> Waits(states, events, n, y, id) {
      OnMapIffWaits(states, events, n, y, id);
    }
    assert id in states[n].corr.waiters ==> OnMap(states[n], states[n].corr.waiters[id], id);
  }

  /** A reply is promised to call x if and only if x waits under its id; if none does, it goes to
      the unmatched sink. */
  lemma TakesWaiterIff(states: seq<State>, events: seq<Event>, n: nat, d: nat)
    requires Run(states, events) && n < |events| && events[n] == Take(d)
    ensures d in states[n].deliveries
    ensures
      var s, t, id := states[n], states[n + 1], states[n].deliveries[d].id;
      && (forall x :: PromisedBy(t, x, d) <==> Waits(states, events, n, x, id))
      && ((exists x :: Waits(states, events, n, x, id)) ==> t.unmatched == s.unmatched)
      && (!(exists x :: Waits(states, events, n, x, id)) ==> t.unmatched == s.unmatched + multiset{d})
  {
    assert RunsAt(states, events, n);
    var id := states[n].deliveries[d].id;
    forall x ensures OnMap(states[n], x, id) <==> Waits(states, events, n, x, id) {
      OnMapIffWaits(states, events, n, x, id);
    }
    assert id in states[n].corr.waiters ==> OnMap(states[n], states[n].corr.waiters[id], id);
  }

  /** How a registered call ends, exactly: abandoned if and only if it gave up; otherwise with the
      reply sent to its slot, or as closed if none was. */
  lemma EndsWith(states: seq<State>, events: seq<Event>, n: nat, x: nat)
    requires Run(states, events) && n < |states|
    requires x in states[n].calls && states[n].calls[x].Done? && !states[n].calls[x].result.Refused?
    ensures
      var result, gaveUp := states[n].calls[x].result, GaveUp(events, n, x);
      && (result.Abandoned? <==> gaveUp)
      && (forall d :: result == Replied(d) <==> !gaveUp && SentTo(states, events, n, d, x))
      && (result.Closed? <==> !gaveUp && !exists d :: SentTo(states, events, n, d, x))
  {
    var reply := EndingAlways(states, events, n, x);
    if reply.Some? {
      assert SentTo(states, events, n, reply.value, x);
    }
  }
}
