/** The order of the in-memory queue over every run: exactly which messages a claim takes, what
    each event does to a message, and that claims go by the order of entry. */
module QueueOrder {
  import opened Reliability
  import opened Messages
  import opened QueueSpec
  import opened QueueMachine
  import opened QueueTheorems

  // ---- What a claim takes -----------------------------------------------------------------

  /** How many of the first n ready entries are visible. */
  function VisibleBefore(ready: seq<Entry>, n: nat, now: int): nat
    requires n <= |ready|
  {
    if n == 0 then 0 else VisibleBefore(ready, n - 1, now) + if ready[n - 1].visibleAt <= now then 1 else 0
  }

  /** Entry i is visible and fewer than max before it are. */
  predicate Due(ready: seq<Entry>, i: nat, now: int, max: int)
    requires i < |ready|
  {
    ready[i].visibleAt <= now && VisibleBefore(ready, i, now) < max
  }

  lemma {:induction false} TakenCounts(ready: seq<Entry>, n: nat, now: int, max: int, epoch: nat)
    requires n <= |ready|
    ensures
      var v, k := VisibleBefore(ready, n, now), |Taken(ready, n, now, max, epoch)|;
      k == (if v < max then v else if max < 0 then 0 else max)
  {
    if n > 0 {
      TakenCounts(ready, n - 1, now, max, epoch);
    }
  }

  /** An entry that is due is taken, with the token its rank gives it; another is left. */
  lemma {:induction false} TakenIffDue(ready: seq<Entry>, n: nat, now: int, max: int, epoch: nat, i: nat)
    requires i < n <= |ready|
    ensures
      var taken, k := Taken(ready, n, now, max, epoch), VisibleBefore(ready, i, now);
      if Due(ready, i, now, max) then k < |taken| && taken[k] == ready[i].(epoch := epoch + 1 + k)
      else ready[i] in Kept(ready, n, now, max, epoch)
  {
    TakenCounts(ready, i, now, max, epoch);
    if i < n - 1 {
      TakenIffDue(ready, n - 1, now, max, epoch, i);
    }
  }

  /** Where a claim leaves the message of entry i. */
  lemma ClaimPlaceOf(q: Queue, place: map<nat, Place>, now: int, max: int, i: nat)
    requires ValidQueue(q) && ReadyInv(q, place) && i < |q.ready|
    ensures
      var c, claimed := q.ready[i].msg.delivery, Claim(q, now, max).1;
      && c in place && place[c] == Ready && c in PlaceClaimed(place, claimed)
      && PlaceClaimed(place, claimed)[c] ==
           if Due(q.ready, i, now, max) then InFlight(q.epoch + 1 + VisibleBefore(q.ready, i, now)) else Ready
  {
    var c, claimed := q.ready[i].msg.delivery, Claim(q, now, max).1;
    ListedIsCounted(q.ready, q.ready[i]);
    assert Count(q.ready, c) == if c in place && place[c].Ready? then 1 else 0;
    ClaimCount(q, now, max, c);
    TakenIffDue(q.ready, |q.ready|, now, max, q.epoch, i);
    if Due(q.ready, i, now, max) {
      ClaimPlaceAt(place, claimed, VisibleBefore(q.ready, i, now));
    } else {
      ListedIsCounted(Claim(q, now, max).0.ready, q.ready[i]);
      ClaimPlaces(place, claimed, c);
    }
  }

  // ---- What each event does to a message ----------------------------------------------------

  /** From flight: only its own token moves a message. */
  function FromFlight(k: nat, ev: Event): Place {
    if ev == AckRemove(k) then Acked
    else if ev == NackDrop(k) then Dropped
    else if ev.NackRequeue? && ev.token == k then Ready
    else InFlight(k)
  }

  /** From place i of the ready list: a claim takes it if it is due, under the token of its rank;
      DropOldest evicts the head. */
  function FromReady(s: State, i: nat, ev: Event): Place
    requires i < |s.q.ready|
  {
    if ev.ClaimSome? && Due(s.q.ready, i, s.now, ev.max)
    then InFlight(s.q.epoch + 1 + VisibleBefore(s.q.ready, i, s.now))
    else if ev.Shed? && s.policy == DropOldest && i == 0 then Evicted
    else Ready
  }

  /** Every move of every message, exactly. */
  lemma MovesExactly(states: seq<State>, events: seq<Event>, t: nat, c: nat) returns (i: nat)
    requires Run(states, events) && t < |events| && c in states[t].place
    ensures c in states[t + 1].place
    ensures
      var s, ev, to := states[t], events[t], states[t + 1].place[c];
      match s.place[c]
      case InFlight(k) => to == FromFlight(k, ev)
      case Ready => i < |s.q.ready| && s.q.ready[i].msg.delivery == c && to == FromReady(s, i, ev)
      case end => to == end
  {
    i := 0;
    PlacesAlways(states, events, t);
    assert StepAt(states, events, t);
    var s, ev := states[t], events[t];
    MoveAt(states, events, t, c);
    if s.place[c].Ready? {
      i := CountOccurs(s.q.ready, c);
      if ev.ClaimSome? {
        ClaimPlaceOf(s.q, s.place, s.now, ev.max, i);
      } else if ev.Shed? {
        ShedMoves(s, ev.c, i);
      }
    } else if s.place[c].InFlight? {
      FlightMoves(s, ev, c);
    }
  }

  lemma PlacesAlways(states: seq<State>, events: seq<Event>, t: nat)
    requires Run(states, events) && t < |states|
    ensures
      var s := states[t];
      ValidQueue(s.q) && CallsInv(s) && FreshInv(s) && PlacesInv(s.q, s.place)
  {
    InvAlways(states, events, t);
  }

  lemma FlightMoves(s: State, ev: Event, c: nat)
    requires FlightInv(s.q, s.place) && Enabled(s, ev) && c in s.place && s.place[c].InFlight?
    requires c in Step(s, ev).place && Move(s.place[c], Step(s, ev).place[c], ev, s.policy)
    ensures Step(s, ev).place[c] == FromFlight(s.place[c].epoch, ev)
  {
    assert Claimed(s.q, s.place, c);
  }

  lemma ShedMoves(s: State, x: nat, i: nat)
    requires CallsInv(s) && FreshInv(s) && PlacesInv(s.q, s.place) && x in s.shedding && i < |s.q.ready|
    requires s.q.ready[i].msg.delivery in s.place && s.place[s.q.ready[i].msg.delivery] == Ready
    ensures
      var c, t := s.q.ready[i].msg.delivery, StepShed(s, x);
      c in t.place && t.place[c] == if s.policy == DropOldest && i == 0 then Evicted else Ready
  {
    var c, head := s.q.ready[i].msg.delivery, s.q.ready[0].msg.delivery;
    if i > 0 {
      assert s.q.ready[1..][i - 1] == s.q.ready[i];
      ListedIsCounted(s.q.ready[1..], s.q.ready[i]);
      CountHead(s.q.ready, c);
      assert Count(s.q.ready, c) == 1 && c != head;
    }
  }

  // ---- Entry order -------------------------------------------------------------------------

  /** This event puts message c at the end of the ready list. */
  predicate Enters(s: State, ev: Event, c: nat) {
    || ev == AppendOne(c)
    || (ev == Shed(c) && s.policy == DropOldest && s.q.ready != [])
    || (ev.NackRequeue? && ev.token in s.q.inflight && s.q.inflight[ev.token].msg.delivery == c)
  }

  /** The last entry of c before t was at step e. */
  predicate EnteredAt(states: seq<State>, events: seq<Event>, t: nat, c: nat, e: nat)
    requires t <= |events| < |states|
  {
    e < t && Enters(states[e], events[e], c) && forall u :: e < u < t ==> !Enters(states[u], events[u], c)
  }

  /** The entry was made by the last entry of its message, at step e. */
  predicate Entered(states: seq<State>, events: seq<Event>, t: nat, entry: Entry, e: nat)
    requires t <= |events| < |states|
  {
    EnteredAt(states, events, t, entry.msg.delivery, e) && entry.visibleAt == VisibleFrom(states[e], events[e])
  }

  predicate Increasing(es: seq<nat>) {
    forall i, j :: 0 <= i < j < |es| ==> es[i] < es[j]
  }

  /** When an entry made at s by ev is first visible: at once, or after the delay of its Nack. */
  function VisibleFrom(s: State, ev: Event): int {
    s.now + if ev.NackRequeue? then ev.delay else 0
  }

  /** es are the steps at which the listed messages entered, and they are in list order. */
  predicate EntrySteps(states: seq<State>, events: seq<Event>, t: nat, ready: seq<Entry>, es: seq<nat>)
    requires t <= |events| < |states|
  {
    && |es| == |ready| && Increasing(es)
    && forall i :: 0 <= i < |es| ==> Entered(states, events, t, ready[i], es[i])
  }

  /** A list that loses some entries keeps the order of the rest. */
  lemma {:induction false} KeptInOrder(ready: seq<Entry>, es: seq<nat>, n: nat, now: int, max: int, epoch: nat)
    returns (kept: seq<nat>)
    requires n <= |ready| == |es| && Increasing(es)
    ensures Picked(ready, es, n, Kept(ready, n, now, max, epoch), kept) && Increasing(kept)
  {
    if n == 0 {
      return [];
    }
    kept := KeptInOrder(ready, es, n - 1, now, max, epoch);
    var before := Kept(ready, n - 1, now, max, epoch);
    PickedOn(ready, es, n, before, kept);
    if Kept(ready, n, now, max, epoch) != before {
      kept := kept + [es[n - 1]];
    }
  }

  lemma PickedOn(ready: seq<Entry>, es: seq<nat>, n: nat, before: seq<Entry>, kept: seq<nat>)
    requires 0 < n <= |ready| == |es| && Increasing(es) && Picked(ready, es, n - 1, before, kept) && Increasing(kept)
    ensures Picked(ready, es, n, before, kept)
    ensures Picked(ready, es, n, before + [ready[n - 1]], kept + [es[n - 1]]) && Increasing(kept + [es[n - 1]])
  {
    forall i | 0 <= i < |kept| ensures kept[i] < es[n - 1] && PickedAt(ready, es, n, before[i], kept[i]) {
      assert PickedAt(ready, es, n - 1, before[i], kept[i]);
      var j :| Same(ready, es, n - 1, before[i], kept[i], j);
      assert Same(ready, es, n, before[i], kept[i], j);
    }
    assert Same(ready, es, n, ready[n - 1], es[n - 1], n - 1);
  }

  /** Entry i of some is one of the first n of ready, with its step. */
  ghost predicate Picked(ready: seq<Entry>, es: seq<nat>, n: nat, some: seq<Entry>, steps: seq<nat>)
    requires n <= |ready| == |es|
  {
    |steps| == |some| && forall i :: 0 <= i < |some| ==> PickedAt(ready, es, n, some[i], steps[i])
  }

  ghost predicate PickedAt(ready: seq<Entry>, es: seq<nat>, n: nat, e: Entry, step: nat)
    requires n <= |ready| == |es|
  {
    exists j :: Same(ready, es, n, e, step, j)
  }

  predicate Same(ready: seq<Entry>, es: seq<nat>, n: nat, e: Entry, step: nat, j: int)
    requires n <= |ready| == |es|
  {
    0 <= j < n && ready[j] == e && es[j] == step
  }

  lemma EntersFresh(s: State, ev: Event, c: nat)
    requires Inv(s) && Enabled(s, ev) && Enters(s, ev, c)
    ensures Count(s.q.ready, c) == 0
  {
    if ev.NackRequeue? {
      assert Held(s.q, s.place, ev.token);
    }
    assert Count(s.q.ready, c) == if c in s.place && s.place[c].Ready? then 1 else 0;
  }

  lemma EntersLast(s: State, ev: Event, c: nat) returns (e: Entry)
    requires CallsInv(s) && Enabled(s, ev) && Enters(s, ev, c)
    ensures e.msg.delivery == c && e.visibleAt == VisibleFrom(s, ev)
    ensures Step(s, ev).q.ready == (if ev.Shed? then s.q.ready[1..] else s.q.ready) + [e]
    ensures (ev.Shed? ==> s.q.ready != []) && forall d :: Enters(s, ev, d) ==> d == c
  {
    e := if ev.NackRequeue? then s.q.inflight[ev.token].(visibleAt := s.now + ev.delay, epoch := 0)
      else Entry(s.msgs[c], s.now, 0);
  }

  /** A step by which nothing enters takes entries off the list, if any. */
  lemma EntersNone(s: State, ev: Event)
    requires CallsInv(s) && Enabled(s, ev) && forall c :: !Enters(s, ev, c)
    ensures Step(s, ev).q.ready == s.q.ready || (ev.ClaimSome? && Step(s, ev).q == Claim(s.q, s.now, ev.max).0)
  {
    match ev
    case AppendOne(c) => assert Enters(s, ev, c);
    case Shed(c) => assert !Enters(s, ev, c);
    case NackRequeue(token, _) =>
      if token in s.q.inflight {
        assert Enters(s, ev, s.q.inflight[token].msg.delivery);
      }
    case _ =>
  }

  /** One more step by which the message does not enter. */
  lemma StillEntered(states: seq<State>, events: seq<Event>, t: nat, entry: Entry, e: nat)
    requires t < |events| < |states| && Entered(states, events, t, entry, e)
    requires !Enters(states[t], events[t], entry.msg.delivery)
    ensures Entered(states, events, t + 1, entry, e)
  {
  }

  /** The list, less its head or not, with an entry of c at its end. */
  lemma StepsAfterEntry(states: seq<State>, events: seq<Event>, t: nat, c: nat, ready: seq<Entry>, from: nat, e: Entry,
                        es: seq<nat>)
    requires t < |events| < |states| && Enters(states[t], events[t], c) && e.msg.delivery == c
    requires e.visibleAt == VisibleFrom(states[t], events[t])
    requires Count(ready, c) == 0 && forall d :: Enters(states[t], events[t], d) ==> d == c
    requires from <= |ready| && EntrySteps(states, events, t, ready, es)
    ensures EntrySteps(states, events, t + 1, ready[from..] + [e], es[from..] + [t])
  {
    var ready', es' := ready[from..] + [e], es[from..] + [t];
    forall i | 0 <= i < |es'| ensures Entered(states, events, t + 1, ready'[i], es'[i]) {
      if i < |es'| - 1 {
        assert es'[i] == es[from + i] && ready'[i] == ready[from + i];
        ListedIsCounted(ready, ready[from + i]);
        StillEntered(states, events, t, ready[from + i], es[from + i]);
      }
    }
    assert forall i :: 0 <= i < |es| ==> es[i] < t;
  }

  lemma StepsAfterClaim(states: seq<State>, events: seq<Event>, t: nat, ready: seq<Entry>, es: seq<nat>, now: int,
                        max: int, epoch: nat) returns (es': seq<nat>)
    requires t < |events| < |states| && events[t].ClaimSome? && EntrySteps(states, events, t, ready, es)
    ensures EntrySteps(states, events, t + 1, Kept(ready, |ready|, now, max, epoch), es')
  {
    es' := KeptInOrder(ready, es, |ready|, now, max, epoch);
    var ready' := Kept(ready, |ready|, now, max, epoch);
    forall i | 0 <= i < |es'| ensures Entered(states, events, t + 1, ready'[i], es'[i]) {
      assert PickedAt(ready, es, |ready|, ready'[i], es'[i]);
      var j :| Same(ready, es, |ready|, ready'[i], es'[i], j);
      StillEntered(states, events, t, ready'[i], es'[i]);
    }
  }

  lemma StepsStill(states: seq<State>, events: seq<Event>, t: nat, ready: seq<Entry>, es: seq<nat>)
    requires t < |events| < |states| && EntrySteps(states, events, t, ready, es)
    requires forall c :: !Enters(states[t], events[t], c)
    ensures EntrySteps(states, events, t + 1, ready, es)
  {
    forall i | 0 <= i < |es| ensures Entered(states, events, t + 1, ready[i], es[i]) {
      StillEntered(states, events, t, ready[i], es[i]);
    }
  }

  /** What a step does to the list. */
  ghost predicate ListStep(s: State, ev: Event, ready: seq<Entry>) {
    || (exists c, e: Entry :: EntryStep(s, ev, ready, c, e))
    || (ev.ClaimSome? && ready == Kept(s.q.ready, |s.q.ready|, s.now, ev.max, s.q.epoch))
    || (ready == s.q.ready && forall c :: !Enters(s, ev, c))
  }

  ghost predicate EntryStep(s: State, ev: Event, ready: seq<Entry>, c: nat, e: Entry) {
    && Enters(s, ev, c) && e.msg.delivery == c && Count(s.q.ready, c) == 0
    && (forall d :: Enters(s, ev, d) ==> d == c)
    && (ev.Shed? ==> s.q.ready != []) && e.visibleAt == VisibleFrom(s, ev)
    && ready == (if ev.Shed? then s.q.ready[1..] else s.q.ready) + [e]
  }

  lemma ListSteps(s: State, ev: Event)
    requires Inv(s) && Enabled(s, ev)
    ensures ListStep(s, ev, Step(s, ev).q.ready)
  {
    if exists c :: Enters(s, ev, c) {
      var c :| Enters(s, ev, c);
      EntersFresh(s, ev, c);
      var e := EntersLast(s, ev, c);
      assert EntryStep(s, ev, Step(s, ev).q.ready, c, e);
    } else {
      EntersNone(s, ev);
    }
  }

  lemma EntryOrderStep(states: seq<State>, events: seq<Event>, t: nat, ready': seq<Entry>, es: seq<nat>)
    returns (es': seq<nat>)
    requires t < |events| < |states| && EntrySteps(states, events, t, states[t].q.ready, es)
    requires ListStep(states[t], events[t], ready')
    ensures EntrySteps(states, events, t + 1, ready', es')
  {
    var s, ev := states[t], events[t];
    var ready := s.q.ready;
    if c, e: Entry :| EntryStep(s, ev, ready', c, e) {
      var from := if ev.Shed? then 1 else 0;
      StepsAfterEntry(states, events, t, c, ready, from, e, es);
      es' := es[from..] + [t];
      assert ready' == ready[from..] + [e];
    } else if ev.ClaimSome? && ready' == Kept(ready, |ready|, s.now, ev.max, s.q.epoch) {
      es' := StepsAfterClaim(states, events, t, ready, es, s.now, ev.max, s.q.epoch);
    } else {
      StepsStill(states, events, t, ready, es);
      es' := es;
    }
  }

  lemma ListStepAt(states: seq<State>, events: seq<Event>, t: nat)
    requires Run(states, events) && t < |events|
    ensures ListStep(states[t], events[t], states[t + 1].q.ready)
  {
    InvAlways(states, events, t);
    assert StepAt(states, events, t);
    ListSteps(states[t], events[t]);
  }

  /** The ready list is in the order in which its messages entered, by their admission or, if they
      were redelivered since, by their last requeue, and each is visible from then on, or from the
      end of the delay it was requeued with. With MovesExactly: claims take the visible
      messages in the order of entry and number their tokens in it, and DropOldest evicts the
      message that entered first. */
  lemma {:induction false} ReadyInEntryOrder(states: seq<State>, events: seq<Event>, t: nat) returns (es: seq<nat>)
    requires Run(states, events) && t < |states|
    ensures |es| == |states[t].q.ready| && Increasing(es)
    ensures forall i :: 0 <= i < |es| ==> Entered(states, events, t, states[t].q.ready[i], es[i])
  {
    if t == 0 {
      es := [];
    } else {
      es := ReadyInEntryOrder(states, events, t - 1);
      ListStepAt(states, events, t - 1);
      es := EntryOrderStep(states, events, t - 1, states[t].q.ready, es);
    }
  }

  // ---- What Enqueue answers ------------------------------------------------------------------------

  /** This event ends call c with this answer. */
  predicate Ends(s: State, ev: Event, c: nat, err: Option<Error>) {
    match ev
    case AppendOne(d) => d == c && err == None
    case Cancel(d) => d == c && err == Some(Leaf(Cancelled))
    case Shed(d) =>
      var admitted := s.policy == DropOldest && s.q.ready != [];
      d == c && err == if admitted || s.policy == DropNewest then None else Some(Leaf(OverflowDropped))
    case _ => false
  }

  lemma EndsStep(s: State, ev: Event, c: nat)
    requires CallsInv(s) && FreshInv(s) && Enabled(s, ev)
    ensures
      var t := Step(s, ev);
      && (c in s.returned ==> c in t.returned && t.returned[c] == s.returned[c] && forall err :: !Ends(s, ev, c, err))
      && (c !in s.returned && c in t.returned ==> Ends(s, ev, c, t.returned[c]))
      && (forall err :: Ends(s, ev, c, err) ==> c in t.returned && t.returned[c] == err)
  {
  }

  ghost predicate EndedWith(states: seq<State>, events: seq<Event>, t: nat, c: nat, err: Option<Error>)
    requires |states| == |events| + 1
  {
    exists u :: 0 <= u < t && u < |events| && Ends(states[u], events[u], c, err)
  }

  /** The answer of an Enqueue call, exactly: nil if it was admitted, at a free slot or, under
      DropOldest, in the place of the head, and under DropNewest also if it was dropped; its context's
      error if it gave up waiting; an overflow otherwise. */
  lemma {:induction false} EnqueueAnswers(states: seq<State>, events: seq<Event>, t: nat, c: nat, err: Option<Error>)
    requires Run(states, events) && t < |states|
    ensures (c in states[t].returned && states[t].returned[c] == err) <==> EndedWith(states, events, t, c, err)
  {
    if t > 0 {
      EnqueueAnswers(states, events, t - 1, c, err);
      PlacesAlways(states, events, t - 1);
      assert StepAt(states, events, t - 1);
      EndsStep(states[t - 1], events[t - 1], c);
      assert EndedWith(states, events, t, c, err) <==>
        EndedWith(states, events, t - 1, c, err) || Ends(states[t - 1], events[t - 1], c, err);
      if c in states[t - 1].returned && states[t - 1].returned[c] != err {
        EnqueueAnswers(states, events, t - 1, c, states[t - 1].returned[c]);
      }
    }
  }
}
