/** What every run of the queue machine keeps, and the theorems about QueueStore. */
module QueueTheorems {
  import opened Reliability
  import opened Messages
  import opened Collections
  import opened QueueSpec
  import opened QueueMachine

  // ---- Counting a message ------------------------------------------------------------------

  /** How many of the entries carry message c. */
  function Count(entries: seq<Entry>, c: nat): nat {
    if entries == [] then 0
    else Count(entries[..|entries| - 1], c) + if entries[|entries| - 1].msg.delivery == c then 1 else 0
  }

  lemma CountAppend(entries: seq<Entry>, e: Entry, c: nat)
    ensures Count(entries + [e], c) == Count(entries, c) + if e.msg.delivery == c then 1 else 0
  {
    assert (entries + [e])[..|entries|] == entries;
  }

  lemma {:induction false} CountHead(entries: seq<Entry>, c: nat)
    requires entries != []
    ensures Count(entries, c) == Count(entries[1..], c) + if entries[0].msg.delivery == c then 1 else 0
    decreases |entries|
  {
    var n := |entries| - 1;
    if n > 0 {
      CountHead(entries[..n], c);
      assert entries[..n][1..] == entries[1..][..n - 1];
    }
  }

  function CountUpTo(entries: seq<Entry>, n: nat, c: nat): nat
    requires n <= |entries|
  {
    if n == 0 then 0 else CountUpTo(entries, n - 1, c) + if entries[n - 1].msg.delivery == c then 1 else 0
  }

  lemma {:induction false} CountIsUpTo(entries: seq<Entry>, n: nat, c: nat)
    requires n <= |entries|
    ensures Count(entries[..n], c) == CountUpTo(entries, n, c)
  {
    if n > 0 {
      CountIsUpTo(entries, n - 1, c);
      assert entries[..n][..n - 1] == entries[..n - 1];
    }
  }

  lemma {:induction false} ClaimCountUpTo(ready: seq<Entry>, n: nat, now: int, max: int, epoch: nat, c: nat)
    requires n <= |ready|
    ensures Count(Taken(ready, n, now, max, epoch), c) + Count(Kept(ready, n, now, max, epoch), c) ==
      CountUpTo(ready, n, c)
  {
    if n > 0 {
      ClaimCountUpTo(ready, n - 1, now, max, epoch, c);
      var taken, kept, e := Taken(ready, n - 1, now, max, epoch), Kept(ready, n - 1, now, max, epoch), ready[n - 1];
      CountAppend(taken, e.(epoch := epoch + 1 + |taken|), c);
      CountAppend(kept, e, c);
    }
  }

  /** A claim neither loses nor doubles a message. */
  lemma ClaimCount(q: Queue, now: int, max: int, c: nat)
    ensures Count(Claim(q, now, max).1, c) + Count(Claim(q, now, max).0.ready, c) == Count(q.ready, c)
  {
    ClaimCountUpTo(q.ready, |q.ready|, now, max, q.epoch, c);
    CountIsUpTo(q.ready, |q.ready|, c);
    assert q.ready[..|q.ready|] == q.ready;
  }

  // ---- Places ------------------------------------------------------------------------------

  /** A message is listed in ready once when its place says so, and not at all otherwise. */
  ghost predicate ReadyInv(q: Queue, place: map<nat, Place>) {
    forall c :: Count(q.ready, c) == if c in place && place[c].Ready? then 1 else 0
  }

  predicate Held(q: Queue, place: map<nat, Place>, k: nat)
    requires k in q.inflight
  {
    q.inflight[k].msg.delivery in place && place[q.inflight[k].msg.delivery] == InFlight(k)
  }

  predicate Claimed(q: Queue, place: map<nat, Place>, c: nat)
    requires c in place
  {
    place[c].InFlight? ==> place[c].epoch in q.inflight && q.inflight[place[c].epoch].msg.delivery == c
  }

  ghost predicate FlightInv(q: Queue, place: map<nat, Place>) {
    && (forall k :: k in q.inflight ==> Held(q, place, k))
    && (forall c :: c in place ==> Claimed(q, place, c))
  }

  /** Calls on their way in have no place yet; a call has one once it has returned nil, except
      where DropNewest sheds. */
  ghost predicate FreshInv(s: State) {
    && (forall c :: c in s.arriving + s.slotted + s.shedding ==> c !in s.place && c !in s.returned)
    && (forall c :: c in s.place ==> c < s.calls && c in s.returned && s.returned[c] == None)
    && (forall c :: c in s.returned ==>
          c < s.calls && (s.returned[c] == None && s.policy != DropNewest ==> c in s.place))
  }

  predicate SettledInv(s: State) {
    && Distinct(s.settled)
    && (forall i :: 0 <= i < |s.settled| ==> s.settled[i] <= s.q.epoch && s.settled[i] !in s.q.inflight)
    && (forall k :: 1 <= k <= s.q.epoch ==> k in s.q.inflight || k in s.settled)
  }

  ghost predicate Inv(s: State) {
    CallsInv(s) && SlotsInv(s) && PlacesInv(s.q, s.place) && FreshInv(s) && SettledInv(s)
  }

  // ---- Each step keeps the places ------------------------------------------------------------

  /** One entry appended for a message that was not listed. */
  lemma ReadyAppend(ready: seq<Entry>, place: map<nat, Place>, e: Entry, epoch: nat, inflight: map<nat, Entry>,
                    inflight': map<nat, Entry>)
    requires ReadyInv(Queue(ready, inflight, epoch), place)
    requires e.msg.delivery in place ==> !place[e.msg.delivery].Ready?
    ensures ReadyInv(Queue(ready + [e], inflight', epoch), place[e.msg.delivery := Ready])
  {
    var place' := place[e.msg.delivery := Ready];
    forall c ensures Count(ready + [e], c) == if c in place' && place'[c].Ready? then 1 else 0 {
      CountAppend(ready, e, c);
    }
  }

  /** The head evicted. */
  lemma ReadyEvict(q: Queue, place: map<nat, Place>)
    requires ReadyInv(q, place) && q.ready != []
    ensures ReadyInv(q.(ready := q.ready[1..]), place[q.ready[0].msg.delivery := Evicted])
    ensures q.ready[0].msg.delivery in place && place[q.ready[0].msg.delivery].Ready?
  {
    var h := q.ready[0].msg.delivery;
    CountHead(q.ready, h);
    assert Count(q.ready, h) >= 1;
    var place' := place[h := Evicted];
    forall c ensures Count(q.ready[1..], c) == if c in place' && place'[c].Ready? then 1 else 0 {
      CountHead(q.ready, c);
    }
  }

  /** A place that is neither ready nor in flight before and after does not matter. */
  lemma ReadyElsewhere(q: Queue, place: map<nat, Place>, c: nat, p: Place)
    requires ReadyInv(q, place) && !p.Ready? && (c in place ==> !place[c].Ready?)
    ensures ReadyInv(q, place[c := p])
  {
  }

  lemma FlightPut(q: Queue, q': Queue, place: map<nat, Place>, c: nat, p: Place)
    requires FlightInv(q, place) && q'.inflight == q.inflight && !p.InFlight? && (c in place ==> !place[c].InFlight?)
    ensures FlightInv(q', place[c := p])
  {
    forall k | k in q'.inflight ensures Held(q', place[c := p], k) {
      assert Held(q, place, k);
    }
    var place' := place[c := p];
    forall d | d in place' ensures Claimed(q', place', d) {
      assert d in place ==> Claimed(q, place, d);
    }
  }

  /** A live token leaves. */
  lemma FlightLeave(q: Queue, q': Queue, place: map<nat, Place>, token: nat, p: Place)
    requires FlightInv(q, place) && token in q.inflight && q'.inflight == q.inflight - {token} && !p.InFlight?
    ensures
      var c := q.inflight[token].msg.delivery;
      c in place && place[c] == InFlight(token) && FlightInv(q', place[c := p])
  {
    var c := q.inflight[token].msg.delivery;
    assert Held(q, place, token);
    forall k | k in q'.inflight ensures Held(q', place[c := p], k) {
      assert Held(q, place, k);
    }
    var place' := place[c := p];
    forall d | d in place' ensures Claimed(q', place', d) {
      assert d in place ==> Claimed(q, place, d);
    }
  }

  // ---- A claim -----------------------------------------------------------------------------

  /** Where a claim leaves each message. */
  lemma {:induction false} ClaimPlaces(place: map<nat, Place>, claimed: seq<Entry>, c: nat)
    requires Count(claimed, c) <= 1
    ensures Count(claimed, c) == 0 ==>
              (c in PlaceClaimed(place, claimed) <==> c in place)
                && (c in place ==> PlaceClaimed(place, claimed)[c] == place[c])
    ensures Count(claimed, c) == 1 ==> c in PlaceClaimed(place, claimed) && PlaceClaimed(place, claimed)[c].InFlight?
    decreases |claimed|
  {
    if claimed != [] {
      ClaimPlaces(place, claimed[..|claimed| - 1], c);
    }
  }

  lemma {:induction false} ClaimPlaceAt(place: map<nat, Place>, claimed: seq<Entry>, i: nat)
    requires i < |claimed| && Count(claimed, claimed[i].msg.delivery) <= 1
    ensures claimed[i].msg.delivery in PlaceClaimed(place, claimed)
    ensures PlaceClaimed(place, claimed)[claimed[i].msg.delivery] == InFlight(claimed[i].epoch)
    ensures Count(claimed, claimed[i].msg.delivery) == 1
    decreases |claimed|
  {
    var n := |claimed| - 1;
    if i < n {
      ClaimPlaceAt(place, claimed[..n], i);
    }
  }

  lemma ClaimReady(q: Queue, place: map<nat, Place>, now: int, max: int)
    requires ReadyInv(q, place)
    ensures ReadyInv(Claim(q, now, max).0, PlaceClaimed(place, Claim(q, now, max).1))
  {
    var (q', claimed) := Claim(q, now, max);
    var place' := PlaceClaimed(place, claimed);
    forall c ensures Count(q'.ready, c) == if c in place' && place'[c].Ready? then 1 else 0 {
      ClaimCount(q, now, max, c);
      assert Count(q.ready, c) <= 1;
      ClaimPlaces(place, claimed, c);
    }
  }

  /** Claimed messages were ready, each once. */
  lemma ClaimedWereReady(q: Queue, place: map<nat, Place>, now: int, max: int, c: nat)
    requires ReadyInv(q, place)
    ensures Count(Claim(q, now, max).1, c) <= 1
    ensures Count(Claim(q, now, max).1, c) == 1 ==> c in place && place[c].Ready?
  {
    ClaimCount(q, now, max, c);
    assert Count(q.ready, c) == if c in place && place[c].Ready? then 1 else 0;
  }

  lemma {:induction false} CountOccurs(claimed: seq<Entry>, c: nat) returns (i: nat)
    requires Count(claimed, c) >= 1
    ensures i < |claimed| && claimed[i].msg.delivery == c
    decreases |claimed|
  {
    var n := |claimed| - 1;
    if claimed[n].msg.delivery == c {
      i := n;
    } else {
      i := CountOccurs(claimed[..n], c);
    }
  }

  /** Where an in-flight entry comes from. */
  lemma ClaimEntry(q: Queue, now: int, max: int, k: nat)
    requires ValidQueue(q)
    ensures
      var (q', claimed) := Claim(q, now, max);
      && (k in q.inflight ==> k in q'.inflight && q'.inflight[k] == q.inflight[k])
      && (k in q'.inflight && k !in q.inflight ==>
            q.epoch < k <= q.epoch + |claimed| && q'.inflight[k] == claimed[k - q.epoch - 1])
  {
    var claimed := Claim(q, now, max).1;
    ClaimCounts(q.ready, |q.ready|, now, max, q.epoch);
    LeasedKeys(q.inflight, claimed, q.epoch);
    LeasedValues(q.inflight, claimed, q.epoch);
  }

  /** And that a claimed entry is there. */
  lemma ClaimToken(q: Queue, now: int, max: int, i: nat)
    requires ValidQueue(q) && i < |Claim(q, now, max).1|
    ensures
      var (q', claimed) := Claim(q, now, max);
      claimed[i].epoch == q.epoch + 1 + i && claimed[i].epoch in q'.inflight
        && q'.inflight[claimed[i].epoch] == claimed[i]
  {
    var claimed := Claim(q, now, max).1;
    ClaimCounts(q.ready, |q.ready|, now, max, q.epoch);
    LeasedValues(q.inflight, claimed, q.epoch);
  }

  lemma ClaimHeld(q: Queue, place: map<nat, Place>, now: int, max: int, k: nat)
    requires ValidQueue(q) && ReadyInv(q, place) && FlightInv(q, place) && k in Claim(q, now, max).0.inflight
    ensures Held(Claim(q, now, max).0, PlaceClaimed(place, Claim(q, now, max).1), k)
  {
    var claimed := Claim(q, now, max).1;
    ClaimEntry(q, now, max, k);
    if k in q.inflight {
      assert Held(q, place, k);
      var c := q.inflight[k].msg.delivery;
      ClaimedWereReady(q, place, now, max, c);
      ClaimPlaces(place, claimed, c);
    } else {
      var i := k - q.epoch - 1;
      ClaimToken(q, now, max, i);
      ClaimedWereReady(q, place, now, max, claimed[i].msg.delivery);
      ClaimPlaceAt(place, claimed, i);
    }
  }

  lemma ClaimClaimed(q: Queue, place: map<nat, Place>, now: int, max: int, c: nat)
    requires ValidQueue(q) && ReadyInv(q, place) && FlightInv(q, place)
    requires c in PlaceClaimed(place, Claim(q, now, max).1)
    ensures Claimed(Claim(q, now, max).0, PlaceClaimed(place, Claim(q, now, max).1), c)
    ensures c in place
  {
    var claimed := Claim(q, now, max).1;
    ClaimedWereReady(q, place, now, max, c);
    if Count(claimed, c) == 0 {
      ClaimPlaces(place, claimed, c);
      assert Claimed(q, place, c);
      if place[c].InFlight? {
        ClaimEntry(q, now, max, place[c].epoch);
      }
    } else {
      var i := CountOccurs(claimed, c);
      ClaimPlaceAt(place, claimed, i);
      ClaimToken(q, now, max, i);
    }
  }

  lemma ClaimFlight(q: Queue, place: map<nat, Place>, now: int, max: int)
    requires ValidQueue(q) && ReadyInv(q, place) && FlightInv(q, place)
    ensures FlightInv(Claim(q, now, max).0, PlaceClaimed(place, Claim(q, now, max).1))
    ensures forall c :: c in PlaceClaimed(place, Claim(q, now, max).1) <==> c in place
  {
    var (q', claimed) := Claim(q, now, max);
    var place' := PlaceClaimed(place, claimed);
    forall k | k in q'.inflight ensures Held(q', place', k) {
      ClaimHeld(q, place, now, max, k);
    }
    forall c | c in place' ensures Claimed(q', place', c) && c in place {
      ClaimClaimed(q, place, now, max, c);
    }
    forall c | c in place ensures c in place' {
      ClaimedWereReady(q, place, now, max, c);
      ClaimPlaces(place, claimed, c);
    }
  }

  // ---- Every step keeps the invariant -----------------------------------------------------------

  ghost predicate PlacesInv(q: Queue, place: map<nat, Place>) {
    ReadyInv(q, place) && FlightInv(q, place)
  }

  lemma PlacesAppend(q: Queue, place: map<nat, Place>, msg: Message, now: int)
    requires PlacesInv(q, place) && msg.delivery !in place
    ensures PlacesInv(Append(q, msg, now), place[msg.delivery := Ready])
  {
    ReadyAppend(q.ready, place, Entry(msg, now, 0), q.epoch, q.inflight, q.inflight);
    FlightPut(q, Append(q, msg, now), place, msg.delivery, Ready);
  }

  lemma PlacesEvict(q: Queue, place: map<nat, Place>, msg: Message, now: int)
    requires PlacesInv(q, place) && msg.delivery !in place && q.ready != []
    ensures q.ready[0].msg.delivery in place
    ensures PlacesInv(EvictAndAppend(q, msg, now).0, place[q.ready[0].msg.delivery := Evicted][msg.delivery := Ready])
  {
    var h, q1 := q.ready[0].msg.delivery, q.(ready := q.ready[1..]);
    ReadyEvict(q, place);
    FlightPut(q, q1, place, h, Evicted);
    PlacesAppend(q1, place[h := Evicted], msg, now);
  }

  lemma PlacesRemove(q: Queue, place: map<nat, Place>, token: nat, end: Place)
    requires PlacesInv(q, place) && token in q.inflight && (end.Acked? || end.Dropped?)
    ensures q.inflight[token].msg.delivery in place
    ensures PlacesInv(Settle(q, token).0, place[q.inflight[token].msg.delivery := end])
  {
    FlightLeave(q, Settle(q, token).0, place, token, end);
    ReadyElsewhere(q, place, q.inflight[token].msg.delivery, end);
  }

  lemma PlacesRequeue(q: Queue, place: map<nat, Place>, token: nat, now: int, delay: int)
    requires PlacesInv(q, place) && token in q.inflight
    ensures q.inflight[token].msg.delivery in place
    ensures PlacesInv(Requeue(q, token, now, delay).0, place[q.inflight[token].msg.delivery := Ready])
  {
    var q' := Requeue(q, token, now, delay).0;
    FlightLeave(q, q', place, token, Ready);
    ReadyAppend(q.ready, place, q.inflight[token].(visibleAt := now + delay, epoch := 0), q.epoch, q.inflight,
      q'.inflight);
  }

  lemma PlacesClaim(q: Queue, place: map<nat, Place>, now: int, max: int)
    requires ValidQueue(q) && PlacesInv(q, place)
    ensures PlacesInv(Claim(q, now, max).0, PlaceClaimed(place, Claim(q, now, max).1))
    ensures forall c :: c in PlaceClaimed(place, Claim(q, now, max).1) <==> c in place
  {
    ClaimReady(q, place, now, max);
    ClaimFlight(q, place, now, max);
  }

  lemma NotLive(q: Queue, token: nat)
    requires token !in q.inflight
    ensures Settle(q, token).0 == q
  {
    assert q.inflight - {token} == q.inflight;
  }

  /** The queue and the places move together. */
  lemma PlacesStep(s: State, ev: Event)
    requires ValidQueue(s.q) && PlacesInv(s.q, s.place) && CallsInv(s) && FreshInv(s) && Enabled(s, ev)
    ensures PlacesInv(Step(s, ev).q, Step(s, ev).place)
  {
    match ev
    case AppendOne(c) => PlacesAppend(s.q, s.place, s.msgs[c], s.now);
    case Shed(c) =>
      if s.q.ready != [] {
        PlacesEvict(s.q, s.place, s.msgs[c], s.now);
      }
    case AckRemove(token) => PlacesStepRemove(s, token, Acked);
    case NackDrop(token) => PlacesStepRemove(s, token, Dropped);
    case NackRequeue(token, delay) =>
      if token in s.q.inflight {
        PlacesRequeue(s.q, s.place, token, s.now, delay);
      }
    case ClaimSome(max) => PlacesClaim(s.q, s.place, s.now, max);
    case _ =>
  }

  lemma PlacesStepRemove(s: State, token: nat, end: Place)
    requires PlacesInv(s.q, s.place) && (end.Acked? || end.Dropped?)
    ensures PlacesInv(StepRemove(s, token, end).q, StepRemove(s, token, end).place)
  {
    if token in s.q.inflight {
      PlacesRemove(s.q, s.place, token, end);
    } else {
      NotLive(s.q, token);
    }
  }

  /** No step but an append adds a place. */
  lemma PlacedKeys(s: State, ev: Event)
    requires ValidQueue(s.q) && PlacesInv(s.q, s.place) && CallsInv(s) && FreshInv(s) && Enabled(s, ev)
    ensures forall c :: c in Step(s, ev).place ==> c in s.place || ((ev.AppendOne? || ev.Shed?) && c == ev.c)
    ensures forall c :: c in s.place ==> c in Step(s, ev).place
  {
    match ev
    case Shed(c) =>
      if s.q.ready != [] {
        PlacesEvict(s.q, s.place, s.msgs[c], s.now);
      }
    case AckRemove(token) =>
      if token in s.q.inflight {
        PlacesRemove(s.q, s.place, token, Acked);
      }
    case NackDrop(token) =>
      if token in s.q.inflight {
        PlacesRemove(s.q, s.place, token, Dropped);
      }
    case NackRequeue(token, delay) =>
      if token in s.q.inflight {
        PlacesRequeue(s.q, s.place, token, s.now, delay);
      }
    case ClaimSome(max) => PlacesClaim(s.q, s.place, s.now, max);
    case _ =>
  }

  lemma FreshStep(s: State, ev: Event)
    requires ValidQueue(s.q) && PlacesInv(s.q, s.place) && CallsInv(s) && FreshInv(s) && Enabled(s, ev)
    ensures FreshInv(Step(s, ev))
  {
    PlacedKeys(s, ev);
    var t := Step(s, ev);
    if ev.AppendOne? || ev.Shed? || ev.Cancel? {
      FreshReturn(s, ev);
    } else {
      FreshOther(s, ev);
    }
  }

  lemma FreshReturn(s: State, ev: Event)
    requires CallsInv(s) && FreshInv(s) && Enabled(s, ev) && (ev.AppendOne? || ev.Shed? || ev.Cancel?)
    requires forall c :: c in Step(s, ev).place ==> c in s.place || ((ev.AppendOne? || ev.Shed?) && c == ev.c)
    requires forall c :: c in s.place ==> c in Step(s, ev).place
    ensures FreshInv(Step(s, ev))
  {
    var t := Step(s, ev);
    ReturnFrame(s, ev);
    FreshAfterReturn(s, t, ev.c);
  }

  /** The Enqueue calls in progress. */
  function Calls(s: State): set<nat> {
    s.arriving + s.slotted + s.shedding
  }

  ghost predicate Returned(s: State, t: State, x: nat) {
    && Calls(t) == Calls(s) - {x}
    && t.calls == s.calls && t.policy == s.policy
    && t.returned.Keys == s.returned.Keys + {x}
    && (forall c :: c in s.returned && c != x ==> t.returned[c] == s.returned[c])
    && (x in t.place ==> t.returned[x] == None)
    && (t.returned[x] == None && s.policy != DropNewest ==> x in t.place)
  }

  lemma ReturnFrame(s: State, ev: Event)
    requires CallsInv(s) && FreshInv(s) && Enabled(s, ev) && (ev.AppendOne? || ev.Shed? || ev.Cancel?)
    ensures Returned(s, Step(s, ev), ev.c)
  {
    if ev.Shed? {
      ReturnShed(s, ev.c);
    } else if ev.AppendOne? {
      assert Calls(Step(s, ev)) == Calls(s) - {ev.c};
    } else {
      assert Calls(Step(s, ev)) == Calls(s) - {ev.c};
    }
  }

  lemma ReturnShed(s: State, x: nat)
    requires CallsInv(s) && FreshInv(s) && x in s.shedding
    ensures Returned(s, StepShed(s, x), x)
  {
    var t := StepShed(s, x);
    assert Calls(t) == Calls(s) - {x};
  }

  lemma FreshAfterReturn(s: State, t: State, x: nat)
    requires FreshInv(s) && x < s.calls && x in s.arriving + s.slotted + s.shedding
    requires Returned(s, t, x)
    requires forall c :: c in t.place ==> c in s.place || c == x
    requires forall c :: c in s.place ==> c in t.place
    ensures FreshInv(t)
  {
  }

  lemma FreshOther(s: State, ev: Event)
    requires CallsInv(s) && FreshInv(s) && Enabled(s, ev) && !ev.AppendOne? && !ev.Shed? && !ev.Cancel?
    requires forall c :: c in Step(s, ev).place <==> c in s.place
    ensures FreshInv(Step(s, ev))
  {
  }

  lemma SettledStep(s: State, ev: Event)
    requires ValidQueue(s.q) && SettledInv(s) && Enabled(s, ev)
    ensures SettledInv(Step(s, ev))
  {
    if ev.ClaimSome? {
      SettledClaim(s, ev.max);
    } else if ev.AckRemove? || ev.NackDrop? || ev.NackRequeue? {
      SettledToken(s, ev);
    }
  }

  lemma SettledClaim(s: State, max: int)
    requires ValidQueue(s.q) && SettledInv(s)
    ensures SettledInv(Step(s, ClaimSome(max)))
  {
    var (q', claimed) := Claim(s.q, s.now, max);
    forall i | 0 <= i < |s.settled| ensures s.settled[i] !in q'.inflight {
      ClaimEntry(s.q, s.now, max, s.settled[i]);
    }
    forall k | 1 <= k <= q'.epoch ensures k in q'.inflight || k in s.settled {
      if k > s.q.epoch {
        ClaimToken(s.q, s.now, max, k - s.q.epoch - 1);
      } else {
        ClaimEntry(s.q, s.now, max, k);
      }
    }
  }

  lemma SettledToken(s: State, ev: Event)
    requires ValidQueue(s.q) && SettledInv(s) && (ev.AckRemove? || ev.NackDrop? || ev.NackRequeue?)
    ensures SettledInv(Step(s, ev))
  {
    var t := Step(s, ev);
    if ev.token in s.q.inflight {
      assert t.q.inflight == s.q.inflight - {ev.token} && t.settled == s.settled + [ev.token] && t.q.epoch == s.q.epoch;
      SettledOne(s, t, ev.token);
    } else {
      NotLive(s.q, ev.token);
    }
  }

  lemma SettledOne(s: State, t: State, token: nat)
    requires ValidQueue(s.q) && SettledInv(s) && token in s.q.inflight
    requires t.q.inflight == s.q.inflight - {token} && t.settled == s.settled + [token] && t.q.epoch == s.q.epoch
    ensures SettledInv(t)
  {
    assert t.settled[|s.settled|] == token;
    assert forall k :: k in s.settled ==> k in t.settled;
  }

  lemma InvStep(s: State, ev: Event)
    requires Inv(s) && Enabled(s, ev)
    ensures Inv(Step(s, ev))
  {
    CallsStep(s, ev);
    SlotsStep(s, ev);
    PlacesStep(s, ev);
    FreshStep(s, ev);
    SettledStep(s, ev);
  }

  lemma InvInit(s: State)
    requires Init(s)
    ensures Inv(s)
  {
  }

  lemma {:induction false} InvAlways(states: seq<State>, events: seq<Event>, t: nat)
    requires Run(states, events) && t < |states|
    ensures Inv(states[t])
  {
    if t == 0 {
      InvInit(states[0]);
    } else {
      InvAlways(states, events, t - 1);
      assert StepAt(states, events, t - 1);
      InvStep(states[t - 1], events[t - 1]);
    }
  }

  // ---- Theorems ----------------------------------------------------------------------------------

  /** The semaphore counts the ready and in-flight messages and the calls between their two
      steps, so the store never holds more than its capacity, and a settler about to receive
      from the semaphore never waits. */
  lemma SemaphoreIsExact(states: seq<State>, events: seq<Event>, t: nat)
    requires Run(states, events) && t < |states|
    ensures
      var s := states[t];
      && s.sem == |s.q.ready| + |s.q.inflight| + |s.slotted| + |s.releasing| <= s.capacity
      && |s.q.ready| + |s.q.inflight| <= s.capacity
      && (forall c :: c in s.releasing ==> s.sem > 0)
  {
    InvAlways(states, events, t);
    var s := states[t];
    forall c | c in s.releasing ensures s.sem > 0 {
      assert s.releasing == s.releasing - {c} + {c};
    }
  }

  /** Every token a claim issued is either still in flight or has been settled to effect by
      exactly one Ack or Nack; any further settle of it changes nothing. */
  lemma ClaimSettledOnce(states: seq<State>, events: seq<Event>, t: nat, k: nat)
    requires Run(states, events) && t < |states| && 1 <= k <= states[t].q.epoch
    ensures k in states[t].q.inflight <==> k !in states[t].settled
    ensures Distinct(states[t].settled)
    ensures t < |events| && SettlesToken(events[t], k) && k in states[t].settled ==> SameStore(states[t], states[t + 1])
  {
    InvAlways(states, events, t);
    TokensSplit(states[t], k);
    if t < |events| && SettlesToken(events[t], k) && k in states[t].settled {
      assert StepAt(states, events, t);
      LateSettleDoesNothing(states[t], events[t]);
    }
  }

  predicate SettlesToken(ev: Event, k: nat) {
    (ev.AckRemove? || ev.NackDrop? || ev.NackRequeue?) && ev.token == k
  }

  predicate SameStore(s: State, t: State) {
    t.q == s.q && t.sem == s.sem && t.releasing == s.releasing && t.place == s.place && t.settled == s.settled
  }

  lemma TokensSplit(s: State, k: nat)
    requires SettledInv(s) && 1 <= k <= s.q.epoch
    ensures k in s.q.inflight <==> k !in s.settled
  {
  }

  /** A repeated or late settle changes neither the queue nor the semaphore nor any place. */
  lemma LateSettleDoesNothing(s: State, ev: Event)
    requires (ev.AckRemove? || ev.NackDrop? || ev.NackRequeue?) && ev.token !in s.q.inflight
    ensures SameStore(s, Step(s, ev))
  {
    NotLive(s.q, ev.token);
  }

  /** A call that returned nil, other than under DropNewest, put its message in the store; the
      message is then listed in ready exactly once, or in flight under exactly one token, or
      gone for good, as its place says, and in no other. */
  lemma AdmittedIsInOnePlace(states: seq<State>, events: seq<Event>, t: nat, c: nat)
    requires Run(states, events) && t < |states| && c in states[t].returned && states[t].returned[c] == None
    requires states[t].policy != DropNewest
    ensures c in states[t].place
    ensures Count(states[t].q.ready, c) == if states[t].place[c].Ready? then 1 else 0
    ensures forall k :: k in states[t].q.inflight ==>
              (states[t].q.inflight[k].msg.delivery == c <==> states[t].place[c] == InFlight(k))
    ensures states[t].place[c].InFlight? ==> states[t].place[c].epoch in states[t].q.inflight
  {
    InvAlways(states, events, t);
    var s := states[t];
    assert Claimed(s.q, s.place, c);
    forall k | k in s.q.inflight ensures s.q.inflight[k].msg.delivery == c <==> s.place[c] == InFlight(k) {
      assert Held(s.q, s.place, k);
    }
  }

  /** The only ways a message moves. */
  predicate Move(from: Place, to: Place, ev: Event, policy: Policy) {
    || from == to
    || (from.Ready? && to.InFlight? && ev.ClaimSome?)
    || (from.InFlight? && to.Acked? && ev == AckRemove(from.epoch))
    || (from.InFlight? && to.Dropped? && ev == NackDrop(from.epoch))
    || (from.InFlight? && to.Ready? && ev.NackRequeue? && ev.token == from.epoch)
    || (from.Ready? && to.Evicted? && ev.Shed? && policy == DropOldest)
  }

  lemma MoveStep(s: State, ev: Event, c: nat)
    requires PlacesInv(s.q, s.place) && FreshInv(s) && Enabled(s, ev) && c in s.place
    ensures c in Step(s, ev).place && Move(s.place[c], Step(s, ev).place[c], ev, s.policy)
  {
    if ev.AckRemove? || ev.NackDrop? || ev.NackRequeue? {
      MoveSettle(s, ev, c);
    } else if ev.ClaimSome? {
      MoveClaim(s, ev.max, c);
    } else if ev.Shed? {
      MoveShed(s, ev.c, c);
    }
  }

  lemma MoveSettle(s: State, ev: Event, c: nat)
    requires FlightInv(s.q, s.place) && c in s.place && (ev.AckRemove? || ev.NackDrop? || ev.NackRequeue?)
    ensures c in Step(s, ev).place && Move(s.place[c], Step(s, ev).place[c], ev, s.policy)
  {
    if ev.token in s.q.inflight {
      assert Held(s.q, s.place, ev.token);
    }
  }

  lemma MoveClaim(s: State, max: int, c: nat)
    requires ReadyInv(s.q, s.place) && c in s.place
    ensures c in Step(s, ClaimSome(max)).place
    ensures Move(s.place[c], Step(s, ClaimSome(max)).place[c], ClaimSome(max), s.policy)
  {
    ClaimedWereReady(s.q, s.place, s.now, max, c);
    ClaimPlaces(s.place, Claim(s.q, s.now, max).1, c);
  }

  lemma MoveShed(s: State, x: nat, c: nat)
    requires ReadyInv(s.q, s.place) && x in s.msgs && x !in s.place && c in s.place
    ensures c in StepShed(s, x).place && Move(s.place[c], StepShed(s, x).place[c], Shed(x), s.policy)
  {
    if s.q.ready != [] {
      ReadyEvict(s.q, s.place);
    }
  }

  lemma MoveAt(states: seq<State>, events: seq<Event>, t: nat, c: nat)
    requires Run(states, events) && t < |events| && c in states[t].place
    ensures c in states[t + 1].place && Move(states[t].place[c], states[t + 1].place[c], events[t], states[t].policy)
  {
    InvAlways(states, events, t);
    assert StepAt(states, events, t);
    MoveStep(states[t], events[t], c);
  }

  lemma {:induction false} PolicyIsFixed(states: seq<State>, events: seq<Event>, t: nat)
    requires Run(states, events) && t < |states|
    ensures states[t].policy == states[0].policy
  {
    if t > 0 {
      PolicyIsFixed(states, events, t - 1);
      assert StepAt(states, events, t - 1);
    }
  }

  /** No message vanishes: from one state to any later one a message keeps a place, and an
      acked, dropped or evicted one stays what it is. Only DropOldest evicts. */
  lemma {:induction false} NoMessageVanishes(states: seq<State>, events: seq<Event>, t: nat, u: nat, c: nat)
    requires Run(states, events) && t <= u < |states| && c in states[t].place
    ensures c in states[u].place
    ensures states[t].place[c].Acked? || states[t].place[c].Dropped? || states[t].place[c].Evicted? ==>
              states[u].place[c] == states[t].place[c]
    ensures states[0].policy != DropOldest && !states[t].place[c].Evicted? ==> !states[u].place[c].Evicted?
    decreases u
  {
    if t < u {
      NoMessageVanishes(states, events, t, u - 1, c);
      PolicyIsFixed(states, events, u - 1);
      MoveAt(states, events, u - 1, c);
    }
  }

  // ---- Delayed redelivery ------------------------------------------------------------------------

  /** Message c is listed, hidden until v. */
  predicate ListedUntil(ready: seq<Entry>, c: nat, v: int) {
    exists i :: 0 <= i < |ready| && ready[i].msg.delivery == c && ready[i].visibleAt == v
  }

  lemma {:induction false} KeptUnlessVisible(ready: seq<Entry>, n: nat, now: int, max: int, epoch: nat, i: nat)
    requires i < n <= |ready|
    ensures ready[i] in Kept(ready, n, now, max, epoch) || Visible(ready[i], now)
  {
    if i < n - 1 {
      KeptUnlessVisible(ready, n - 1, now, max, epoch, i);
    }
  }

  lemma {:induction false} ListedIsCounted(ready: seq<Entry>, e: Entry)
    requires e in ready
    ensures Count(ready, e.msg.delivery) >= 1
    decreases |ready|
  {
    var n := |ready| - 1;
    if ready[n] != e {
      assert e in ready[..n];
      ListedIsCounted(ready[..n], e);
    }
  }

  /** A claim that takes a message finds it visible; one that leaves it leaves it as it was. */
  lemma ClaimRespectsDelay(q: Queue, now: int, max: int, c: nat, v: int)
    requires Count(q.ready, c) == 1 && ListedUntil(q.ready, c, v)
    ensures ListedUntil(Claim(q, now, max).0.ready, c, v) || v <= now
    ensures Count(Claim(q, now, max).1, c) == 1 ==> v <= now
  {
    var i :| 0 <= i < |q.ready| && q.ready[i].msg.delivery == c && q.ready[i].visibleAt == v;
    var n, q' := |q.ready|, Claim(q, now, max).0;
    KeptUnlessVisible(q.ready, n, now, max, q.epoch, i);
    if q.ready[i] in q'.ready {
      ListedIsCounted(q'.ready, q.ready[i]);
      ClaimCount(q, now, max, c);
      var j :| 0 <= j < |q'.ready| && q'.ready[j] == q.ready[i];
      assert q'.ready[j].msg.delivery == c;
    }
  }

  lemma ListedAppend(ready: seq<Entry>, e: Entry, c: nat, v: int)
    requires ListedUntil(ready, c, v)
    ensures ListedUntil(ready + [e], c, v)
  {
    var i :| 0 <= i < |ready| && ready[i].msg.delivery == c && ready[i].visibleAt == v;
    assert (ready + [e])[i] == ready[i];
  }

  lemma ListedTail(ready: seq<Entry>, c: nat, v: int)
    requires ListedUntil(ready, c, v) && ready[0].msg.delivery != c
    ensures ListedUntil(ready[1..], c, v)
  {
    var i :| 0 <= i < |ready| && ready[i].msg.delivery == c && ready[i].visibleAt == v;
    assert ready[1..][i - 1] == ready[i];
  }

  lemma DelayStep(s: State, ev: Event, c: nat, v: int)
    requires PlacesInv(s.q, s.place) && FreshInv(s) && Enabled(s, ev) && c in s.place && s.place[c].Ready?
    requires ListedUntil(s.q.ready, c, v)
    requires c in Step(s, ev).place
    ensures Step(s, ev).place[c].Ready? ==> ListedUntil(Step(s, ev).q.ready, c, v) || v <= s.now
    ensures Step(s, ev).place[c].InFlight? ==> v <= s.now
  {
    assert Count(s.q.ready, c) == 1;
    match ev
    case AppendOne(x) => ListedAppend(s.q.ready, Entry(s.msgs[x], s.now, 0), c, v);
    case Shed(x) => DelayStepShed(s, x, c, v);
    case ClaimSome(max) =>
      ClaimRespectsDelay(s.q, s.now, max, c, v);
      ClaimedWereReady(s.q, s.place, s.now, max, c);
      ClaimPlaces(s.place, Claim(s.q, s.now, max).1, c);
    case NackRequeue(token, delay) =>
      if token in s.q.inflight {
        ListedAppend(s.q.ready, s.q.inflight[token].(visibleAt := s.now + delay, epoch := 0), c, v);
      }
    case _ =>
  }

  lemma DelayStepShed(s: State, x: nat, c: nat, v: int)
    requires ReadyInv(s.q, s.place) && x in s.msgs && x !in s.place && c in s.place && s.place[c].Ready?
    requires ListedUntil(s.q.ready, c, v)
    ensures var t := StepShed(s, x);
      c in t.place && (t.place[c].Ready? ==> ListedUntil(t.q.ready, c, v)) && !t.place[c].InFlight?
  {
    if s.policy == DropOldest && s.q.ready[0].msg.delivery != c {
      ListedTail(s.q.ready, c, v);
      ListedAppend(s.q.ready[1..], Entry(s.msgs[x], s.now, 0), c, v);
    }
  }

  lemma DelayAt(states: seq<State>, events: seq<Event>, t: nat, c: nat, v: int)
    requires Run(states, events) && t < |events| && c in states[t].place && states[t].place[c].Ready?
    requires ListedUntil(states[t].q.ready, c, v) || v <= states[t].now
    ensures c in states[t + 1].place && states[t].now <= states[t + 1].now
    ensures states[t + 1].place[c].Ready? ==> ListedUntil(states[t + 1].q.ready, c, v) || v <= states[t + 1].now
    ensures states[t + 1].place[c].InFlight? ==> v <= states[t].now
  {
    InvAlways(states, events, t);
    MoveAt(states, events, t, c);
    assert StepAt(states, events, t);
    ClockStep(states[t], events[t]);
    if v > states[t].now {
      DelayStep(states[t], events[t], c, v);
    }
  }

  lemma ClockStep(s: State, ev: Event)
    requires Enabled(s, ev)
    ensures Step(s, ev).now >= s.now
  {
  }

  /** A message Nacked with a delay, and left in ready from then on, is not claimed before the
      delay is over. */
  lemma RedeliveryWaits(states: seq<State>, events: seq<Event>, t: nat, u: nat, c: nat)
    requires Run(states, events) && t < u < |events| && events[t].NackRequeue?
    requires events[t].token in states[t].q.inflight
    requires states[t].q.inflight[events[t].token].msg.delivery == c
    requires forall k :: t < k <= u ==> c in states[k].place && states[k].place[c].Ready?
    requires c in states[u + 1].place && states[u + 1].place[c].InFlight?
    ensures states[u].now >= states[t].now + events[t].delay
  {
    var v := states[t].now + events[t].delay;
    assert StepAt(states, events, t);
    var ready := states[t + 1].q.ready;
    assert ready[|ready| - 1].msg.delivery == c && ready[|ready| - 1].visibleAt == v;
    StillWaits(states, events, t + 1, u, c, v);
    DelayAt(states, events, u, c, v);
  }

  lemma {:induction false} StillWaits(states: seq<State>, events: seq<Event>, t: nat, u: nat, c: nat, v: int)
    requires Run(states, events) && t <= u < |states|
    requires forall k :: t <= k <= u ==> c in states[k].place && states[k].place[c].Ready?
    requires ListedUntil(states[t].q.ready, c, v)
    ensures ListedUntil(states[u].q.ready, c, v) || v <= states[u].now
    decreases u
  {
    if t < u {
      StillWaits(states, events, t, u - 1, c, v);
      DelayAt(states, events, u - 1, c, v);
    }
  }
}
