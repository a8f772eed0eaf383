/** Splitter to Aggregator with any number of Handle calls and reaper visits in flight: which
    aggregates of one split are whole. */
module Competing {
  import opened Reliability
  import opened Messages
  import opened Collections
  import opened GroupStoreSpec
  import opened Aggregator
  import opened AggregatorLeases
  import opened AggregatorMembers
  import opened AggregatorTheorems
  import opened AggregatorRuns
  import opened Reassembly

  // ---- Children in a group -------------------------------------------------------------------

  ghost predicate SomeChild(sp: Split, m: Message) {
    exists i :: 0 <= i < |sp.children| && IsChild(sp, m, i)
  }

  ghost predicate AllChildren(sp: Split, msgs: seq<Message>) {
    forall q :: 0 <= q < |msgs| ==> SomeChild(sp, msgs[q])
  }

  ghost function ChildIndex(sp: Split, m: Message): (i: nat)
    requires SomeChild(sp, m)
    ensures i < |sp.children| && IsChild(sp, m, i)
  {
    var i :| 0 <= i < |sp.children| && IsChild(sp, m, i); i
  }

  /** A split whose children can be told apart, by id, and go to one key. */
  ghost predicate Identified(sp: Split, key: string) {
    && 1 <= |sp.children| && sp.parent.ID() != ""
    && forall i :: 0 <= i < |sp.children| ==> DefaultCorrelate(Stamped(sp, i)) == Some(key)
  }

  /** In terms of what the split function returned: a child without a correlation header goes to
      its parent's id, and one with it to where that says. */
  lemma IdentifiedIff(sp: Split, key: string)
    requires 1 <= |sp.children| && sp.parent.ID() != ""
    ensures Identified(sp, key) <==> forall i :: 0 <= i < |sp.children| ==> GoesTo(sp.children[i], sp.parent, key)
  {
    forall i | 0 <= i < |sp.children|
      ensures DefaultCorrelate(Stamped(sp, i)) == Some(key) <==> GoesTo(sp.children[i], sp.parent, key)
    {
      StampedCorrelation(sp.children[i], sp.parent, i + 1, |sp.children|);
    }
  }

  predicate GoesTo(child: Message, parent: Message, key: string) {
    if HEADER_CORRELATION_ID in child.headers then DefaultCorrelate(child) == Some(key) else parent.ID() == key
  }

  lemma ChildIs(sp: Split, key: string, m: Message, i: nat)
    requires Identified(sp, key) && i < |sp.children| && IsChild(sp, m, i)
    ensures m.ID() == Stamped(sp, i).ID() != "" && DefaultCorrelate(m) == Some(key)
    ensures m.Header(HEADER_SEQUENCE_SIZE) == Some(Int(|sp.children|))
  {
    StampedIdsDiffer(sp.children[i], sp.children[i], sp.parent, i + 1, i + 1, |sp.children|);
    assert m.headers == Stamped(sp, i).headers;
    assert DefaultCorrelate(Stamped(sp, i)) == Some(key);
    StampedHeaders(sp.children[i], sp.parent, i + 1, |sp.children|, "");
  }

  lemma SameIdSameChild(sp: Split, key: string, i: nat, j: nat)
    requires Identified(sp, key) && i < |sp.children| && j < |sp.children|
    ensures Stamped(sp, i).ID() == Stamped(sp, j).ID() <==> i == j
  {
    StampedIdsDiffer(sp.children[i], sp.children[j], sp.parent, i + 1, j + 1, |sp.children|);
  }

  lemma SameChildSameId(sp: Split, key: string, a: Message, b: Message)
    requires Identified(sp, key) && SomeChild(sp, a) && SomeChild(sp, b)
    ensures a.ID() != "" && (a.ID() == b.ID() <==> ChildIndex(sp, a) == ChildIndex(sp, b))
  {
    var i, j := ChildIndex(sp, a), ChildIndex(sp, b);
    ChildIs(sp, key, a, i);
    ChildIs(sp, key, b, j);
    SameIdSameChild(sp, key, i, j);
  }

  lemma ChildIndexIs(sp: Split, key: string, m: Message, i: nat)
    requires Identified(sp, key) && i < |sp.children| && IsChild(sp, m, i)
    ensures SomeChild(sp, m) && ChildIndex(sp, m) == i
  {
    assert SomeChild(sp, m);
    var j := ChildIndex(sp, m);
    ChildIs(sp, key, m, i);
    ChildIs(sp, key, m, j);
    SameIdSameChild(sp, key, i, j);
  }

  /** Which children the members are. */
  ghost function Indices(sp: Split, msgs: seq<Message>): (r: seq<nat>)
    requires AllChildren(sp, msgs)
    ensures |r| == |msgs| && forall q :: 0 <= q < |msgs| ==> r[q] == ChildIndex(sp, msgs[q])
  {
    seq(|msgs|, q requires 0 <= q < |msgs| => ChildIndex(sp, msgs[q]))
  }

  lemma IndicesDiffer(sp: Split, key: string, msgs: seq<Message>)
    requires Identified(sp, key) && AllChildren(sp, msgs) && DistinctIds(msgs)
    ensures Distinct(Indices(sp, msgs)) && forall q :: 0 <= q < |msgs| ==> Indices(sp, msgs)[q] < |sp.children|
  {
    forall p, q | 0 <= p < q < |msgs| ensures Indices(sp, msgs)[p] != Indices(sp, msgs)[q] {
      SameChildSameId(sp, key, msgs[p], msgs[q]);
    }
  }

  lemma HeldIff(sp: Split, key: string, msgs: seq<Message>, i: nat)
    requires Identified(sp, key) && AllChildren(sp, msgs) && i < |sp.children|
    ensures HoldsChild(sp, msgs, i) <==> i in Indices(sp, msgs)
  {
    if HoldsChild(sp, msgs, i) {
      var q :| 0 <= q < |msgs| && IsChild(sp, msgs[q], i);
      ChildIndexIs(sp, key, msgs[q], i);
    }
    if i in Indices(sp, msgs) {
      var q :| 0 <= q < |msgs| && Indices(sp, msgs)[q] == i;
      assert IsChild(sp, msgs[q], i);
    }
  }

  lemma ReleasedIff(sp: Split, key: string, msgs: seq<Message>)
    requires Identified(sp, key) && AllChildren(sp, msgs)
    ensures DefaultRelease(msgs) == Complete <==> |msgs| >= |sp.children|
  {
    if msgs != [] {
      ChildIs(sp, key, msgs[0], ChildIndex(sp, msgs[0]));
    }
  }

  /** A group of different children has at most as many members as there are children; it has
      as many exactly when it is whole, and exactly then the default strategy releases it. */
  lemma WholeIff(sp: Split, key: string, msgs: seq<Message>)
    requires Identified(sp, key) && AllChildren(sp, msgs) && DistinctIds(msgs)
    ensures |msgs| <= |sp.children|
    ensures HoldsEachChildOnce(sp, msgs) <==> |msgs| == |sp.children|
    ensures HoldsEachChildOnce(sp, msgs) <==> DefaultRelease(msgs) == Complete
    ensures HoldsEachChildOnce(sp, msgs) <==> forall i :: 0 <= i < |sp.children| ==> HoldsChild(sp, msgs, i)
  {
    var idx, n := Indices(sp, msgs), |sp.children|;
    IndicesDiffer(sp, key, msgs);
    Pigeonhole(idx, n);
    ReleasedIff(sp, key, msgs);
    forall i | 0 <= i < n ensures HoldsChild(sp, msgs, i) <==> i in idx {
      HeldIff(sp, key, msgs, i);
    }
  }

  /** Every child's id is taken in a whole group. */
  lemma WholeHasId(sp: Split, key: string, msgs: seq<Message>, m: Message)
    requires Identified(sp, key) && HoldsEachChildOnce(sp, msgs) && SomeChild(sp, m)
    ensures m.ID() != "" && m.ID() in IdsOf(msgs)
  {
    var i := ChildIndex(sp, m);
    ChildIs(sp, key, m, i);
    assert HoldsChild(sp, msgs, i);
    var q :| 0 <= q < |msgs| && IsChild(sp, msgs[q], i);
    ChildIs(sp, key, msgs[q], i);
  }

  // ---- What a step does to one group -----------------------------------------------------------

  ghost function At(store: Store, key: string): Option<Group> {
    if key in store.groups then Some(store.groups[key]) else None
  }

  datatype Move = Same | Grown(m: Message) | Claimed | Freed | Settled

  function MembersOf(g: Option<Group>): seq<Message> {
    if g.Some? then g.value.msgs else []
  }

  predicate Leased(g: Option<Group>) {
    g.Some? && g.value.leased
  }

  ghost predicate Moved(g: Option<Group>, g': Option<Group>, move: Move) {
    match move
    case Same => g' == g
    case Grown(m) =>
      g'.Some? && g'.value.msgs == MembersOf(g) + [m] && Leased(g') == Leased(g)
        && (Leased(g) ==> g'.value.claimedLen == g.value.claimedLen)
    case Claimed => g.Some? && g'.Some? && !g.value.leased && g'.value.msgs == g.value.msgs && g'.value.leased
      && g'.value.claimedLen == |g.value.msgs|
    case Freed => g.Some? && g'.Some? && g'.value.msgs == g.value.msgs && !g'.value.leased
    case Settled =>
      && Leased(g) && g.value.claimedLen <= |g.value.msgs| && !Leased(g')
      && MembersOf(g') == g.value.msgs[g.value.claimedLen..]
  }

  ghost predicate SettlesKey(s: State, c: nat, ev: Event, key: string) {
    ev.Settle? && c in s.calls && Holding(s.calls[c]) && s.calls[c].claim.key == key
  }

  /** Which of the moves a step makes. */
  ghost function MoveOf(s: State, c: nat, ev: Event, key: string): Move
    requires Enabled(s, c, ev)
  {
    match ev
    case AddMember(k, _, _) =>
      if k == key && Accepted(s.store, key, s.calls[c].msg) then Grown(s.calls[c].msg) else Same
    case TryClaim => if s.calls[c].key == key && ClaimGroup(s.store, key).1.Some? then Claimed else Same
    case Abandon => if s.calls[c].claim.key == key then Freed else Same
    case Settle(_) => if SettlesKey(s, c, ev, key) then Settled else Same
    case _ => Same
  }

  lemma KeyStepSettle(s: State, c: nat, now: int, key: string)
    requires LeasesInv(s.store, s.calls) && Enabled(s, c, Settle(now))
    ensures Moved(At(s.store, key), At(Step(s, c, Settle(now)).store, key), MoveOf(s, c, Settle(now), key))
  {
    var claim := s.calls[c].claim;
    assert ClaimInForce(s.store, claim);
    if claim.key == key {
      var g := s.store.groups[key];
      assert g.msgs[g.claimedLen..] == []
        || SettleGroup(s.store, claim, now).groups[key].msgs == g.msgs[g.claimedLen..];
    }
  }

  lemma KeyStep(s: State, c: nat, ev: Event, key: string)
    requires LeasesInv(s.store, s.calls) && Enabled(s, c, ev)
    ensures Moved(At(s.store, key), At(Step(s, c, ev).store, key), MoveOf(s, c, ev, key))
  {
    match ev
    case Settle(now) => KeyStepSettle(s, c, now, key);
    case Abandon => assert ClaimInForce(s.store, s.calls[c].claim);
    case AddMember(k, _, now) => KeyStepAdd(s.store, k, s.calls[c].msg, now, key);
    case _ =>
  }

  lemma KeyStepAdd(store: Store, k: string, m: Message, now: int, key: string)
    requires ValidStore(store)
    ensures Moved(At(store, key), At(Add(store, k, m, now).0, key), if k == key && Accepted(store, key, m)
      then Grown(m) else Same)
  {
    if key in store.groups {
      assert ValidGroup(store.groups[key], store.maxMembers);
    }
  }

  // ---- Runs of the default Aggregator ------------------------------------------------------------

  /** The strategies are the default ones, and whatever correlates to the key is a child of the
      split; other keys get what they like. */
  ghost predicate DefaultStep(s: State, c: nat, ev: Event, sp: Split, key: string) {
    match ev
    case AddMember(k, verdict, now) =>
      c in s.calls && s.calls[c].Arrived? ==>
        var m := s.calls[c].msg;
        var live := Add(s.store, k, m, now).1.live;
        && DefaultCorrelate(m) == Some(k) && (k == key ==> SomeChild(sp, m))
        && verdict == DefaultVerdict(live)
    case Judge(verdict) => c in s.calls && Holding(s.calls[c]) ==> verdict == DefaultRelease(s.calls[c].claim.msgs)
    case _ => true
  }

  ghost predicate DefaultRun(states: seq<State>, steps: seq<(nat, Event)>, sp: Split, key: string) {
    && Run(states, steps) && Identified(sp, key)
    && forall i :: 0 <= i < |steps| ==> DefaultStep(states[i], steps[i].0, steps[i].1, sp, key)
  }

  lemma ChildrenStep(g: Option<Group>, g': Option<Group>, move: Move, sp: Split)
    requires AllChildren(sp, MembersOf(g)) && Moved(g, g', move) && (move.Grown? ==> SomeChild(sp, move.m))
    ensures AllChildren(sp, MembersOf(g'))
  {
  }

  /** The group of the key holds only children. */
  lemma {:induction false} OnlyChildren(states: seq<State>, steps: seq<(nat, Event)>, sp: Split, key: string, n: nat)
    requires DefaultRun(states, steps, sp, key) && n < |states|
    ensures AllChildren(sp, MembersOf(At(states[n].store, key)))
  {
    if n > 0 {
      OnlyChildren(states, steps, sp, key, n - 1);
      LeasesAlways(states, steps, n - 1);
      var s, c, ev := states[n - 1], steps[n - 1].0, steps[n - 1].1;
      assert DefaultStep(s, c, ev, sp, key);
      KeyStep(s, c, ev, key);
      ChildrenStep(At(s.store, key), At(states[n].store, key), MoveOf(s, c, ev, key), sp);
    }
  }

  // ---- From the judged snapshot to the claim ------------------------------------------------------

  /** Between a call's judgement of a whole group and its claim: either the group is still the
      judged one, or it has been settled and holds only members accepted since. */
  ghost predicate Since(g: Option<Group>, judged: seq<Message>, before: set<nat>, settled: bool) {
    if !settled then g.Some? && g.value.msgs == judged && (g.value.leased ==> g.value.claimedLen == |judged|)
    else forall q :: 0 <= q < |MembersOf(g)| ==> MembersOf(g)[q].delivery !in before
  }

  lemma SinceStep(g: Option<Group>, g': Option<Group>, move: Move, judged: seq<Message>, before: set<nat>,
                  settled: bool)
    requires Since(g, judged, before, settled) && Moved(g, g', move)
    requires move.Grown? ==> settled && move.m.delivery !in before
    ensures Since(g', judged, before, settled || move.Settled?)
  {
    if settled || move.Settled? {
      forall q | 0 <= q < |MembersOf(g')| ensures MembersOf(g')[q].delivery !in before {
        SinceMember(g, g', move, judged, before, settled, q);
      }
    }
  }

  lemma SinceMember(g: Option<Group>, g': Option<Group>, move: Move, judged: seq<Message>, before: set<nat>,
                    settled: bool, q: nat)
    requires Since(g, judged, before, settled) && Moved(g, g', move) && (settled || move.Settled?)
    requires q < |MembersOf(g')|
    requires move.Grown? ==> settled && move.m.delivery !in before
    ensures MembersOf(g')[q].delivery !in before
  {
    if move.Settled? {
      assert settled;
      assert MembersOf(g')[q] == MembersOf(g)[g.value.claimedLen + q];
    } else if q < |MembersOf(g)| {
      assert MembersOf(g')[q] == MembersOf(g)[q];
    }
  }

  ghost predicate SettledBetween(states: seq<State>, steps: seq<(nat, Event)>, key: string, a: nat, u: nat)
    requires |states| == |steps| + 1
  {
    exists j :: a < j < u && j < |steps| && SettlesKey(states[j], steps[j].0, steps[j].1, key)
  }

  /** A group that is whole takes in no child. */
  lemma WholeIsClosed(s: State, c: nat, ev: Event, sp: Split, key: string, judged: seq<Message>)
    requires ValidStore(s.store) && Enabled(s, c, ev) && DefaultStep(s, c, ev, sp, key) && Identified(sp, key)
    requires HoldsEachChildOnce(sp, judged) && key in s.store.groups && s.store.groups[key].msgs == judged
    ensures !MoveOf(s, c, ev, key).Grown?
  {
    if ev.AddMember? && ev.key == key {
      WholeHasId(sp, key, judged, s.calls[c].msg);
      assert ValidGroup(s.store.groups[key], s.store.maxMembers);
    }
  }

  /** A member taken in is a delivery not accepted before. */
  lemma GrownIsNew(s: State, c: nat, ev: Event, key: string)
    requires RepliesInv(s.calls, s.ledger) && Enabled(s, c, ev) && MoveOf(s, c, ev, key).Grown?
    ensures MoveOf(s, c, ev, key).m.delivery !in s.ledger.accepted
  {
    assert ReplyInv(c, s.calls[c], s.ledger);
  }

  lemma AcceptedGrows(s: State, c: nat, ev: Event)
    requires Enabled(s, c, ev)
    ensures s.ledger.accepted <= Step(s, c, ev).ledger.accepted
  {
  }

  lemma {:induction false} SinceAlways(states: seq<State>, steps: seq<(nat, Event)>, sp: Split, key: string, a: nat,
                                       n: nat, judged: seq<Message>)
    requires DefaultRun(states, steps, sp, key) && a < n < |states| && HoldsEachChildOnce(sp, judged)
    requires Since(At(states[a + 1].store, key), judged, states[a + 1].ledger.accepted, false)
    ensures Since(At(states[n].store, key), judged, states[a + 1].ledger.accepted,
      SettledBetween(states, steps, key, a, n))
    ensures states[a + 1].ledger.accepted <= states[n].ledger.accepted
    decreases n
  {
    if n == a + 1 {
      assert !SettledBetween(states, steps, key, a, n);
    } else {
      SinceAlways(states, steps, sp, key, a, n - 1, judged);
      SinceOnce(states, steps, sp, key, a, n, judged);
    }
  }

  lemma SinceOnce(states: seq<State>, steps: seq<(nat, Event)>, sp: Split, key: string, a: nat, n: nat,
                  judged: seq<Message>)
    requires DefaultRun(states, steps, sp, key) && a + 1 < n < |states| && HoldsEachChildOnce(sp, judged)
    requires Since(At(states[n - 1].store, key), judged, states[a + 1].ledger.accepted,
      SettledBetween(states, steps, key, a, n - 1))
    requires states[a + 1].ledger.accepted <= states[n - 1].ledger.accepted
    ensures Since(At(states[n].store, key), judged, states[a + 1].ledger.accepted,
      SettledBetween(states, steps, key, a, n))
    ensures states[a + 1].ledger.accepted <= states[n].ledger.accepted
  {
    var s, c, ev := states[n - 1], steps[n - 1].0, steps[n - 1].1;
    var already := SettledBetween(states, steps, key, a, n - 1);
    assert DefaultStep(s, c, ev, sp, key);
    StepFacts(states, steps, n - 1, key);
    AcceptedGrows(s, c, ev);
    if !already {
      WholeIsClosed(s, c, ev, sp, key, judged);
    }
    SinceStep(At(s.store, key), At(states[n].store, key), MoveOf(s, c, ev, key), judged,
      states[a + 1].ledger.accepted, already);
    assert SettledBetween(states, steps, key, a, n) <==> already || SettlesKey(s, c, ev, key);
  }

  /** What the invariant of the machine says about one step and one group. */
  lemma StepFacts(states: seq<State>, steps: seq<(nat, Event)>, n: nat, key: string)
    requires Run(states, steps) && n < |steps|
    ensures
      var s, c, ev := states[n], steps[n].0, steps[n].1;
      && Enabled(s, c, ev) && ValidStore(s.store)
      && Moved(At(s.store, key), At(states[n + 1].store, key), MoveOf(s, c, ev, key))
      && (MoveOf(s, c, ev, key).Settled? <==> SettlesKey(s, c, ev, key))
      && (MoveOf(s, c, ev, key).Grown? ==> MoveOf(s, c, ev, key).m.delivery !in s.ledger.accepted)
  {
    var s, c, ev := states[n], steps[n].0, steps[n].1;
    InvAlways(states, steps, n);
    KeyStep(s, c, ev, key);
    if MoveOf(s, c, ev, key).Grown? {
      GrownIsNew(s, c, ev, key);
    }
  }

  // ---- Theorems --------------------------------------------------------------------------------------

  /** The call c judged the group at step a and claims it at step u. */
  ghost predicate JudgedThenClaims(states: seq<State>, steps: seq<(nat, Event)>, key: string, c: nat, a: nat, u: nat)
    requires |states| == |steps| + 1
  {
    && a < u < |steps| && steps[a].0 == c && steps[a].1.AddMember? && steps[a].1.key == key && steps[u] == (c, TryClaim)
    && c in states[a + 1].calls && states[a + 1].calls[c].Ready?
    && ClaimGroup(states[u].store, key).1.Some?
  }

  /** The group a call found complete, which is then whole and not leased. */
  lemma JudgedIsWhole(states: seq<State>, steps: seq<(nat, Event)>, sp: Split, key: string, c: nat, a: nat)
    requires DefaultRun(states, steps, sp, key) && a < |steps| && steps[a].0 == c && steps[a].1.AddMember?
    requires steps[a].1.key == key
    requires c in states[a + 1].calls && states[a + 1].calls[c].Ready?
    ensures var judged := MembersOf(At(states[a + 1].store, key));
      HoldsEachChildOnce(sp, judged)
        && Since(At(states[a + 1].store, key), judged, states[a + 1].ledger.accepted, false)
  {
    OnlyChildren(states, steps, sp, key, a + 1);
    LeasesAlways(states, steps, a);
    LeasesAlways(states, steps, a + 1);
    var s, m := states[a], states[a].calls[c].msg;
    assert DefaultStep(s, c, steps[a].1, sp, key);
    var store' := Add(s.store, key, m, steps[a].1.now).0;
    assert states[a + 1].store == store';
    ReadyIsComplete(s.store, key, m, steps[a].1.now, steps[a].1.verdict);
    assert ValidGroup(store'.groups[key], store'.maxMembers);
    LiveIsWhole(sp, key, store'.groups[key]);
  }

  /** Handle goes on to claim only on a snapshot the default strategy released. */
  lemma ReadyIsComplete(store: Store, key: string, m: Message, now: int, verdict: Verdict)
    requires ValidStore(store) && AfterAdd(key, Add(store, key, m, now).1, verdict).Ready?
    requires var live := Add(store, key, m, now).1.live;
      verdict == if live.Some? then DefaultRelease(live.value) else Incomplete
    ensures key in Add(store, key, m, now).0.groups
    ensures DefaultRelease(Live(Add(store, key, m, now).0.groups[key])) == Complete
  {
  }

  lemma LiveIsWhole(sp: Split, key: string, g: Group)
    requires Identified(sp, key) && AllChildren(sp, g.msgs) && DistinctIds(g.msgs) && g.claimedLen <= |g.msgs|
    requires (g.leased <==> g.claimedLen > 0) && DefaultRelease(Live(g)) == Complete
    ensures HoldsEachChildOnce(sp, g.msgs) && !g.leased
  {
    var live := Live(g);
    forall q | 0 <= q < |live| ensures SomeChild(sp, live[q]) {
      assert live[q] == g.msgs[g.claimedLen + q];
    }
    WholeIff(sp, key, g.msgs);
    ReleasedIff(sp, key, live);
  }

  /** The aggregate of Handle's main path, over every interleaving. It is the very group the
      call judged, and so whole, if and only if no settlement of the key fell between the
      judgement and the claim. Otherwise every member of it was accepted after the judgement. */
  lemma MainAggregateIff(states: seq<State>, steps: seq<(nat, Event)>, sp: Split, key: string, c: nat, a: nat, u: nat)
    requires DefaultRun(states, steps, sp, key) && JudgedThenClaims(states, steps, key, c, a, u)
    ensures
      var judged, claimed := MembersOf(At(states[a + 1].store, key)), ClaimGroup(states[u].store, key).1.value.msgs;
      && (claimed == judged <==> !SettledBetween(states, steps, key, a, u))
      && (!SettledBetween(states, steps, key, a, u) ==> HoldsEachChildOnce(sp, claimed))
      && (SettledBetween(states, steps, key, a, u) ==>
            forall q :: 0 <= q < |claimed| ==> claimed[q].delivery !in states[a + 1].ledger.accepted)
  {
    var judged, claimed := MembersOf(At(states[a + 1].store, key)), ClaimGroup(states[u].store, key).1.value.msgs;
    JudgedIsWhole(states, steps, sp, key, c, a);
    SinceAlways(states, steps, sp, key, a, u, judged);
    ClaimIsGroup(states, steps, u, key);
    MembersWereAccepted(states, steps, a + 1, key);
    if SettledBetween(states, steps, key, a, u) {
      assert claimed[0].delivery !in states[a + 1].ledger.accepted;
    }
  }

  lemma ClaimIsGroup(states: seq<State>, steps: seq<(nat, Event)>, u: nat, key: string)
    requires Run(states, steps) && u < |states| && ClaimGroup(states[u].store, key).1.Some?
    ensures
      var claimed := ClaimGroup(states[u].store, key).1.value.msgs;
      At(states[u].store, key).Some? && claimed == MembersOf(At(states[u].store, key)) && claimed != []
  {
    LeasesAlways(states, steps, u);
    assert ValidGroup(states[u].store.groups[key], states[u].store.maxMembers);
  }

  lemma MembersWereAccepted(states: seq<State>, steps: seq<(nat, Event)>, n: nat, key: string)
    requires Run(states, steps) && n < |states|
    ensures MembersAccepted(MembersOf(At(states[n].store, key)), states[n].ledger)
  {
    InvAlways(states, steps, n);
  }

  // ---- After a settlement in between ------------------------------------------------------------------

  /** Every group's members correlate to its key. */
  ghost predicate Correlated(g: Option<Group>, k: string) {
    forall q :: 0 <= q < |MembersOf(g)| ==> DefaultCorrelate(MembersOf(g)[q]) == Some(k)
  }

  lemma CorrelatedStep(g: Option<Group>, g': Option<Group>, move: Move, k: string)
    requires Correlated(g, k) && Moved(g, g', move) && (move.Grown? ==> DefaultCorrelate(move.m) == Some(k))
    ensures Correlated(g', k)
  {
    forall q | 0 <= q < |MembersOf(g')| ensures DefaultCorrelate(MembersOf(g')[q]) == Some(k) {
      if move.Settled? {
        assert MembersOf(g')[q] == MembersOf(g)[g.value.claimedLen + q];
      } else if q < |MembersOf(g)| {
        assert MembersOf(g')[q] == MembersOf(g)[q];
      }
    }
  }

  lemma {:induction false} CorrelatedAlways(states: seq<State>, steps: seq<(nat, Event)>, sp: Split, key: string,
                                            n: nat, k: string)
    requires DefaultRun(states, steps, sp, key) && n < |states|
    ensures Correlated(At(states[n].store, k), k)
  {
    if n > 0 {
      CorrelatedAlways(states, steps, sp, key, n - 1, k);
      var s, c, ev := states[n - 1], steps[n - 1].0, steps[n - 1].1;
      assert DefaultStep(s, c, ev, sp, key);
      StepFacts(states, steps, n - 1, k);
      CorrelatedStep(At(s.store, k), At(states[n].store, k), MoveOf(s, c, ev, k), k);
    }
  }

  /** Delivery d is child i, accepted and not settled. */
  ghost predicate Waiting(l: Ledger, sp: Split, i: nat, d: nat)
    requires i < |sp.children|
  {
    d in l.accepted && d in l.handles && IsChild(sp, l.handles[d], i) && d !in l.settledOut && d !in l.settledExpired
  }

  ghost predicate ChildWaits(l: Ledger, sp: Split, i: nat)
    requires i < |sp.children|
  {
    exists d :: Waiting(l, sp, i, d)
  }

  /** Every child of the split has a delivery that was accepted and not settled. */
  ghost predicate AllWait(l: Ledger, sp: Split) {
    forall i :: 0 <= i < |sp.children| ==> ChildWaits(l, sp, i)
  }

  lemma HeldIffWaiting(states: seq<State>, steps: seq<(nat, Event)>, sp: Split, key: string, n: nat, i: nat)
    requires DefaultRun(states, steps, sp, key) && n < |states| && i < |sp.children|
    ensures HoldsChild(sp, MembersOf(At(states[n].store, key)), i) <==> ChildWaits(states[n].ledger, sp, i)
  {
    var s, msgs := states[n], MembersOf(At(states[n].store, key));
    MembersAlways(states, steps, n);
    if HoldsChild(sp, msgs, i) {
      var q :| 0 <= q < |msgs| && IsChild(sp, msgs[q], i);
      assert MembersAccepted(s.store.groups[key].msgs, s.ledger);
      assert InStore(s.store, msgs[q].delivery);
      assert Waiting(s.ledger, sp, i, msgs[q].delivery);
    }
    if ChildWaits(s.ledger, sp, i) {
      var d :| Waiting(s.ledger, sp, i, d);
      assert InStore(s.store, d);
      var k :| k in s.store.groups && d in Deliveries(s.store.groups[k].msgs);
      var q :| 0 <= q < |s.store.groups[k].msgs| && s.store.groups[k].msgs[q].delivery == d;
      var m := s.store.groups[k].msgs[q];
      assert MembersAccepted(s.store.groups[k].msgs, s.ledger);
      CorrelatedAlways(states, steps, sp, key, n, k);
      assert MembersOf(At(s.store, k))[q] == m;
      ChildIs(sp, key, m, i);
    }
  }

  lemma MembersAlways(states: seq<State>, steps: seq<(nat, Event)>, n: nat)
    requires Run(states, steps) && n < |states|
    ensures MembersInv(states[n].store, states[n].ledger)
  {
    InvAlways(states, steps, n);
  }

  /** What a claim takes is whole exactly when every child has a delivery that was accepted and
      not settled; after a settlement in between, each of these was accepted since. */
  lemma ClaimIsWholeIff(states: seq<State>, steps: seq<(nat, Event)>, sp: Split, key: string, u: nat)
    requires DefaultRun(states, steps, sp, key) && u < |states| && ClaimGroup(states[u].store, key).1.Some?
    ensures
      var claimed := ClaimGroup(states[u].store, key).1.value.msgs;
      && (HoldsEachChildOnce(sp, claimed) <==> |claimed| == |sp.children|)
      && (HoldsEachChildOnce(sp, claimed) <==> AllWait(states[u].ledger, sp))
  {
    var claimed := ClaimGroup(states[u].store, key).1.value.msgs;
    ClaimIsGroup(states, steps, u, key);
    OnlyChildren(states, steps, sp, key, u);
    LeasesAlways(states, steps, u);
    assert ValidGroup(states[u].store.groups[key], states[u].store.maxMembers);
    WholeIff(sp, key, claimed);
    forall i | 0 <= i < |sp.children|
      ensures HoldsChild(sp, claimed, i) <==> ChildWaits(states[u].ledger, sp, i)
    {
      HeldIffWaiting(states, steps, sp, key, u, i);
    }
  }

  // ---- The drain loop and the reaper ------------------------------------------------------------------

  /** A release other than Handle's own was judged on the claim it releases. */
  ghost predicate JudgedOk(pc: Pc) {
    && (pc.Ready? ==> !pc.caller.FromReaper?)
    && (pc.Releasing? && (!pc.main || pc.caller.FromReaper?) ==> DefaultRelease(pc.claim.msgs) == Complete)
  }

  lemma JudgedStep(s: State, a: nat, ev: Event, sp: Split, key: string, c: nat)
    requires Enabled(s, a, ev) && DefaultStep(s, a, ev, sp, key) && (c in s.calls ==> JudgedOk(s.calls[c]))
    requires c in Step(s, a, ev).calls
    ensures JudgedOk(Step(s, a, ev).calls[c])
  {
  }

  lemma {:induction false} JudgedAlways(states: seq<State>, steps: seq<(nat, Event)>, sp: Split, key: string, n: nat,
                                        c: nat)
    requires DefaultRun(states, steps, sp, key) && n < |states| && c in states[n].calls
    ensures JudgedOk(states[n].calls[c])
  {
    if n > 0 {
      if c in states[n - 1].calls {
        JudgedAlways(states, steps, sp, key, n - 1, c);
      }
      assert DefaultStep(states[n - 1], steps[n - 1].0, steps[n - 1].1, sp, key);
      JudgedStep(states[n - 1], steps[n - 1].0, steps[n - 1].1, sp, key, c);
    }
  }

  /** An aggregate of the drain loop or of the reaper is always whole. */
  lemma JudgedAggregateIsWhole(states: seq<State>, steps: seq<(nat, Event)>, sp: Split, key: string, n: nat, c: nat)
    requires DefaultRun(states, steps, sp, key) && n < |states| && c in states[n].calls && states[n].calls[c].Releasing?
    requires states[n].calls[c].claim.key == key && (!states[n].calls[c].main || states[n].calls[c].caller.FromReaper?)
    ensures HoldsEachChildOnce(sp, states[n].calls[c].claim.msgs)
  {
    var claim := states[n].calls[c].claim;
    JudgedAlways(states, steps, sp, key, n, c);
    OnlyChildren(states, steps, sp, key, n);
    ClaimIsDistinct(states, steps, n, c);
    forall q | 0 <= q < |claim.msgs| ensures SomeChild(sp, claim.msgs[q]) {
      assert claim.msgs[q] == MembersOf(At(states[n].store, key))[q];
    }
    WholeIff(sp, key, claim.msgs);
  }

  lemma ClaimIsDistinct(states: seq<State>, steps: seq<(nat, Event)>, n: nat, c: nat)
    requires Run(states, steps) && n < |states| && c in states[n].calls && Holding(states[n].calls[c])
    ensures
      var claim := states[n].calls[c].claim;
      && DistinctIds(claim.msgs) && claim.key in states[n].store.groups
      && claim.msgs <= states[n].store.groups[claim.key].msgs
  {
    LeasesAlways(states, steps, n);
    var claim := states[n].calls[c].claim;
    assert ClaimInForce(states[n].store, claim);
    assert ValidGroup(states[n].store.groups[claim.key], states[n].store.maxMembers);
  }

  // ---- Every aggregate, with its origin -----------------------------------------------------------------

  lemma {:induction false} FindAdd(states: seq<State>, steps: seq<(nat, Event)>, n: nat, c: nat) returns (a: nat)
    requires Run(states, steps) && n < |states| && c in states[n].calls && states[n].calls[c].Ready?
    ensures a < n && steps[a].0 == c && steps[a].1.AddMember? && steps[a].1.key == states[n].calls[c].key
    ensures c in states[a + 1].calls && states[a + 1].calls[c] == states[n].calls[c]
  {
    var s, b, ev := states[n - 1], steps[n - 1].0, steps[n - 1].1;
    ReadyFrom(s, b, ev, c);
    if c in s.calls && s.calls[c].Ready? {
      a := FindAdd(states, steps, n - 1, c);
    } else {
      a := n - 1;
    }
  }

  lemma ReadyFrom(s: State, b: nat, ev: Event, c: nat)
    requires Enabled(s, b, ev) && c in Step(s, b, ev).calls && Step(s, b, ev).calls[c].Ready?
    ensures c in s.calls
    ensures (s.calls[c] == Step(s, b, ev).calls[c]
      || (b == c && ev.AddMember? && ev.key == Step(s, b, ev).calls[c].key && !s.calls[c].Ready?))
  {
  }

  lemma {:induction false} FindClaim(states: seq<State>, steps: seq<(nat, Event)>, n: nat, c: nat) returns (u: nat)
    requires Run(states, steps) && n < |states| && c in states[n].calls && states[n].calls[c].Releasing?
    requires states[n].calls[c].main && !states[n].calls[c].caller.FromReaper?
    ensures u < n && steps[u] == (c, TryClaim) && c in states[u].calls && states[u].calls[c].Ready?
    ensures states[u].calls[c].key == states[n].calls[c].claim.key
    ensures ClaimGroup(states[u].store, states[u].calls[c].key).1 == Some(states[n].calls[c].claim)
  {
    var s, b, ev := states[n - 1], steps[n - 1].0, steps[n - 1].1;
    ReleasingFrom(s, b, ev, c);
    if s.calls[c] == states[n].calls[c] {
      u := FindClaim(states, steps, n - 1, c);
    } else {
      u := n - 1;
    }
  }

  lemma ReleasingFrom(s: State, b: nat, ev: Event, c: nat)
    requires Enabled(s, b, ev) && c in Step(s, b, ev).calls && Step(s, b, ev).calls[c].Releasing?
    requires Step(s, b, ev).calls[c].main && !Step(s, b, ev).calls[c].caller.FromReaper?
    ensures
      var pc := Step(s, b, ev).calls[c];
      && c in s.calls
      && (s.calls[c] == pc ||
          (b == c && ev == TryClaim && s.calls[c].Ready? && s.calls[c].key == pc.claim.key
            && ClaimGroup(s.store, s.calls[c].key).1 == Some(pc.claim)))
  {
  }

  /** Every aggregate of the split's key that is sent, over every interleaving: one from the
      drain loop or the reaper is whole; one from Handle's main path comes from a judgement at
      step a and a claim at step u of the same call, and is the judged group, and whole, unless
      a settlement of the key fell between the two. */
  lemma EveryAggregate(states: seq<State>, steps: seq<(nat, Event)>, sp: Split, key: string, n: nat, c: nat)
    returns (a: nat, u: nat)
    requires DefaultRun(states, steps, sp, key) && n < |steps| && steps[n] == (c, Aggregate(SentOk))
    requires states[n].calls[c].claim.key == key
    ensures states[n + 1].ledger.outputs == states[n].ledger.outputs + [states[n].calls[c].claim.msgs]
    ensures
      var pc := states[n].calls[c];
      if !pc.main || pc.caller.FromReaper? then HoldsEachChildOnce(sp, pc.claim.msgs)
      else
        && u < n && JudgedThenClaims(states, steps, key, c, a, u)
        && (pc.claim.msgs == MembersOf(At(states[a + 1].store, key)) <==> !SettledBetween(states, steps, key, a, u))
        && (!SettledBetween(states, steps, key, a, u) ==> HoldsEachChildOnce(sp, pc.claim.msgs))
        && (HoldsEachChildOnce(sp, pc.claim.msgs) <==> AllWait(states[u].ledger, sp))
  {
    assert Enabled(states[n], c, Aggregate(SentOk));
    var pc := states[n].calls[c];
    a, u := 0, 0;
    if !pc.main || pc.caller.FromReaper? {
      JudgedAggregateIsWhole(states, steps, sp, key, n, c);
    } else {
      u := FindClaim(states, steps, n, c);
      a := FindAdd(states, steps, u, c);
      MainAggregateIff(states, steps, sp, key, c, a, u);
      ClaimIsWholeIff(states, steps, sp, key, u);
    }
  }

  // ---- A run that sends an aggregate that is not whole --------------------------------------------------

  lemma Go(states: seq<State>, steps: seq<(nat, Event)>, sp: Split, key: string, c: nat, ev: Event)
    returns (states': seq<State>, steps': seq<(nat, Event)>)
    requires DefaultRun(states, steps, sp, key) && Enabled(Last(states), c, ev)
    requires DefaultStep(Last(states), c, ev, sp, key)
    ensures DefaultRun(states', steps', sp, key) && steps' == steps + [(c, ev)]
    ensures Last(states') == Step(Last(states), c, ev)
  {
    states', steps' := Taken(states, steps, c, ev);
    forall i | 0 <= i < |steps'| ensures DefaultStep(states'[i], steps'[i].0, steps'[i].1, sp, key) {
      assert i < |steps| ==> states'[i] == states[i] && steps'[i] == steps[i];
      assert i == |steps| ==> states'[i] == Last(states);
    }
  }

  /** A child is handed to a new Handle call, up to the verdict on what Add returned. */
  lemma Arrives(states: seq<State>, steps: seq<(nat, Event)>, sp: Split, key: string, c: nat, m: Message, i: nat,
                verdict: Verdict)
    returns (states': seq<State>, steps': seq<(nat, Event)>)
    requires DefaultRun(states, steps, sp, key) && c !in Last(states).calls && m.delivery == c
    requires i < |sp.children| && IsChild(sp, m, i)
    requires var live := Add(Last(states).store, key, m, 0).1.live; live.Some? && verdict == DefaultRelease(live.value)
    ensures DefaultRun(states', steps', sp, key) && steps' == steps + Delivered(c, m, key, verdict)
    ensures
      var s, t := Last(states), Last(states');
      && t.store == Add(s.store, key, m, 0).0 && t.ledger.outputs == s.ledger.outputs
      && t.calls == s.calls[c := AfterAdd(key, Add(s.store, key, m, 0).1, verdict)]
  {
    var s := Last(states);
    states', steps' := Go(states, steps, sp, key, c, Call(m));
    ArrivesDefault(s, sp, key, c, m, i, verdict);
    states', steps' := Go(states', steps', sp, key, c, AddMember(key, verdict, 0));
    AddEffect(s, c, m, key, verdict);
  }

  lemma ArrivesDefault(s: State, sp: Split, key: string, c: nat, m: Message, i: nat, verdict: Verdict)
    requires Identified(sp, key) && i < |sp.children| && IsChild(sp, m, i)
    requires var live := Add(s.store, key, m, 0).1.live; live.Some? && verdict == DefaultRelease(live.value)
    ensures DefaultStep(StepCall(s, c, m), c, AddMember(key, verdict, 0), sp, key)
  {
    ChildIs(sp, key, m, i);
    assert SomeChild(sp, m);
  }

  lemma AddEffect(s: State, c: nat, m: Message, key: string, verdict: Verdict)
    ensures
      var t := StepAdd(StepCall(s, c, m), c, key, verdict, 0);
      && t.store == Add(s.store, key, m, 0).0 && t.ledger.outputs == s.ledger.outputs
      && t.calls == s.calls[c := AfterAdd(key, Add(s.store, key, m, 0).1, verdict)]
  {
  }

  /** A call that is ready claims the whole group and sends it. */
  lemma Sends(states: seq<State>, steps: seq<(nat, Event)>, sp: Split, key: string, c: nat)
    returns (states': seq<State>, steps': seq<(nat, Event)>)
    requires DefaultRun(states, steps, sp, key) && c in Last(states).calls
    requires Last(states).calls[c] == Ready(key, FromHandle)
    requires key in Last(states).store.groups && !Last(states).store.groups[key].leased
    ensures DefaultRun(states', steps', sp, key) && steps' == steps + Releases(c)
    ensures
      var s, t := Last(states), Last(states');
      && t.ledger.outputs == s.ledger.outputs + [s.store.groups[key].msgs]
      && t.store == ClaimGroup(s.store, key).0
      && t.calls == s.calls[c := Sent(ClaimGroup(s.store, key).1.value, FromHandle, true)]
  {
    states', steps' := Go(states, steps, sp, key, c, TryClaim);
    assert Last(states').calls[c] == Releasing(ClaimGroup(Last(states).store, key).1.value, FromHandle, true);
    states', steps' := Go(states', steps', sp, key, c, Aggregate(SentOk));
  }

  /** And settles it. */
  lemma Settles(states: seq<State>, steps: seq<(nat, Event)>, sp: Split, key: string, c: nat, store: Store)
    returns (states': seq<State>, steps': seq<(nat, Event)>)
    requires DefaultRun(states, steps, sp, key) && key in store.groups && !store.groups[key].leased
    requires c in Last(states).calls && Last(states).calls[c] == Sent(ClaimGroup(store, key).1.value, FromHandle, true)
    requires Last(states).store == ClaimGroup(store, key).0
    ensures DefaultRun(states', steps', sp, key) && steps' == steps + [(c, Settle(0))]
    ensures
      var s, t := Last(states), Last(states');
      && t.ledger.outputs == s.ledger.outputs && t.store == store.(groups := store.groups - {key})
      && t.calls == s.calls[c := Draining(key, FromHandle)]
  {
    states', steps' := Go(states, steps, sp, key, c, Settle(0));
    var g := store.groups[key];
    assert g.msgs[|g.msgs|..] == [];
    PutThenRemove(store.groups, key, ClaimGroup(store, key).0.groups[key]);
  }

  function Delivered(c: nat, m: Message, key: string, verdict: Verdict): seq<(nat, Event)> {
    [(c, Call(m)), (c, AddMember(key, verdict, 0))]
  }

  function Releases(c: nat): seq<(nat, Event)> {
    [(c, TryClaim), (c, Aggregate(SentOk))]
  }

  /** The steps of the race: calls 0 and 1 bring the two children; call 1 has judged the group
      whole and not claimed it yet. Call 2, a redelivery, does so and settles it. Call 3, another
      one, starts the group anew, and then call 1 claims and sends that. */
  function RaceSteps(key: string, a0: Message, b1: Message, a2: Message, a3: Message): seq<(nat, Event)> {
    Delivered(0, a0, key, Incomplete) + Delivered(1, b1, key, Complete) + Delivered(2, a2, key, Complete)
    + Releases(2) + [(2, Settle(0))] + Delivered(3, a3, key, Incomplete) + Releases(1)
  }

  /** Add of a further and of a repeated member of an unleased group. */
  lemma AddSecond(store: Store, key: string, a: Message, b: Message)
    requires key in store.groups && store.groups[key] == Group([a], {a.ID()}, 0, 0, false, 0)
    requires store.maxMembers >= 2 && b.ID() != "" && a.ID() != b.ID()
    ensures
      var (store', reply) := Add(store, key, b, 0);
      && store'.groups == store.groups[key := Group([a, b], {a.ID(), b.ID()}, 0, 0, false, 0)]
      && store'.maxGroups == store.maxGroups && store'.maxMembers == store.maxMembers
      && reply == AddReply(Some([a, b]), None)
  {
    var g := Append(store.groups[key], b);
    assert g == Group([a, b], {a.ID(), b.ID()}, 0, 0, false, 0) && Live(g) == [a, b];
  }

  lemma AddRepeat(store: Store, key: string, m: Message)
    requires key in store.groups && !store.groups[key].leased && store.groups[key].claimedLen == 0
    requires m.ID() != "" && m.ID() in store.groups[key].ids
    ensures Add(store, key, m, 0) == (store, AddReply(Some(store.groups[key].msgs), None))
  {
  }

  lemma TwoChildren(sp: Split, key: string, a: Message, b: Message)
    requires Identified(sp, key) && |sp.children| == 2 && IsChild(sp, a, 0) && IsChild(sp, b, 1)
    ensures a.ID() != "" && b.ID() != "" && a.ID() != b.ID()
    ensures DefaultRelease([a]) == Incomplete && DefaultRelease([a, b]) == Complete
  {
    ChildIs(sp, key, a, 0);
    ChildIs(sp, key, b, 1);
    StampedIdsDiffer(sp.children[0], sp.children[1], sp.parent, 1, 2, 2);
    assert SomeChild(sp, a) && SomeChild(sp, b);
    ReleasedIff(sp, key, [a]);
    ReleasedIff(sp, key, [a, b]);
  }

  /** The store holds just this group, or nothing; the calls and the aggregates sent so far. */
  ghost predicate Looks(s: State, key: string, g: Option<Group>, calls: map<nat, Pc>, outputs: seq<seq<Message>>) {
    && s.store == Store(if g.Some? then map[key := g.value] else map[], 2, 2)
    && s.calls == calls && s.ledger.outputs == outputs
  }

  lemma FirstArrives(states: seq<State>, steps: seq<(nat, Event)>, sp: Split, key: string, c: nat, m: Message,
                     calls: map<nat, Pc>, outputs: seq<seq<Message>>)
    returns (states': seq<State>, steps': seq<(nat, Event)>)
    requires DefaultRun(states, steps, sp, key) && Looks(Last(states), key, None, calls, outputs)
    requires c !in calls && m.delivery == c && |sp.children| == 2 && IsChild(sp, m, 0)
    ensures DefaultRun(states', steps', sp, key) && steps' == steps + Delivered(c, m, key, Incomplete)
    ensures Looks(Last(states'), key, Some(Group([m], {m.ID()}, 0, 0, false, 0)), calls[c := Returned(Nil)], outputs)
  {
    ChildIs(sp, key, m, 0);
    assert SomeChild(sp, m);
    ReleasedIff(sp, key, [m]);
    FirstAdd(Last(states).store, key, m);
    states', steps' := Arrives(states, steps, sp, key, c, m, 0, Incomplete);
  }

  lemma SecondArrives(states: seq<State>, steps: seq<(nat, Event)>, sp: Split, key: string, a: Message, b: Message,
                      calls: map<nat, Pc>)
    returns (states': seq<State>, steps': seq<(nat, Event)>)
    requires DefaultRun(states, steps, sp, key)
    requires Looks(Last(states), key, Some(Group([a], {a.ID()}, 0, 0, false, 0)), calls, [])
    requires 1 !in calls && b.delivery == 1 && |sp.children| == 2 && IsChild(sp, a, 0) && IsChild(sp, b, 1)
    ensures DefaultRun(states', steps', sp, key) && steps' == steps + Delivered(1, b, key, Complete)
    ensures Looks(Last(states'), key, Some(Group([a, b], {a.ID(), b.ID()}, 0, 0, false, 0)),
      calls[1 := Ready(key, FromHandle)], [])
  {
    TwoChildren(sp, key, a, b);
    AddSecond(Last(states).store, key, a, b);
    states', steps' := Arrives(states, steps, sp, key, 1, b, 1, Complete);
  }

  lemma RepeatArrives(states: seq<State>, steps: seq<(nat, Event)>, sp: Split, key: string, a: Message, b: Message,
                      m: Message, calls: map<nat, Pc>)
    returns (states': seq<State>, steps': seq<(nat, Event)>)
    requires DefaultRun(states, steps, sp, key)
    requires Looks(Last(states), key, Some(Group([a, b], {a.ID(), b.ID()}, 0, 0, false, 0)), calls, [])
    requires 2 !in calls && m.delivery == 2 && |sp.children| == 2 && IsChild(sp, a, 0) && IsChild(sp, b, 1)
    requires IsChild(sp, m, 0)
    ensures DefaultRun(states', steps', sp, key) && steps' == steps + Delivered(2, m, key, Complete)
    ensures Looks(Last(states'), key, Some(Group([a, b], {a.ID(), b.ID()}, 0, 0, false, 0)),
      calls[2 := Ready(key, FromHandle)], [])
  {
    TwoChildren(sp, key, a, b);
    ChildIs(sp, key, m, 0);
    ChildIs(sp, key, a, 0);
    AddRepeat(Last(states).store, key, m);
    states', steps' := Arrives(states, steps, sp, key, 2, m, 0, Complete);
  }

  lemma SendsAndSettles(states: seq<State>, steps: seq<(nat, Event)>, sp: Split, key: string, c: nat, g: Group,
                        calls: map<nat, Pc>)
    returns (states': seq<State>, steps': seq<(nat, Event)>)
    requires DefaultRun(states, steps, sp, key) && Looks(Last(states), key, Some(g), calls, []) && !g.leased
    requires c in calls && calls[c] == Ready(key, FromHandle)
    ensures DefaultRun(states', steps', sp, key) && steps' == steps + Releases(c) + [(c, Settle(0))]
    ensures Looks(Last(states'), key, None, calls[c := Draining(key, FromHandle)], [g.msgs])
  {
    var store := Last(states).store;
    states', steps' := Sends(states, steps, sp, key, c);
    states', steps' := Settles(states', steps', sp, key, c, store);
    assert store.groups - {key} == map[];
    assert [] + [g.msgs] == [g.msgs];
  }

  lemma RaceStart(sp: Split, key: string, a0: Message, b1: Message, a2: Message)
    returns (states: seq<State>, steps: seq<(nat, Event)>)
    requires Identified(sp, key) && |sp.children| == 2 && a0.delivery == 0 && b1.delivery == 1 && a2.delivery == 2
    requires IsChild(sp, a0, 0) && IsChild(sp, b1, 1) && IsChild(sp, a2, 0)
    ensures DefaultRun(states, steps, sp, key)
    ensures steps == Delivered(0, a0, key, Incomplete) + Delivered(1, b1, key, Complete)
      + Delivered(2, a2, key, Complete)
    ensures Looks(Last(states), key, Some(Group([a0, b1], {a0.ID(), b1.ID()}, 0, 0, false, 0)),
                  map[0 := Returned(Nil), 1 := Ready(key, FromHandle), 2 := Ready(key, FromHandle)], [])
  {
    states, steps := [State(Store(map[], 2, 2), map[], Ledger(map[], {}, map[], [], [], {}, {}, {}, {}))], [];
    states, steps := FirstArrives(states, steps, sp, key, 0, a0, map[], []);
    states, steps := SecondArrives(states, steps, sp, key, a0, b1, map[0 := Returned(Nil)]);
    states, steps := RepeatArrives(states, steps, sp, key, a0, b1, a2,
      map[0 := Returned(Nil), 1 := Ready(key, FromHandle)]);
  }

  lemma RaceEnd(states: seq<State>, steps: seq<(nat, Event)>, sp: Split, key: string, m: Message, calls: map<nat, Pc>,
                outputs: seq<seq<Message>>)
    returns (states': seq<State>, steps': seq<(nat, Event)>)
    requires DefaultRun(states, steps, sp, key) && Looks(Last(states), key, None, calls, outputs)
    requires 3 !in calls && 1 in calls && calls[1] == Ready(key, FromHandle) && m.delivery == 3 && |sp.children| == 2
    requires IsChild(sp, m, 0)
    ensures DefaultRun(states', steps', sp, key)
    ensures steps' == steps + Delivered(3, m, key, Incomplete) + Releases(1)
    ensures Last(states').ledger.outputs == outputs + [[m]]
  {
    states', steps' := FirstArrives(states, steps, sp, key, 3, m, calls, outputs);
    states', steps' := Sends(states', steps', sp, key, 1);
  }

  /** For every split of two children: a run of the default Aggregator, with room to spare, whose
      second aggregate holds one child only. */
  lemma RaceSendsPart(sp: Split, key: string, a0: Message, b1: Message, a2: Message, a3: Message)
    returns (states: seq<State>, steps: seq<(nat, Event)>)
    requires Identified(sp, key) && |sp.children| == 2
    requires a0.delivery == 0 && b1.delivery == 1 && a2.delivery == 2 && a3.delivery == 3
    requires IsChild(sp, a0, 0) && IsChild(sp, b1, 1) && IsChild(sp, a2, 0) && IsChild(sp, a3, 0)
    ensures DefaultRun(states, steps, sp, key) && steps == RaceSteps(key, a0, b1, a2, a3)
    ensures Last(states).ledger.outputs == [[a0, b1], [a3]]
    ensures HoldsEachChildOnce(sp, [a0, b1]) && !HoldsEachChildOnce(sp, [a3]) && DefaultRelease([a3]) == Incomplete
  {
    states, steps := RaceStart(sp, key, a0, b1, a2);
    var calls := map[0 := Returned(Nil), 1 := Ready(key, FromHandle), 2 := Ready(key, FromHandle)];
    states, steps := SendsAndSettles(states, steps, sp, key, 2, Group([a0, b1], {a0.ID(), b1.ID()}, 0, 0, false, 0),
      calls);
    states, steps := RaceEnd(states, steps, sp, key, a3, calls[2 := Draining(key, FromHandle)], [[a0, b1]]);
    assert [[a0, b1]] + [[a3]] == [[a0, b1], [a3]];
    OneIsNotTwo(sp, key, a0, b1, a3);
  }

  lemma OneIsNotTwo(sp: Split, key: string, a: Message, b: Message, m: Message)
    requires Identified(sp, key) && |sp.children| == 2 && IsChild(sp, a, 0) && IsChild(sp, b, 1) && IsChild(sp, m, 0)
    ensures HoldsEachChildOnce(sp, [a, b]) && !HoldsEachChildOnce(sp, [m]) && DefaultRelease([m]) == Incomplete
  {
    TwoChildren(sp, key, a, b);
    TwoChildren(sp, key, m, b);
    assert SomeChild(sp, a) && SomeChild(sp, b);
    WholeIff(sp, key, [a, b]);
  }
}
