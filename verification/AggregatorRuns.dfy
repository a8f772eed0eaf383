/** Runs of the Aggregator machine: how they are extended, which of them strand a lease, and a
    run that does. */
module AggregatorRuns {
  import opened Reliability
  import opened Messages
  import opened GroupStoreSpec
  import opened Aggregator
  import opened AggregatorLeases
  import opened AggregatorTheorems

  function Last(states: seq<State>): State
    requires states != []
  {
    states[|states| - 1]
  }

  lemma Extend(states: seq<State>, steps: seq<(nat, Event)>, c: nat, ev: Event)
    requires Run(states, steps) && Enabled(Last(states), c, ev)
    ensures Run(states + [Step(Last(states), c, ev)], steps + [(c, ev)])
  {
    var more, taken := states + [Step(Last(states), c, ev)], steps + [(c, ev)];
    forall i | 0 <= i < |taken|
      ensures Enabled(more[i], taken[i].0, taken[i].1) && more[i + 1] == Step(more[i], taken[i].0, taken[i].1) {
      assert i < |steps| ==> more[i] == states[i] && more[i + 1] == states[i + 1] && taken[i] == steps[i];
      assert i == |steps| ==> more[i] == Last(states);
    }
  }

  // ---- Stranded leases ---------------------------------------------------------------------

  /** The steps no deferred abandon covers: the release strategy panics about a claim, or the
      expired channel panics about a member. */
  predicate Uncovered(ev: Event) {
    ev == Judge(StrategyPanics) || ev == SendExpired(SendPanics)
  }

  predicate UncoveredAt(steps: seq<(nat, Event)>, c: nat, i: nat) {
    i < |steps| && steps[i].0 == c && Uncovered(steps[i].1)
  }

  lemma CrashedByStep(s: State, a: nat, ev: Event, c: nat)
    requires Enabled(s, a, ev) && !(c in s.calls && s.calls[c].Crashed?)
    ensures (c in Step(s, a, ev).calls && Step(s, a, ev).calls[c].Crashed?) <==> a == c && Uncovered(ev)
  {
  }

  /** A call has crashed exactly when it took such a step. */
  lemma {:induction false} CrashedIff(states: seq<State>, steps: seq<(nat, Event)>, n: nat, c: nat)
    requires Run(states, steps) && n < |states|
    ensures (c in states[n].calls && states[n].calls[c].Crashed?) <==>
      exists i :: 0 <= i < n && UncoveredAt(steps, c, i)
  {
    if n > 0 {
      CrashedIff(states, steps, n - 1, c);
      var s, a, ev := states[n - 1], steps[n - 1].0, steps[n - 1].1;
      if c in s.calls && s.calls[c].Crashed? {
        CrashedStays(s, a, ev, c);
      } else {
        CrashedByStep(s, a, ev, c);
        assert UncoveredAt(steps, c, n - 1) <==> a == c && Uncovered(ev);
      }
    }
  }

  /** Once every call is over, a group is left leased exactly when some call took an uncovered
      step while it held that group's claim. */
  lemma StrandedIff(states: seq<State>, steps: seq<(nat, Event)>, n: nat, k: string)
    requires Run(states, steps) && n < |states|
    requires forall c :: c in states[n].calls ==> states[n].calls[c].Returned? || states[n].calls[c].Crashed?
    ensures (k in states[n].store.groups && states[n].store.groups[k].leased) <==>
            exists i :: 0 <= i < n && StrandsAt(states, steps, k, i)
  {
    LeasesAlways(states, steps, n);
    if k in states[n].store.groups && states[n].store.groups[k].leased {
      var c := HolderOf(states[n].store, states[n].calls, k);
      StrandedBy(states, steps, n, k, c);
    }
    if exists i :: 0 <= i < n && StrandsAt(states, steps, k, i) {
      var i :| 0 <= i < n && StrandsAt(states, steps, k, i);
      CrashKeepsClaim(states, steps, i, n);
      CrashedLeases(states[n].store, states[n].calls, steps[i].0);
    }
  }

  lemma LeasesAlways(states: seq<State>, steps: seq<(nat, Event)>, n: nat)
    requires Run(states, steps) && n < |states|
    ensures LeasesInv(states[n].store, states[n].calls)
  {
    InvAlways(states, steps, n);
  }

  lemma StrandedBy(states: seq<State>, steps: seq<(nat, Event)>, n: nat, k: string, c: nat)
    requires Run(states, steps) && n < |states| && c in states[n].calls && states[n].calls[c].Crashed?
    requires HoldsKey(states[n].calls[c], k)
    ensures exists i :: 0 <= i < n && StrandsAt(states, steps, k, i)
  {
    CrashedIff(states, steps, n, c);
    var i :| 0 <= i < n && UncoveredAt(steps, c, i);
    CrashKeepsClaim(states, steps, i, n);
    assert StrandsAt(states, steps, k, i);
  }

  /** Step i is uncovered, and its caller holds the claim of k. */
  ghost predicate StrandsAt(states: seq<State>, steps: seq<(nat, Event)>, k: string, i: nat)
    requires |states| == |steps| + 1
  {
    && i < |steps| && Uncovered(steps[i].1)
    && steps[i].0 in states[i].calls && HoldsKey(states[i].calls[steps[i].0], k)
  }

  lemma {:induction false} CrashKeepsClaim(states: seq<State>, steps: seq<(nat, Event)>, i: nat, n: nat)
    requires Run(states, steps) && i < n < |states| && Uncovered(steps[i].1)
    ensures
      var c := steps[i].0;
      && c in states[i].calls && Holding(states[i].calls[c])
      && c in states[n].calls && states[n].calls[c] == Crashed(states[i].calls[c].claim)
    decreases n
  {
    var c := steps[i].0;
    if n == i + 1 {
      assert Enabled(states[i], c, steps[i].1);
    } else {
      CrashKeepsClaim(states, steps, i, n - 1);
      CrashedStays(states[n - 1], steps[n - 1].0, steps[n - 1].1, c);
    }
  }

  lemma CrashedLeases(store: Store, calls: map<nat, Pc>, c: nat)
    requires LeasesInv(store, calls) && c in calls && calls[c].Crashed?
    ensures calls[c].claim.key in store.groups && store.groups[calls[c].claim.key].leased
  {
    assert ClaimInForce(store, calls[c].claim);
  }

  /** It does happen, in the drain loop of a Handle call: while call 0 releases its group, call 1
      stores a member under the same key, and the release strategy panics about that member, to
      call 1 about the snapshot and then to call 0 about the claim of its drain loop. */
  function DrainPanics(key: string, m: Message, p: Message): seq<(nat, Event)> {
    [(0, Call(m)), (0, AddMember(key, Complete, 0)), (0, TryClaim)]
    + [(1, Call(p)), (1, AddMember(key, StrategyPanics, 0))]
    + [(0, Aggregate(SentOk)), (0, Settle(0)), (0, TryClaim), (0, Judge(StrategyPanics))]
  }

  lemma CrashHappens(m: Message, p: Message, key: string) returns (states: seq<State>, steps: seq<(nat, Event)>)
    requires m.delivery == 0 && p.delivery == 1 && (m.ID() == "" || m.ID() != p.ID())
    ensures Run(states, steps) && steps == DrainPanics(key, m, p)
    ensures
      var s := Last(states);
      && s.calls.Keys == {0, 1} && s.calls[0].Crashed? && s.calls[1] == Returned(Panicked)
      && key in s.store.groups && s.store.groups[key].leased && s.store.groups[key].msgs == [p]
  {
    var s0 := State(Store(map[], 1, 2), map[], Ledger(map[], {}, map[], [], [], {}, {}, {}, {}));
    states, steps := Claims([s0], [], m, key);
    states, steps := Joins(states, steps, m, p, key);
    states, steps := Drains(states, steps, m, p, key);
  }

  /** Call 0 holds the claim of [m]; p, if given, waits behind it. */
  ghost predicate ReleasingOne(s: State, m: Message, p: Option<Message>, key: string) {
    && key in s.store.groups && s.store.groups.Keys == {key} && s.store.maxMembers == 2
    && var g := s.store.groups[key];
       && g.msgs == (if p.Some? then [m, p.value] else [m]) && g.leased && g.claimedLen == 1
       && 0 in s.calls && s.calls[0] == Releasing(Claim(key, [m], g.createdAt, g.epoch), FromHandle, true)
  }

  lemma Claims(states: seq<State>, steps: seq<(nat, Event)>, m: Message, key: string)
    returns (states': seq<State>, steps': seq<(nat, Event)>)
    requires Run(states, steps) && m.delivery == 0 && Last(states).store == Store(map[], 1, 2)
    requires Last(states).calls == map[]
    ensures Run(states', steps') && steps' == steps + [(0, Call(m)), (0, AddMember(key, Complete, 0)), (0, TryClaim)]
    ensures ReleasingOne(Last(states'), m, None, key) && Last(states').calls.Keys == {0}
    ensures Last(states').store.groups[key].ids == if m.ID() != "" then {m.ID()} else {}
  {
    states', steps' := Stored(states, steps, 0, m, key, Complete);
    states', steps' := Taken(states', steps', 0, TryClaim);
  }

  lemma Joins(states: seq<State>, steps: seq<(nat, Event)>, m: Message, p: Message, key: string)
    returns (states': seq<State>, steps': seq<(nat, Event)>)
    requires Run(states, steps) && ReleasingOne(Last(states), m, None, key) && Last(states).calls.Keys == {0}
    requires p.delivery == 1 && (p.ID() == "" || p.ID() !in Last(states).store.groups[key].ids)
    ensures Run(states', steps') && steps' == steps + [(1, Call(p)), (1, AddMember(key, StrategyPanics, 0))]
    ensures ReleasingOne(Last(states'), m, Some(p), key)
    ensures Last(states').calls == Last(states).calls[1 := Returned(Panicked)]
  {
    states', steps' := Taken(states, steps, 1, Call(p));
    var s := Last(states');
    assert Append(s.store.groups[key], p).msgs == [m, p] && Live(Append(s.store.groups[key], p)) == [p];
    states', steps' := Taken(states', steps', 1, AddMember(key, StrategyPanics, 0));
  }

  lemma Drains(states: seq<State>, steps: seq<(nat, Event)>, m: Message, p: Message, key: string)
    returns (states': seq<State>, steps': seq<(nat, Event)>)
    requires Run(states, steps) && ReleasingOne(Last(states), m, Some(p), key)
    ensures Run(states', steps')
    ensures steps' == steps + [(0, Aggregate(SentOk)), (0, Settle(0)), (0, TryClaim), (0, Judge(StrategyPanics))]
    ensures
      var s := Last(states');
      && 0 in s.calls && s.calls == Last(states).calls[0 := s.calls[0]] && s.calls[0].Crashed?
      && key in s.store.groups && s.store.groups[key].leased && s.store.groups[key].msgs == [p]
  {
    states', steps' := Taken(states, steps, 0, Aggregate(SentOk));
    var s := Last(states');
    assert s.store.groups[key].msgs[1..] == [p];
    states', steps' := Taken(states', steps', 0, Settle(0));
    s := Last(states');
    assert s.calls[0] == Draining(key, FromHandle) && s.store.groups[key].msgs == [p] && !s.store.groups[key].leased;
    states', steps' := Taken(states', steps', 0, TryClaim);
    states', steps' := Taken(states', steps', 0, Judge(StrategyPanics));
  }

  lemma Taken(states: seq<State>, steps: seq<(nat, Event)>, c: nat, ev: Event)
    returns (states': seq<State>, steps': seq<(nat, Event)>)
    requires Run(states, steps) && Enabled(Last(states), c, ev)
    ensures Run(states', steps') && steps' == steps + [(c, ev)] && Last(states') == Step(Last(states), c, ev)
    ensures states' == states + [Step(Last(states), c, ev)]
  {
    Extend(states, steps, c, ev);
    states', steps' := states + [Step(Last(states), c, ev)], steps + [(c, ev)];
  }

  /** A new call stores the first member of a group. */
  lemma Stored(states: seq<State>, steps: seq<(nat, Event)>, c: nat, m: Message, key: string, verdict: Verdict)
    returns (states': seq<State>, steps': seq<(nat, Event)>)
    requires Run(states, steps) && c !in Last(states).calls && m.delivery == c
    requires RoomForFirst(Last(states).store, key)
    ensures Run(states', steps') && steps' == steps + [(c, Call(m)), (c, AddMember(key, verdict, 0))]
    ensures
      var s, t := Last(states), Last(states');
      && t.store == s.store.(groups := s.store.groups[key := FirstGroup(m)])
      && t.calls == s.calls[c := AfterAdd(key, AddReply(Some([m]), None), verdict)]
      && t.ledger.outputs == s.ledger.outputs
  {
    FirstAdd(Last(states).store, key, m);
    states', steps' := Taken(states, steps, c, Call(m));
    states', steps' := Taken(states', steps', c, AddMember(key, verdict, 0));
  }

  predicate RoomForFirst(store: Store, key: string) {
    key !in store.groups && |store.groups| < store.maxGroups && store.maxMembers >= 1
  }

  function FirstGroup(m: Message): Group {
    Group([m], if m.ID() != "" then {m.ID()} else {}, 0, 0, false, 0)
  }

  lemma FirstAdd(store: Store, key: string, m: Message)
    requires RoomForFirst(store, key)
    ensures Add(store, key, m, 0) == (store.(groups := store.groups[key := FirstGroup(m)]), AddReply(Some([m]), None))
  {
    var g := Append(GroupFor(store, key, 0), m);
    assert g == FirstGroup(m) && Live(g) == [m];
  }
}
