/** Splitter to Aggregator: what the default Aggregator emits for one split, whatever the
    order of arrival and however often each child is redelivered. */
module Reassembly {
  import opened Reliability
  import opened Messages
  import opened Collections
  import opened GroupStoreSpec
  import opened Aggregator
  import opened AggregatorRuns

  // ---- The default strategies -------------------------------------------------------

  /** A header read as an int: int and int64 as they are, a float cut off toward zero. */
  function AsInt(v: Option<Value>): Option<int> {
    if v.None? then None
    else match v.value
      case Int(n) => Some(n)
      case Int64(n) => Some(n)
      case Float(r) => Some(if r >= 0.0 then r.Floor else -((-r).Floor))
      case Text(_) => None
      case Opaque(_) => None
  }

  /** The correlation header, if it is a non-empty string. */
  function DefaultCorrelate(m: Message): Option<string> {
    var s := m.StringHeader(HEADER_CORRELATION_ID);
    if s.Some? && s.value != "" then s else None
  }

  /** Where a stamped child of an identified parent goes: by its own correlation header if it
      carries one, else to its parent's id. So the children of a split that set none correlate. */
  lemma StampedCorrelation(child: Message, parent: Message, num: nat, size: nat)
    requires parent.ID() != ""
    ensures DefaultCorrelate(StampSequence(child, parent, num, size)) ==
            if HEADER_CORRELATION_ID in child.headers then DefaultCorrelate(child) else Some(parent.ID())
    ensures StampSequence(child, parent, num, size).payload == child.payload
  {
    HeadersDiffer();
  }

  function DefaultRelease(msgs: seq<Message>): Verdict {
    if msgs == [] then Incomplete
    else
      var size := AsInt(msgs[0].Header(HEADER_SEQUENCE_SIZE));
      if size.Some? && |msgs| >= size.value then Complete else Incomplete
  }

  /** The number a header value stands for: an integer of either width, or a float between it and
      the next integer away from zero. */
  predicate Represents(v: Value, n: int) {
    match v
    case Int(k) => k == n
    case Int64(k) => k == n
    case Float(r) => if r >= 0.0 then n as real <= r < n as real + 1.0 else n as real - 1.0 < r <= n as real
    case _ => false
  }

  /** A group is complete if and only if its first member's size header, in any of the forms a
      number comes back in from a store, stands for no more than the members there are. */
  lemma CompleteIff(msgs: seq<Message>)
    ensures DefaultRelease(msgs) == Complete <==>
      && msgs != [] && HEADER_SEQUENCE_SIZE in msgs[0].headers
      && exists n: int :: Represents(msgs[0].headers[HEADER_SEQUENCE_SIZE], n) && n <= |msgs|
    ensures DefaultRelease(msgs) == Complete || DefaultRelease(msgs) == Incomplete
  {
    if msgs != [] && HEADER_SEQUENCE_SIZE in msgs[0].headers {
      var v := msgs[0].headers[HEADER_SEQUENCE_SIZE];
      forall n: int ensures AsInt(Some(v)) == Some(n) <==> Represents(v, n) {
      }
      assert AsInt(Some(v)).Some? ==> Represents(v, AsInt(Some(v)).value);
    }
  }

  /** The verdict on what Add returned. */
  function DefaultVerdict(live: Option<seq<Message>>): Verdict {
    if live.Some? then DefaultRelease(live.value) else Incomplete
  }

  // ---- One Handle call, run to its end ----------------------------------------------

  /** The machine's own steps for one Handle call with the default strategies, an aggregate
      function and an output channel that accept, and no other call in between. */
  ghost function Handle(s: State, m: Message, now: int): (r: State)
    requires m.delivery !in s.calls
    ensures r.calls.Keys == s.calls.Keys + {m.delivery}
  {
    var c := m.delivery;
    var key := DefaultCorrelate(m);
    if key.None? then Step(Step(s, c, Call(m)), c, Refuse(PermanentMark(Leaf(NoCorrelation))))
    else
      ReadyAlone(AddAlone(s, m, key.value, now), c, now)
  }

  /** The call up to the release strategy's answer about the snapshot Add returned. */
  ghost function AddAlone(s: State, m: Message, key: string, now: int): (r: State)
    requires m.delivery !in s.calls
    ensures r.calls.Keys == s.calls.Keys + {m.delivery}
  {
    StepAdd(StepCall(s, m.delivery, m), m.delivery, key, DefaultVerdict(Add(s.store, key, m, now).1.live), now)
  }

  lemma AddAloneEffect(s: State, m: Message, key: string, now: int)
    requires m.delivery !in s.calls && Add(s.store, key, m, now).1.err.None?
    ensures var r, c, reply := AddAlone(s, m, key, now), m.delivery, Add(s.store, key, m, now).1;
      && r.store == Add(s.store, key, m, now).0
      && r.ledger.outputs == s.ledger.outputs
      && reply.live.Some?
      && r.calls[c] == if DefaultRelease(reply.live.value).Complete? then Ready(key, FromHandle) else Returned(Nil)
  {
  }

  /** A delivery that completes nothing only stores its member, or is absorbed. */
  lemma HandleHolds(s: State, m: Message, key: string, now: int)
    requires ValidStore(s.store) && m.delivery !in s.calls && DefaultCorrelate(m) == Some(key)
    requires Add(s.store, key, m, now).1.err.None?
    requires DefaultRelease(Add(s.store, key, m, now).1.live.value) == Incomplete
    ensures Handle(s, m, now).store == Add(s.store, key, m, now).0
    ensures Handle(s, m, now).ledger.outputs == s.ledger.outputs
    ensures Handle(s, m, now).calls[m.delivery] == Returned(Nil)
  {
    AddAloneEffect(s, m, key, now);
  }

  /** A message is turned away before the store, with a permanent error, if and only if its
      correlation header is missing, not a string, or empty. */
  lemma HandleRefuses(s: State, m: Message, now: int)
    requires ValidStore(s.store) && m.delivery !in s.calls
    ensures
      var uncorrelated := forall key :: key != "" ==> m.Header(HEADER_CORRELATION_ID) != Some(Text(key));
      var t, refused := Handle(s, m, now), Returned(Fault(PermanentMark(Leaf(NoCorrelation))));
      uncorrelated <==> t.store == s.store && t.calls[m.delivery] == refused
  {
    CorrelatedIff(m);
    if DefaultCorrelate(m).Some? {
      CorrelatedAnswer(AddAlone(s, m, DefaultCorrelate(m).value, now), m.delivery, now);
    }
  }

  lemma CorrelatedIff(m: Message)
    ensures DefaultCorrelate(m).None? <==>
      forall key :: key != "" ==> m.Header(HEADER_CORRELATION_ID) != Some(Text(key))
  {
    var key := DefaultCorrelate(m);
    assert key.Some? ==> m.Header(HEADER_CORRELATION_ID) == Some(Text(key.value));
  }

  lemma CorrelatedAnswer(s: State, c: nat, now: int)
    requires c in s.calls && s.calls[c] != Returned(Fault(PermanentMark(Leaf(NoCorrelation))))
    ensures ReadyAlone(s, c, now).calls[c] != Returned(Fault(PermanentMark(Leaf(NoCorrelation))))
  {
  }

  /** The rest of a Handle call that found its group complete and unleased: the claim takes the
      whole group, the aggregate is sent, the settlement deletes the group, and the drain loop
      finds nothing left. */
  ghost function ReleaseAlone(s: State, c: nat, now: int): State
    requires c in s.calls && s.calls[c].Ready? && ClaimGroup(s.store, s.calls[c].key).1.Some?
  {
    StepClaim(StepSettle(StepAggregate(StepClaim(s, c), c, SentOk), c, now), c)
  }

  lemma ReleaseAloneEffect(s: State, c: nat, key: string, now: int)
    requires c in s.calls && s.calls[c] == Ready(key, FromHandle)
    requires key in s.store.groups && !s.store.groups[key].leased
    ensures ReleaseAlone(s, c, now).store == s.store.(groups := s.store.groups - {key})
    ensures ReleaseAlone(s, c, now).ledger.outputs == s.ledger.outputs + [s.store.groups[key].msgs]
    ensures ReleaseAlone(s, c, now).calls[c] == Returned(Nil)
  {
    var all := s.store.groups[key].msgs;
    var claimed := StepClaim(s, c);
    var claim := claimed.calls[c].claim;
    assert claimed.calls[c] == Releasing(claim, FromHandle, true) && claim.key == key && claim.msgs == all;
    assert FenceHolds(claimed.store, claim) && claimed.store.groups[key].claimedLen == |all|;
    var sent := StepAggregate(claimed, c, SentOk);
    assert sent.calls[c] == Sent(claim, FromHandle, true) && sent.store == claimed.store;
    assert all[|all|..] == [];
    assert SettleGroup(sent.store, claim, now).groups == s.store.groups - {key};
    var settled := StepSettle(sent, c, now);
    assert settled.calls[c] == Draining(key, FromHandle) && settled.store.groups == s.store.groups - {key};
  }

  /** A delivery that completes an unleased group emits the whole group, once, and leaves
      nothing of it behind. */
  lemma HandleEmits(s: State, m: Message, key: string, now: int)
    requires ValidStore(s.store) && m.delivery !in s.calls && DefaultCorrelate(m) == Some(key)
    requires Accepted(s.store, key, m) && (key in s.store.groups ==> !s.store.groups[key].leased)
    requires DefaultRelease(GroupFor(s.store, key, now).msgs + [m]) == Complete
    ensures Handle(s, m, now).store == s.store.(groups := s.store.groups - {key})
    ensures Handle(s, m, now).ledger.outputs == s.ledger.outputs + [GroupFor(s.store, key, now).msgs + [m]]
    ensures Handle(s, m, now).calls[m.delivery] == Returned(Nil)
  {
    AcceptedReply(s.store, key, m, now);
    AddAloneEffect(s, m, key, now);
    ReleaseAloneEffect(AddAlone(s, m, key, now), m.delivery, key, now);
    PutThenRemove(s.store.groups, key, Append(GroupFor(s.store, key, now), m));
  }

  lemma PutThenRemove<T>(m: map<string, T>, key: string, v: T)
    ensures m[key := v] - {key} == m - {key}
  {
  }

  lemma AcceptedReply(st: Store, key: string, m: Message, now: int)
    requires ValidStore(st) && Accepted(st, key, m) && (key in st.groups ==> !st.groups[key].leased)
    ensures Add(st, key, m, now) ==
      (st.(groups := st.groups[key := Append(GroupFor(st, key, now), m)]),
       AddReply(Some(GroupFor(st, key, now).msgs + [m]), None))
  {
    if key in st.groups {
      assert ValidGroup(st.groups[key], st.maxMembers);
    }
  }

  /** An Add with the default strategy's verdict on what it returns. */
  function JudgedAdd(store: Store, m: Message, key: string, now: int): Event {
    AddMember(key, DefaultVerdict(Add(store, key, m, now).1.live), now)
  }

  /** The machine's events of that call. */
  ghost function HandleEvents(s: State, m: Message, now: int): seq<(nat, Event)>
    requires m.delivery !in s.calls
  {
    var c, key := m.delivery, DefaultCorrelate(m);
    if key.None? then [(c, Call(m)), (c, Refuse(PermanentMark(Leaf(NoCorrelation))))]
    else
      [(c, Call(m)), (c, JudgedAdd(s.store, m, key.value, now))]
      + ReadyEvents(AddAlone(s, m, key.value, now), c, now)
  }

  lemma AddRuns(states: seq<State>, steps: seq<(nat, Event)>, m: Message, key: string, now: int)
    returns (states': seq<State>, steps': seq<(nat, Event)>)
    requires Run(states, steps) && m.delivery !in Last(states).calls
    ensures Run(states', steps') && states <= states' && Last(states') == AddAlone(Last(states), m, key, now)
    ensures steps' == steps + [(m.delivery, Call(m)), (m.delivery, JudgedAdd(Last(states).store, m, key, now))]
  {
    var c := m.delivery;
    states', steps' := Taken(states, steps, c, Call(m));
    states', steps' := Taken(states', steps', c, JudgedAdd(Last(states).store, m, key, now));
  }

  lemma ReleaseRuns(states: seq<State>, steps: seq<(nat, Event)>, c: nat, now: int)
    returns (states': seq<State>, steps': seq<(nat, Event)>)
    requires Run(states, steps) && c in Last(states).calls && Last(states).calls[c].Ready?
    requires ClaimGroup(Last(states).store, Last(states).calls[c].key).1.Some?
    ensures Run(states', steps') && states <= states' && Last(states') == ReleaseAlone(Last(states), c, now)
    ensures steps' == steps + [(c, TryClaim), (c, Aggregate(SentOk)), (c, Settle(now)), (c, TryClaim)]
  {
    states', steps' := Taken(states, steps, c, TryClaim);
    states', steps' := Taken(states', steps', c, Aggregate(SentOk));
    states', steps' := Taken(states', steps', c, Settle(now));
    states', steps' := Taken(states', steps', c, TryClaim);
  }

  /** A Handle call with no other in between is a stretch of a run. */
  lemma HandleRuns(states: seq<State>, steps: seq<(nat, Event)>, m: Message, now: int)
    returns (states': seq<State>, steps': seq<(nat, Event)>)
    requires Run(states, steps) && m.delivery !in Last(states).calls
    ensures Run(states', steps') && states <= states' && Last(states') == Handle(Last(states), m, now)
    ensures steps' == steps + HandleEvents(Last(states), m, now)
  {
    var s, key := Last(states), DefaultCorrelate(m);
    if key.None? {
      states', steps' := Taken(states, steps, m.delivery, Call(m));
      states', steps' := Taken(states', steps', m.delivery, Refuse(PermanentMark(Leaf(NoCorrelation))));
    } else {
      states', steps' := AddRuns(states, steps, m, key.value, now);
      var arrive := steps';
      states', steps' := ReadyRuns(states', steps', m.delivery, now);
      Reassociate(steps, arrive[|steps|..], steps'[|arrive|..]);
    }
  }

  /** The rest of the call: nothing, a claim that finds the lease held, or the whole release. */
  ghost function ReadyEvents(s: State, c: nat, now: int): seq<(nat, Event)>
    requires c in s.calls
  {
    if !s.calls[c].Ready? then []
    else if ClaimGroup(s.store, s.calls[c].key).1.None? then [(c, TryClaim)]
    else [(c, TryClaim), (c, Aggregate(SentOk)), (c, Settle(now)), (c, TryClaim)]
  }

  ghost function ReadyAlone(s: State, c: nat, now: int): (r: State)
    requires c in s.calls
    ensures r.calls.Keys == s.calls.Keys
  {
    if !s.calls[c].Ready? then s
    else if ClaimGroup(s.store, s.calls[c].key).1.None? then StepClaim(s, c)
    else ReleaseAlone(s, c, now)
  }

  lemma ReadyRuns(states: seq<State>, steps: seq<(nat, Event)>, c: nat, now: int)
    returns (states': seq<State>, steps': seq<(nat, Event)>)
    requires Run(states, steps) && c in Last(states).calls
    ensures Run(states', steps') && states <= states' && Last(states') == ReadyAlone(Last(states), c, now)
    ensures steps' == steps + ReadyEvents(Last(states), c, now)
  {
    var s := Last(states);
    if !s.calls[c].Ready? {
      states', steps' := states, steps;
    } else if ClaimGroup(s.store, s.calls[c].key).1.None? {
      states', steps' := Taken(states, steps, c, TryClaim);
    } else {
      states', steps' := ReleaseRuns(states, steps, c, now);
    }
  }

  lemma Reassociate<T>(a: seq<T>, b: seq<T>, c: seq<T>)
    ensures a + b + c == a + (b + c)
  {
  }

  // ---- One split --------------------------------------------------------------------

  /** A parent and the children its split function made of it. */
  datatype Split = Split(parent: Message, children: seq<Message>)

  function Stamped(sp: Split, i: nat): Message
    requires i < |sp.children|
  {
    StampSequence(sp.children[i], sp.parent, i + 1, |sp.children|)
  }

  /** The message carries its position, counted from one, and the size of the split. */
  predicate Numbered(m: Message, num: nat, size: nat) {
    m.Header(HEADER_SEQUENCE_NUMBER) == Some(Int(num)) && m.Header(HEADER_SEQUENCE_SIZE) == Some(Int(size))
  }

  /** forwardSplit: stamps and forwards the children in order and stops at the first error.
      answers[i] is what the next handler answers to child i. */
  method ForwardSplit(sp: Split, answers: seq<Option<Error>>) returns (forwarded: seq<Message>, err: Option<Error>)
    requires |answers| == |sp.children|
    ensures |forwarded| <= |sp.children|
    ensures forall i :: 0 <= i < |forwarded| ==> forwarded[i] == Stamped(sp, i)
    ensures forall i :: 0 <= i < |forwarded| ==> Numbered(forwarded[i], i + 1, |sp.children|)
    ensures err.None? ==> |forwarded| == |sp.children| && forall i :: 0 <= i < |answers| ==> answers[i].None?
    ensures err.Some? ==>
      |forwarded| > 0 && answers[|forwarded| - 1] == err && forall i :: 0 <= i < |forwarded| - 1 ==> answers[i].None?
  {
    forwarded := [];
    for i := 0 to |sp.children|
      invariant |forwarded| == i
      invariant forall j :: 0 <= j < i ==> forwarded[j] == Stamped(sp, j) && answers[j].None?
      invariant forall j :: 0 <= j < i ==> Numbered(forwarded[j], j + 1, |sp.children|)
    {
      StampedHeaders(sp.children[i], sp.parent, i + 1, |sp.children|, "");
      forwarded := forwarded + [Stamped(sp, i)];
      if answers[i].Some? {
        return forwarded, answers[i];
      }
    }
    return forwarded, None;
  }

  /** The child arrives somewhere in the window. */
  ghost predicate Occurs(arr: seq<nat>, lo: nat, hi: nat, x: nat)
    requires lo <= hi <= |arr|
  {
    exists p :: lo <= p < hi && arr[p] == x
  }

  /** Positions of [lo, hi) whose child had not yet arrived in that window. */
  ghost function Firsts(arr: seq<nat>, lo: nat, hi: nat): (ps: seq<nat>)
    requires lo <= hi <= |arr|
    ensures forall q :: 0 <= q < |ps| ==> lo <= ps[q] < hi
    decreases hi
  {
    if hi == lo then []
    else Firsts(arr, lo, hi - 1) + if Occurs(arr, lo, hi - 1, arr[hi - 1]) then [] else [hi - 1]
  }

  /** Every child arrived in the window. */
  ghost predicate Covers(arr: seq<nat>, lo: nat, hi: nat, n: nat)
    requires lo <= hi <= |arr|
  {
    forall i :: 0 <= i < n ==> Occurs(arr, lo, hi, i)
  }

  ghost predicate ShortestCover(arr: seq<nat>, cuts: seq<nat>, j: nat, n: nat)
    requires j + 1 < |cuts|
  {
    && cuts[j] < cuts[j + 1] <= |arr|
    && Covers(arr, cuts[j], cuts[j + 1], n)
    && !Covers(arr, cuts[j], cuts[j + 1] - 1, n)
  }

  /** The cuts of the greedy covers of arr[..hi]: each window between two cuts is the shortest
      one after the previous cut that holds every child, and the rest after the last holds
      no cover. */
  ghost predicate GreedyCuts(arr: seq<nat>, cuts: seq<nat>, hi: nat, n: nat) {
    && |cuts| >= 1 && cuts[0] == 0 && cuts[|cuts| - 1] <= hi <= |arr|
    && (forall j :: 0 <= j < |cuts| - 1 ==> ShortestCover(arr, cuts, j, n))
    && !Covers(arr, cuts[|cuts| - 1], hi, n)
  }

  /** The messages at the given positions of arrival. */
  function Pick(msgs: seq<Message>, ps: seq<nat>): (r: seq<Message>)
    requires forall q :: 0 <= q < |ps| ==> ps[q] < |msgs|
    ensures |r| == |ps| && forall q :: 0 <= q < |ps| ==> r[q] == msgs[ps[q]]
  {
    seq(|ps|, q requires 0 <= q < |ps| => msgs[ps[q]])
  }

  ghost function Seen(arr: seq<nat>, lo: nat, hi: nat): set<nat>
    requires lo <= hi <= |arr|
  {
    set p | lo <= p < hi :: arr[p]
  }

  /** Every child of the window is picked. */
  lemma {:induction false} FirstsFind(arr: seq<nat>, lo: nat, hi: nat, p: nat) returns (q: nat)
    requires lo <= p < hi <= |arr|
    ensures q < |Firsts(arr, lo, hi)| && arr[Firsts(arr, lo, hi)[q]] == arr[p]
    decreases hi
  {
    var before := Firsts(arr, lo, hi - 1);
    if p < hi - 1 {
      q := FirstsFind(arr, lo, hi - 1, p);
    } else if Occurs(arr, lo, p, arr[p]) {
      var i :| lo <= i < p && arr[i] == arr[p];
      q := FirstsFind(arr, lo, hi - 1, i);
    } else {
      q := |before|;
    }
  }

  lemma {:induction false} FirstsSize(arr: seq<nat>, lo: nat, hi: nat)
    requires lo <= hi <= |arr|
    ensures |Seen(arr, lo, hi)| == |Firsts(arr, lo, hi)|
    decreases hi
  {
    if lo < hi {
      FirstsSize(arr, lo, hi - 1);
      assert Occurs(arr, lo, hi - 1, arr[hi - 1]) <==> arr[hi - 1] in Seen(arr, lo, hi - 1);
      assert Seen(arr, lo, hi) == Seen(arr, lo, hi - 1) + {arr[hi - 1]};
    } else {
      assert Seen(arr, lo, hi) == {};
    }
  }

  /** The window holds every child exactly when it holds as many different ones as there are. */
  lemma FirstsCount(arr: seq<nat>, lo: nat, hi: nat, n: nat)
    requires lo <= hi <= |arr| && forall t :: 0 <= t < |arr| ==> arr[t] < n
    ensures |Firsts(arr, lo, hi)| <= n
    ensures |Firsts(arr, lo, hi)| == n <==> Covers(arr, lo, hi, n)
  {
    FirstsSize(arr, lo, hi);
    RangeSize(n);
    var seen := Seen(arr, lo, hi);
    SubsetSize(seen, Range(n));
    if Covers(arr, lo, hi, n) {
      forall i | i in Range(n) ensures i in seen {
        assert Occurs(arr, lo, hi, i);
      }
      assert seen == Range(n);
    } else {
      var i :| 0 <= i < n && !Occurs(arr, lo, hi, i);
      assert i in Range(n) && i !in seen;
    }
  }

  // ---- Any arrivals of n kinds ------------------------------------------------------

  /** Arrivals of n different members of one group, each of them any number of times: arr[t]
      says which member the t-th message is. */
  ghost predicate Arrivals(msgs: seq<Message>, arr: seq<nat>, n: nat, base: nat, key: string) {
    && |msgs| == |arr| && 1 <= n
    && (forall t :: 0 <= t < |arr| ==> arr[t] < n)
    && (forall t :: 0 <= t < |msgs| ==> Member(msgs[t], n, base + t, key))
    && (forall p, q :: 0 <= p < |msgs| && 0 <= q < |msgs| ==> SameIffSame(msgs, arr, p, q))
  }

  ghost predicate Member(m: Message, n: nat, delivery: nat, key: string) {
    && DefaultCorrelate(m) == Some(key) && m.ID() != "" && m.delivery == delivery
    && m.Header(HEADER_SEQUENCE_SIZE) == Some(Int(n))
  }

  ghost predicate SameIffSame(msgs: seq<Message>, arr: seq<nat>, p: nat, q: nat)
    requires |msgs| == |arr| && p < |arr| && q < |arr|
  {
    msgs[p].ID() == msgs[q].ID() <==> arr[p] == arr[q]
  }

  /** The store does not hold the key yet and has room for it. */
  ghost predicate Room(st: Store, key: string, n: nat) {
    ValidStore(st) && key !in st.groups && |st.groups| < st.maxGroups && n <= st.maxMembers
  }

  /** What is waiting in the store since the last emission. */
  ghost predicate Pending(st: Store, st0: Store, msgs: seq<Message>, key: string, waiting: seq<nat>)
    requires forall q :: 0 <= q < |waiting| ==> waiting[q] < |msgs|
  {
    && ValidStore(st)
    && st.maxGroups == st0.maxGroups && st.maxMembers == st0.maxMembers
    && (waiting == [] ==> st.groups == st0.groups)
    && (waiting != [] ==>
          && key in st.groups && st.groups - {key} == st0.groups
          && st.groups[key].msgs == Pick(msgs, waiting) && !st.groups[key].leased)
  }

  lemma WaitingIds(msgs: seq<Message>, arr: seq<nat>, n: nat, base: nat, key: string, lo: nat, t: nat)
    requires Arrivals(msgs, arr, n, base, key) && lo <= t < |arr|
    ensures msgs[t].ID() in IdsOf(Pick(msgs, Firsts(arr, lo, t))) <==> Occurs(arr, lo, t, arr[t])
  {
    var ps := Firsts(arr, lo, t);
    if Occurs(arr, lo, t, arr[t]) {
      var i :| lo <= i < t && arr[i] == arr[t];
      var q := FirstsFind(arr, lo, t, i);
      assert SameIffSame(msgs, arr, ps[q], t) && Member(msgs[t], n, base + t, key);
      HasId(msgs, ps, q);
    } else {
      forall q | 0 <= q < |ps| ensures msgs[ps[q]].ID() != msgs[t].ID() {
        assert lo <= ps[q] < t;
        assert SameIffSame(msgs, arr, ps[q], t);
      }
      LacksId(msgs, ps, msgs[t].ID());
    }
  }

  lemma HasId(msgs: seq<Message>, ps: seq<nat>, q: nat)
    requires (forall i :: 0 <= i < |ps| ==> ps[i] < |msgs|) && q < |ps| && msgs[ps[q]].ID() != ""
    ensures msgs[ps[q]].ID() in IdsOf(Pick(msgs, ps))
  {
    assert Pick(msgs, ps)[q] == msgs[ps[q]];
  }

  lemma LacksId(msgs: seq<Message>, ps: seq<nat>, id: string)
    requires (forall i :: 0 <= i < |ps| ==> ps[i] < |msgs| && msgs[ps[i]].ID() != id)
    ensures id !in IdsOf(Pick(msgs, ps))
  {
  }

  lemma ReleaseWhenFull(msgs: seq<Message>, arr: seq<nat>, n: nat, base: nat, key: string, ps: seq<nat>)
    requires Arrivals(msgs, arr, n, base, key) && forall q :: 0 <= q < |ps| ==> ps[q] < |msgs|
    ensures DefaultRelease(Pick(msgs, ps)) == if |ps| >= n then Complete else Incomplete
  {
    if ps != [] {
      assert Pick(msgs, ps)[0] == msgs[ps[0]];
      assert Member(msgs[ps[0]], n, base + ps[0], key);
    }
  }

  /** A repeat within the window is absorbed; nothing changes. */
  lemma RepeatArrival(s: State, st0: Store, msgs: seq<Message>, arr: seq<nat>, n: nat, base: nat, key: string, lo: nat,
                      t: nat, now: int)
    requires Arrivals(msgs, arr, n, base, key) && Room(st0, key, n) && lo <= t < |arr| && base + t !in s.calls
    requires Pending(s.store, st0, msgs, key, Firsts(arr, lo, t)) && !Covers(arr, lo, t, n)
    requires Occurs(arr, lo, t, arr[t])
    ensures var r := Handle(s, msgs[t], now);
      r.ledger.outputs == s.ledger.outputs && Pending(r.store, st0, msgs, key, Firsts(arr, lo, t + 1))
  {
    var m, waiting := msgs[t], Firsts(arr, lo, t);
    WaitingIds(msgs, arr, n, base, key, lo, t);
    FirstsCount(arr, lo, t, n);
    ReleaseWhenFull(msgs, arr, n, base, key, waiting);
    assert Firsts(arr, lo, t + 1) == waiting;
    assert Member(m, n, base + t, key);
    assert waiting != [];
    RepeatHolds(s, Pick(msgs, waiting), m, key, now);
  }

  lemma RepeatHolds(s: State, held: seq<Message>, m: Message, key: string, now: int)
    requires ValidStore(s.store) && m.delivery !in s.calls && DefaultCorrelate(m) == Some(key)
    requires key in s.store.groups && s.store.groups[key].msgs == held && !s.store.groups[key].leased
    requires m.ID() != "" && m.ID() in IdsOf(held) && DefaultRelease(held) == Incomplete
    ensures var r := Handle(s, m, now); r.ledger.outputs == s.ledger.outputs && r.store == s.store
  {
    assert ValidGroup(s.store.groups[key], s.store.maxMembers);
    assert Duplicate(s.store, key, m) && Live(s.store.groups[key]) == held;
    HandleHolds(s, m, key, now);
  }

  /** The store admits a new child of a window that is not full. */
  lemma NewIsAccepted(st: Store, st0: Store, msgs: seq<Message>, arr: seq<nat>, n: nat, base: nat, key: string,
                      lo: nat, t: nat, now: int)
    requires Arrivals(msgs, arr, n, base, key) && Room(st0, key, n) && lo <= t < |arr|
    requires Pending(st, st0, msgs, key, Firsts(arr, lo, t)) && !Covers(arr, lo, t, n)
    requires !Occurs(arr, lo, t, arr[t])
    ensures Accepted(st, key, msgs[t])
    ensures Firsts(arr, lo, t + 1) == Firsts(arr, lo, t) + [t]
    ensures GroupFor(st, key, now).msgs + [msgs[t]] == Pick(msgs, Firsts(arr, lo, t) + [t])
    ensures st.groups - {key} == st0.groups && (key in st.groups ==> !st.groups[key].leased)
  {
    var waiting := Firsts(arr, lo, t);
    WaitingIds(msgs, arr, n, base, key, lo, t);
    FirstsCount(arr, lo, t, n);
    assert Pick(msgs, waiting + [t]) == Pick(msgs, waiting) + [msgs[t]];
    if waiting != [] {
      assert ValidGroup(st.groups[key], st.maxMembers);
    }
  }

  /** The last child missing: the group goes out, and nothing of it stays. */
  lemma LastArrival(s: State, st0: Store, msgs: seq<Message>, arr: seq<nat>, n: nat, base: nat, key: string, lo: nat,
                    t: nat, now: int)
    requires Arrivals(msgs, arr, n, base, key) && Room(st0, key, n) && lo <= t < |arr| && base + t !in s.calls
    requires Pending(s.store, st0, msgs, key, Firsts(arr, lo, t)) && !Covers(arr, lo, t, n)
    requires !Occurs(arr, lo, t, arr[t]) && Covers(arr, lo, t + 1, n)
    ensures var r := Handle(s, msgs[t], now);
      && r.ledger.outputs == s.ledger.outputs + [Pick(msgs, Firsts(arr, lo, t + 1))]
      && Pending(r.store, st0, msgs, key, [])
  {
    NewIsAccepted(s.store, st0, msgs, arr, n, base, key, lo, t, now);
    FirstsCount(arr, lo, t + 1, n);
    ReleaseWhenFull(msgs, arr, n, base, key, Firsts(arr, lo, t + 1));
    assert Member(msgs[t], n, base + t, key);
    HandleEmits(s, msgs[t], key, now);
  }

  /** Another new child of a window still incomplete: it joins those waiting. */
  lemma NewArrival(s: State, st0: Store, msgs: seq<Message>, arr: seq<nat>, n: nat, base: nat, key: string, lo: nat,
                   t: nat, now: int)
    requires Arrivals(msgs, arr, n, base, key) && Room(st0, key, n) && lo <= t < |arr| && base + t !in s.calls
    requires Pending(s.store, st0, msgs, key, Firsts(arr, lo, t)) && !Covers(arr, lo, t, n)
    requires !Occurs(arr, lo, t, arr[t]) && !Covers(arr, lo, t + 1, n)
    ensures var r := Handle(s, msgs[t], now);
      r.ledger.outputs == s.ledger.outputs && Pending(r.store, st0, msgs, key, Firsts(arr, lo, t + 1))
  {
    NewIsAccepted(s.store, st0, msgs, arr, n, base, key, lo, t, now);
    FirstsCount(arr, lo, t + 1, n);
    ReleaseWhenFull(msgs, arr, n, base, key, Firsts(arr, lo, t + 1));
    assert Member(msgs[t], n, base + t, key);
    StoredStays(s, st0, msgs, key, Firsts(arr, lo, t), t, now);
  }

  lemma StoredStays(s: State, st0: Store, msgs: seq<Message>, key: string, waiting: seq<nat>, t: nat, now: int)
    requires t < |msgs| && msgs[t].delivery !in s.calls && DefaultCorrelate(msgs[t]) == Some(key)
    requires forall q :: 0 <= q < |waiting| ==> waiting[q] < |msgs|
    requires Pending(s.store, st0, msgs, key, waiting) && Accepted(s.store, key, msgs[t])
    requires s.store.groups - {key} == st0.groups && (key in s.store.groups ==> !s.store.groups[key].leased)
    requires GroupFor(s.store, key, now).msgs + [msgs[t]] == Pick(msgs, waiting + [t])
    requires DefaultRelease(Pick(msgs, waiting + [t])) == Incomplete
    ensures var r := Handle(s, msgs[t], now);
      r.ledger.outputs == s.ledger.outputs && Pending(r.store, st0, msgs, key, waiting + [t])
  {
    StoredIsPending(s.store, st0, msgs, key, waiting, t, now);
    HandleHolds(s, msgs[t], key, now);
  }

  lemma StoredIsPending(st: Store, st0: Store, msgs: seq<Message>, key: string, waiting: seq<nat>, t: nat, now: int)
    requires t < |msgs| && forall q :: 0 <= q < |waiting| ==> waiting[q] < |msgs|
    requires Pending(st, st0, msgs, key, waiting) && Accepted(st, key, msgs[t])
    requires st.groups - {key} == st0.groups && (key in st.groups ==> !st.groups[key].leased)
    requires GroupFor(st, key, now).msgs + [msgs[t]] == Pick(msgs, waiting + [t])
    ensures Pending(Add(st, key, msgs[t], now).0, st0, msgs, key, waiting + [t])
    ensures Add(st, key, msgs[t], now).1 == AddReply(Some(Pick(msgs, waiting + [t])), None)
  {
    AddKeepsValid(st, key, msgs[t], now);
    AcceptedReply(st, key, msgs[t], now);
    PutThenRemove(st.groups, key, Append(GroupFor(st, key, now), msgs[t]));
  }

  // ---- The reassembly theorem -------------------------------------------------------

  /** The messages are handled one call after the other: states[t] is the state after t of them. */
  ghost predicate Served(states: seq<State>, msgs: seq<Message>, times: seq<int>) {
    && |states| == |msgs| + 1 && |times| == |msgs|
    && forall t :: 0 <= t < |msgs| ==> ServedAt(states, msgs, times, t)
  }

  ghost predicate ServedAt(states: seq<State>, msgs: seq<Message>, times: seq<int>, t: nat)
    requires |states| == |msgs| + 1 && |times| == |msgs| && t < |msgs|
  {
    msgs[t].delivery !in states[t].calls && states[t + 1] == Handle(states[t], msgs[t], times[t])
  }

  /** The events of the first t of these calls, one call after the other. */
  ghost function ServedEvents(states: seq<State>, msgs: seq<Message>, times: seq<int>, t: nat): seq<(nat, Event)>
    requires Served(states, msgs, times) && t <= |msgs|
  {
    if t == 0 then []
    else
      assert ServedAt(states, msgs, times, t - 1);
      ServedEvents(states, msgs, times, t - 1) + HandleEvents(states[t - 1], msgs[t - 1], times[t - 1])
  }

  lemma {:induction false} ServedRuns(run: seq<State>, steps: seq<(nat, Event)>, states: seq<State>,
                                      msgs: seq<Message>, times: seq<int>, t: nat)
    returns (run': seq<State>, steps': seq<(nat, Event)>)
    requires Run(run, steps) && Served(states, msgs, times) && Last(run) == states[0] && t <= |msgs|
    ensures Run(run', steps') && run <= run' && Last(run') == states[t]
    ensures steps' == steps + ServedEvents(states, msgs, times, t)
  {
    if t == 0 {
      run', steps' := run, steps;
      assert steps + [] == steps;
    } else {
      run', steps' := ServedRuns(run, steps, states, msgs, times, t - 1);
      assert ServedAt(states, msgs, times, t - 1);
      run', steps' := HandleRuns(run', steps', msgs[t - 1], times[t - 1]);
      ServedOneMore(steps, states, msgs, times, t);
    }
  }

  lemma ServedOneMore(steps: seq<(nat, Event)>, states: seq<State>, msgs: seq<Message>, times: seq<int>, t: nat)
    requires Served(states, msgs, times) && 1 <= t <= |msgs|
    ensures ServedAt(states, msgs, times, t - 1)
    ensures steps + ServedEvents(states, msgs, times, t - 1) + HandleEvents(states[t - 1], msgs[t - 1], times[t - 1]) ==
            steps + ServedEvents(states, msgs, times, t)
  {
    assert ServedAt(states, msgs, times, t - 1);
    Reassociate(steps, ServedEvents(states, msgs, times, t - 1),
      HandleEvents(states[t - 1], msgs[t - 1], times[t - 1]));
  }

  /** The aggregates the cuts call for, each made of the first arrivals of its window. */
  ghost function Batches(msgs: seq<Message>, arr: seq<nat>, cuts: seq<nat>, n: nat): seq<seq<Message>>
    requires |cuts| >= 1 && |msgs| == |arr|
    requires forall j :: 0 <= j < |cuts| - 1 ==> ShortestCover(arr, cuts, j, n)
  {
    seq(|cuts| - 1, j requires 0 <= j < |cuts| - 1 => Batch(msgs, arr, cuts, j, n))
  }

  ghost function Batch(msgs: seq<Message>, arr: seq<nat>, cuts: seq<nat>, j: nat, n: nat): seq<Message>
    requires j + 1 < |cuts| && |msgs| == |arr| && ShortestCover(arr, cuts, j, n)
  {
    Pick(msgs, Firsts(arr, cuts[j], cuts[j + 1]))
  }

  /** Emissions and store follow the greedy covers, arrival by arrival. */
  lemma {:induction false} EmissionsFollowCovers(outs: seq<seq<seq<Message>>>, stores: seq<Store>, msgs: seq<Message>,
                                                 arr: seq<nat>, n: nat, key: string, t: nat)
    returns (cuts: seq<nat>)
    requires |msgs| == |arr| && 1 <= n && (forall i :: 0 <= i < |arr| ==> arr[i] < n)
    requires |outs| == |stores| == |msgs| + 1 && Room(stores[0], key, n)
    requires forall lo: nat, i :: lo <= i < |msgs| ==> FollowsAt(outs, stores, msgs, arr, n, key, lo, i)
    requires t <= |msgs|
    ensures GreedyCuts(arr, cuts, t, n)
    ensures outs[t] == outs[0] + Batches(msgs, arr, cuts, n)
    ensures Pending(stores[t], stores[0], msgs, key, Firsts(arr, cuts[|cuts| - 1], t))
    decreases t
  {
    if t == 0 {
      cuts := [0];
      FirstsCount(arr, 0, 0, n);
      assert Batches(msgs, arr, cuts, n) == [];
    } else {
      cuts := EmissionsFollowCovers(outs, stores, msgs, arr, n, key, t - 1);
      assert FollowsAt(outs, stores, msgs, arr, n, key, cuts[|cuts| - 1], t - 1);
      cuts := CutsAfter(outs[t - 1], outs[t], outs[0], msgs, arr, n, t, cuts);
    }
  }

  /** One arrival, in terms of the window since the last emission: what it emits and what is
      waiting afterwards. */
  lemma ArrivalStep(s: State, st0: Store, msgs: seq<Message>, arr: seq<nat>, n: nat, base: nat, key: string, lo: nat,
                    t: nat, now: int)
    requires Arrivals(msgs, arr, n, base, key) && Room(st0, key, n) && lo <= t < |arr| && base + t !in s.calls
    ensures msgs[t].delivery == base + t
    ensures Follows(s.ledger.outputs, s.store, Handle(s, msgs[t], now).ledger.outputs, Handle(s, msgs[t], now).store,
      st0, msgs, arr, n, key, lo, t)
  {
    assert Member(msgs[t], n, base + t, key);
    if Pending(s.store, st0, msgs, key, Firsts(arr, lo, t)) && !Covers(arr, lo, t, n) {
      if Occurs(arr, lo, t, arr[t]) {
        RepeatCoversNothing(arr, lo, t, n);
        RepeatArrival(s, st0, msgs, arr, n, base, key, lo, t, now);
      } else if Covers(arr, lo, t + 1, n) {
        LastArrival(s, st0, msgs, arr, n, base, key, lo, t, now);
      } else {
        NewArrival(s, st0, msgs, arr, n, base, key, lo, t, now);
      }
    }
  }

  /** If the store held just the first arrivals since the last emission, then the arrival at t
      emits them with itself exactly when it completes the cover, and else joins them. */
  ghost predicate Follows(out: seq<seq<Message>>, st: Store, out': seq<seq<Message>>, st': Store, st0: Store,
                          msgs: seq<Message>, arr: seq<nat>, n: nat, key: string, lo: nat, t: nat)
    requires lo <= t < |arr| == |msgs|
  {
    Pending(st, st0, msgs, key, Firsts(arr, lo, t)) && !Covers(arr, lo, t, n) ==>
      if Covers(arr, lo, t + 1, n) then
        out' == out + [Pick(msgs, Firsts(arr, lo, t + 1))] && Pending(st', st0, msgs, key, [])
      else out' == out && Pending(st', st0, msgs, key, Firsts(arr, lo, t + 1))
  }

  ghost predicate FollowsAt(outs: seq<seq<seq<Message>>>, stores: seq<Store>, msgs: seq<Message>, arr: seq<nat>,
                            n: nat, key: string, lo: nat, t: nat)
    requires lo <= t < |arr| == |msgs| && |outs| == |stores| == |msgs| + 1
  {
    Follows(outs[t], stores[t], outs[t + 1], stores[t + 1], stores[0], msgs, arr, n, key, lo, t)
  }

  lemma CutsAfter(before: seq<seq<Message>>, after: seq<seq<Message>>, first: seq<seq<Message>>, msgs: seq<Message>,
                  arr: seq<nat>, n: nat, t: nat, cuts: seq<nat>)
    returns (more: seq<nat>)
    requires |msgs| == |arr| && 1 <= n && 1 <= t <= |arr| && forall i :: 0 <= i < |arr| ==> arr[i] < n
    requires GreedyCuts(arr, cuts, t - 1, n) && before == first + Batches(msgs, arr, cuts, n)
    requires var lo := cuts[|cuts| - 1];
      after == if Covers(arr, lo, t, n) then before + [Pick(msgs, Firsts(arr, lo, t))] else before
    ensures GreedyCuts(arr, more, t, n)
    ensures after == first + Batches(msgs, arr, more, n)
    ensures more == if Covers(arr, cuts[|cuts| - 1], t, n) then cuts + [t] else cuts
    ensures Firsts(arr, t, t) == []
  {
    CutsExtendNothing(arr, t);
    if Covers(arr, cuts[|cuts| - 1], t, n) {
      CutsExtend(msgs, arr, cuts, t, n);
      more := cuts + [t];
    } else {
      more := cuts;
    }
  }

  lemma CutsExtendNothing(arr: seq<nat>, t: nat)
    requires t <= |arr|
    ensures Firsts(arr, t, t) == []
  {
  }

  lemma CutsExtend(msgs: seq<Message>, arr: seq<nat>, cuts: seq<nat>, t: nat, n: nat)
    requires |msgs| == |arr| && 1 <= n && 1 <= t <= |arr|
    requires forall i :: 0 <= i < |arr| ==> arr[i] < n
    requires GreedyCuts(arr, cuts, t - 1, n) && Covers(arr, cuts[|cuts| - 1], t, n)
    ensures GreedyCuts(arr, cuts + [t], t, n)
    ensures Batches(msgs, arr, cuts + [t], n) == Batches(msgs, arr, cuts, n)
      + [Pick(msgs, Firsts(arr, cuts[|cuts| - 1], t))]
    ensures Firsts(arr, t, t) == []
  {
    var more := cuts + [t];
    FirstsCount(arr, t, t, n);
    forall j | 0 <= j < |more| - 1 ensures ShortestCover(arr, more, j, n) {
      if j < |cuts| - 1 {
        assert ShortestCover(arr, cuts, j, n);
      }
    }
    forall j | 0 <= j < |cuts| - 1 ensures Batch(msgs, arr, more, j, n) == Batch(msgs, arr, cuts, j, n) {
    }
  }

  lemma RepeatCoversNothing(arr: seq<nat>, lo: nat, t: nat, n: nat)
    requires lo <= t < |arr| && Occurs(arr, lo, t, arr[t]) && !Covers(arr, lo, t, n)
    ensures !Covers(arr, lo, t + 1, n)
  {
    var i :| 0 <= i < n && !Occurs(arr, lo, t, i);
    assert !Occurs(arr, lo, t + 1, i);
  }

  /** One split's stamped children, in any order of arrival and each any number of times. */
  ghost predicate ChildrenArrive(sp: Split, msgs: seq<Message>, arr: seq<nat>, base: nat) {
    && |msgs| == |arr|
    && forall t :: 0 <= t < |arr| ==> arr[t] < |sp.children| && msgs[t] == Stamped(sp, arr[t]).(delivery := base + t)
  }

  lemma ChildrenAreArrivals(sp: Split, msgs: seq<Message>, arr: seq<nat>, base: nat, key: string)
    requires ChildrenArrive(sp, msgs, arr, base) && 1 <= |sp.children| && sp.parent.ID() != ""
    requires forall i :: 0 <= i < |sp.children| ==> DefaultCorrelate(Stamped(sp, i)) == Some(key)
    ensures Arrivals(msgs, arr, |sp.children|, base, key)
  {
    forall p, q | 0 <= p < |msgs| && 0 <= q < |msgs| ensures SameIffSame(msgs, arr, p, q) {
      ChildIds(sp, msgs, arr, base, p, q);
    }
    forall t | 0 <= t < |msgs| ensures Member(msgs[t], |sp.children|, base + t, key) {
      ChildIds(sp, msgs, arr, base, t, t);
      assert DefaultCorrelate(Stamped(sp, arr[t])) == Some(key);
    }
  }

  lemma ChildIds(sp: Split, msgs: seq<Message>, arr: seq<nat>, base: nat, p: nat, q: nat)
    requires ChildrenArrive(sp, msgs, arr, base) && sp.parent.ID() != "" && p < |msgs| && q < |msgs|
    ensures msgs[p].ID() != "" && SameIffSame(msgs, arr, p, q)
  {
    StampedIdsDiffer(sp.children[arr[p]], sp.children[arr[q]], sp.parent, arr[p] + 1, arr[q] + 1, |sp.children|);
    assert msgs[p].headers == Stamped(sp, arr[p]).headers && msgs[q].headers == Stamped(sp, arr[q]).headers;
  }

  /** Reassembly, one Handle call at a time. For one split whose children correlate to one key
      that the store has room for, from any state a run has reached: whatever the order of
      arrival and however often each child is redelivered, the default Aggregator emits exactly
      once per greedy cover, never before every child is present, and each emission holds every
      child of the split exactly once. The calls are a stretch of a run, with the events named.
      What holds when calls overlap is in the module Competing. */
  lemma SplitIsReassembled(run: seq<State>, steps: seq<(nat, Event)>, states: seq<State>, sp: Split,
                           msgs: seq<Message>, arr: seq<nat>,
                           base: nat, key: string, times: seq<int>)
    returns (cuts: seq<nat>, run': seq<State>, steps': seq<(nat, Event)>)
    requires Run(run, steps) && states != [] && Last(run) == states[0]
    requires ChildrenArrive(sp, msgs, arr, base) && 1 <= |sp.children| && sp.parent.ID() != ""
    requires forall i :: 0 <= i < |sp.children| ==> DefaultCorrelate(Stamped(sp, i)) == Some(key)
    requires Served(states, msgs, times) && Room(states[0].store, key, |sp.children|)
    ensures Run(run', steps') && run <= run' && steps' == steps + ServedEvents(states, msgs, times, |msgs|)
    ensures GreedyCuts(arr, cuts, |arr|, |sp.children|)
    ensures var before, after := Last(run).ledger.outputs, Last(run').ledger.outputs;
      && |after| == |before| + |cuts| - 1
      && after[..|before|] == before
      && forall j :: |before| <= j < |after| ==> HoldsEachChildOnce(sp, after[j])
  {
    run', steps' := ServedRuns(run, steps, states, msgs, times, |msgs|);
    ChildrenAreArrivals(sp, msgs, arr, base, key);
    var outs, stores := OutputsOf(states), StoresOf(states);
    forall lo: nat, i | lo <= i < |msgs| ensures FollowsAt(outs, stores, msgs, arr, |sp.children|, key, lo, i) {
      ServedFollows(states, msgs, arr, |sp.children|, base, key, times, lo, i);
    }
    cuts := EmissionsFollowCovers(outs, stores, msgs, arr, |sp.children|, key, |msgs|);
    forall j | 0 <= j < |cuts| - 1 ensures HoldsEachChildOnce(sp, Batch(msgs, arr, cuts, j, |sp.children|)) {
      BatchIsWhole(sp, msgs, arr, base, cuts, j);
    }
  }

  ghost function OutputsOf(states: seq<State>): (r: seq<seq<seq<Message>>>)
    ensures |r| == |states| && forall t :: 0 <= t < |states| ==> r[t] == states[t].ledger.outputs
  {
    seq(|states|, t requires 0 <= t < |states| => states[t].ledger.outputs)
  }

  ghost function StoresOf(states: seq<State>): (r: seq<Store>)
    ensures |r| == |states| && forall t :: 0 <= t < |states| ==> r[t] == states[t].store
  {
    seq(|states|, t requires 0 <= t < |states| => states[t].store)
  }

  lemma ServedFollows(states: seq<State>, msgs: seq<Message>, arr: seq<nat>, n: nat, base: nat, key: string,
                      times: seq<int>, lo: nat, t: nat)
    requires Arrivals(msgs, arr, n, base, key) && Served(states, msgs, times) && Room(states[0].store, key, n)
    requires lo <= t < |msgs|
    ensures FollowsAt(OutputsOf(states), StoresOf(states), msgs, arr, n, key, lo, t)
  {
    assert ServedAt(states, msgs, times, t);
    assert Member(msgs[t], n, base + t, key);
    ArrivalStep(states[t], states[0].store, msgs, arr, n, base, key, lo, t, times[t]);
  }

  ghost predicate IsChild(sp: Split, m: Message, i: nat)
    requires i < |sp.children|
  {
    m == Stamped(sp, i).(delivery := m.delivery)
  }

  ghost predicate HoldsChild(sp: Split, batch: seq<Message>, i: nat)
    requires i < |sp.children|
  {
    exists q :: 0 <= q < |batch| && IsChild(sp, batch[q], i)
  }

  /** As many members as there are children, and every child among them. */
  ghost predicate HoldsEachChildOnce(sp: Split, batch: seq<Message>) {
    && |batch| == |sp.children|
    && forall i :: 0 <= i < |sp.children| ==> HoldsChild(sp, batch, i)
  }

  lemma BatchIsWhole(sp: Split, msgs: seq<Message>, arr: seq<nat>, base: nat, cuts: seq<nat>, j: nat)
    requires ChildrenArrive(sp, msgs, arr, base) && j + 1 < |cuts| && ShortestCover(arr, cuts, j, |sp.children|)
    ensures HoldsEachChildOnce(sp, Batch(msgs, arr, cuts, j, |sp.children|))
  {
    var lo, hi := cuts[j], cuts[j + 1];
    var ps := Firsts(arr, lo, hi);
    var batch := Batch(msgs, arr, cuts, j, |sp.children|);
    FirstsCount(arr, lo, hi, |sp.children|);
    forall i: nat | i < |sp.children| ensures HoldsChild(sp, batch, i) {
      assert Occurs(arr, lo, hi, i);
      var x :| lo <= x < hi && arr[x] == i;
      var q := FirstsFind(arr, lo, hi, x);
      assert IsChild(sp, batch[q], i);
    }
  }
}
