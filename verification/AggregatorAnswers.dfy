/** What a Handle call answers, read off the steps it took in a run. */
module AggregatorAnswers {
  import opened Reliability
  import opened Messages
  import opened GroupStoreSpec
  import opened Aggregator
  import opened AggregatorTheorems

  // ---- What call c did before step n -----------------------------------------------------

  predicate Takes(steps: seq<(nat, Event)>, c: nat, i: nat) {
    i < |steps| && steps[i].0 == c
  }

  /** It settled a claim. */
  ghost predicate Settled(steps: seq<(nat, Event)>, n: nat, c: nat) {
    exists i :: 0 <= i < n && Takes(steps, c, i) && steps[i].1.Settle?
  }

  /** The strategy gave it this verdict on the snapshot. */
  ghost predicate Judged(steps: seq<(nat, Event)>, n: nat, c: nat, verdict: Verdict) {
    exists i :: 0 <= i < n && Takes(steps, c, i) && steps[i].1.AddMember? && steps[i].1.verdict == verdict
  }

  /** Aggregating or sending the group it set out for, before it settled any, came to this. */
  ghost predicate MainCameTo(steps: seq<(nat, Event)>, n: nat, c: nat, sending: Sending) {
    exists i :: 0 <= i < n && Takes(steps, c, i) && steps[i].1 == Aggregate(sending) && !Settled(steps, i, c)
  }

  /** Aggregating or sending some group panicked. */
  ghost predicate SendPanicked(steps: seq<(nat, Event)>, n: nat, c: nat) {
    exists i :: 0 <= i < n && Takes(steps, c, i) && steps[i].1 == Aggregate(SendPanics)
  }

  /** The group it set out for was gone or leased when it tried to claim it. */
  ghost predicate TurnedAway(states: seq<State>, steps: seq<(nat, Event)>, n: nat, c: nat)
    requires n <= |steps| && |states| == |steps| + 1
  {
    exists i :: 0 <= i < n && Takes(steps, c, i) && TurnedAwayAt(states[i], c, steps[i].1)
  }

  ghost predicate TurnedAwayAt(s: State, c: nat, ev: Event) {
    && ev.TryClaim? && c in s.calls && s.calls[c].Ready?
    && (s.calls[c].key !in s.store.groups || s.store.groups[s.calls[c].key].leased)
  }

  lemma SettledMore(steps: seq<(nat, Event)>, n: nat, c: nat)
    requires n < |steps|
    ensures Settled(steps, n + 1, c) <==> Settled(steps, n, c) || (steps[n].0 == c && steps[n].1.Settle?)
  {
    assert Takes(steps, c, n) <==> steps[n].0 == c;
  }

  lemma JudgedMore(steps: seq<(nat, Event)>, n: nat, c: nat, v: Verdict)
    requires n < |steps|
    ensures Judged(steps, n + 1, c, v) <==>
      Judged(steps, n, c, v) || (steps[n].0 == c && steps[n].1.AddMember? && steps[n].1.verdict == v)
  {
    assert Takes(steps, c, n) <==> steps[n].0 == c;
  }

  lemma MainCameToMore(steps: seq<(nat, Event)>, n: nat, c: nat, x: Sending)
    requires n < |steps|
    ensures MainCameTo(steps, n + 1, c, x) <==>
      MainCameTo(steps, n, c, x) || (steps[n] == (c, Aggregate(x)) && !Settled(steps, n, c))
  {
    assert Takes(steps, c, n) <==> steps[n].0 == c;
  }

  lemma SendPanickedMore(steps: seq<(nat, Event)>, n: nat, c: nat)
    requires n < |steps|
    ensures SendPanicked(steps, n + 1, c) <==> SendPanicked(steps, n, c) || steps[n] == (c, Aggregate(SendPanics))
  {
    assert Takes(steps, c, n) <==> steps[n].0 == c;
  }

  lemma TurnedAwayMore(states: seq<State>, steps: seq<(nat, Event)>, n: nat, c: nat)
    requires n < |steps| && |states| == |steps| + 1
    ensures TurnedAway(states, steps, n + 1, c) <==>
      TurnedAway(states, steps, n, c) || (steps[n].0 == c && TurnedAwayAt(states[n], c, steps[n].1))
  {
    assert Takes(steps, c, n) <==> steps[n].0 == c;
  }

  // ---- The same as a value ----------------------------------------------------------------

  /** A call is judged on the snapshot once, and sends the group it set out for once. */
  datatype Facts = Facts(
    verdict: Option<Verdict>, main: Option<Sending>, settled: bool, sendPanicked: bool, turnedAway: bool)

  const NOTHING := Facts(None, None, false, false, false)

  ghost predicate Recorded(states: seq<State>, steps: seq<(nat, Event)>, n: nat, c: nat, f: Facts)
    requires n <= |steps| && |states| == |steps| + 1
  {
    && (forall v :: Judged(steps, n, c, v) <==> f.verdict == Some(v))
    && (forall x :: MainCameTo(steps, n, c, x) <==> f.main == Some(x))
    && (Settled(steps, n, c) <==> f.settled)
    && (SendPanicked(steps, n, c) <==> f.sendPanicked)
    && (TurnedAway(states, steps, n, c) <==> f.turnedAway)
  }

  function Record(f: Facts, ev: Event, turnedAway: bool): Facts {
    match ev
    case AddMember(_, verdict, _) => f.(verdict := Some(verdict))
    case Aggregate(sending) =>
      f.(main := if f.settled then f.main else Some(sending), sendPanicked := f.sendPanicked || sending.SendPanics?)
    case Settle(_) => f.(settled := true)
    case _ => f.(turnedAway := f.turnedAway || turnedAway)
  }

  /** One more step of the run, by the call itself or by another. */
  lemma RecordMore(states: seq<State>, steps: seq<(nat, Event)>, n: nat, c: nat, f: Facts, f': Facts)
    requires n < |steps| && |states| == |steps| + 1 && Recorded(states, steps, n, c, f)
    requires steps[n].0 != c ==> f' == f
    requires steps[n].0 == c ==>
      && f' == Record(f, steps[n].1, TurnedAwayAt(states[n], c, steps[n].1))
      && (steps[n].1.AddMember? ==> f.verdict.None?) && (steps[n].1.Aggregate? && !f.settled ==> f.main.None?)
    ensures Recorded(states, steps, n + 1, c, f')
  {
    SettledMore(steps, n, c);
    SendPanickedMore(steps, n, c);
    TurnedAwayMore(states, steps, n, c);
    forall v ensures Judged(steps, n + 1, c, v) <==> f'.verdict == Some(v) {
      JudgedMore(steps, n, c, v);
    }
    forall x ensures MainCameTo(steps, n + 1, c, x) <==> f'.main == Some(x) {
      MainCameToMore(steps, n, c, x);
    }
  }

  // ---- The story of a call --------------------------------------------------------------

  /** Where a call stands against what it did. kept: its member is stored or absorbed. */
  ghost predicate Story(pc: Pc, kept: bool, f: Facts) {
    match pc
    case Arrived(_) => f == NOTHING
    case Ready(_, _) => f == Facts(Some(Complete), None, false, false, false)
    case Releasing(_, _, main) =>
      f == Facts(Some(Complete), if main then None else Some(SentOk), !main, false, false)
    case Sent(_, _, main) => f == Facts(Some(Complete), Some(SentOk), !main, false, false)
    case Draining(_, _) => f == Facts(Some(Complete), Some(SentOk), true, false, false)
    case Judging(_, _) => f == Facts(Some(Complete), Some(SentOk), true, false, false)
    case GivingBack(_, _) => f == Facts(Some(Complete), Some(SentOk), true, false, false)
    case Unwinding(_, _, main, outcome) =>
      && f.verdict == Some(Complete) && f.main.Some? && f.settled == !main && !f.turnedAway
      && !outcome.Nil? && (outcome.Panicked? <==> f.sendPanicked)
      && (if main then CameTo(f.main.value, outcome) else f.main == Some(SentOk))
    case Returned(outcome) => if kept then Explained(f, outcome) else outcome == OverCapOutcome(f)
    case _ => true
  }

  predicate CameTo(sending: Sending, outcome: Outcome) {
    match sending
    case SentOk => false
    case Failed(e) => outcome == Fault(e)
    case SendPanics => outcome == Panicked
  }

  ghost predicate Explained(f: Facts, outcome: Outcome) {
    && (forall e :: outcome == Fault(e) <==> f.verdict == Some(Undecidable(e)) || f.main == Some(Failed(e)))
    && (outcome == Panicked <==> f.verdict == Some(StrategyPanics) || f.sendPanicked)
    && (outcome == Nil <==> f.verdict == Some(Incomplete) || f.turnedAway || (f.settled && !f.sendPanicked))
  }

  function OverCapOutcome(f: Facts): Outcome {
    if f.sendPanicked then Panicked else Fault(OverflowRetryable())
  }

  /** The calls the story is about: Handle calls but those refused on the spot. */
  ghost predicate Told(s: State, c: nat) {
    && c in s.calls && c in s.ledger.handles
    && (Kept(s.ledger, c) || c in s.ledger.rescued || s.calls[c].Arrived? || s.calls[c].Ready?)
  }

  lemma StoryStep(s: State, c: nat, ev: Event, f: Facts)
    requires Enabled(s, c, ev) && c in s.calls && ReplyInv(c, s.calls[c], s.ledger) && c in s.ledger.handles
    requires ev.TryClaim? || ev.Aggregate? || ev.Settle? || ev.Abandon? || ev.Judge?
    requires Story(s.calls[c], Kept(s.ledger, c), f)
    ensures
      var t := Step(s, c, ev);
      c in t.calls && Story(t.calls[c], Kept(t.ledger, c), Record(f, ev, TurnedAwayAt(s, c, ev)))
  {
  }

  lemma StoryAfterAdd(key: string, reply: AddReply, verdict: Verdict, f: Facts)
    requires f == NOTHING.(verdict := Some(verdict))
    ensures
      var pc, kept := AfterAdd(key, reply, verdict), reply.err.None?;
      kept || pc.Ready? ==> Story(pc, kept, f)
  {
  }

  lemma StoryAdd(s: State, c: nat, ev: Event)
    requires ValidStore(s.store) && ev.AddMember? && Enabled(s, c, ev) && Told(Step(s, c, ev), c)
    requires ReplyInv(c, s.calls[c], s.ledger)
    ensures
      var t := Step(s, c, ev);
      Story(t.calls[c], Kept(t.ledger, c), Record(NOTHING, ev, false))
  {
    LedgerAfterAdd(s, c, ev.key, ev.verdict, ev.now);
    var reply := Add(s.store, ev.key, s.calls[c].msg, ev.now).1;
    StoryAfterAdd(ev.key, reply, ev.verdict, Record(NOTHING, ev, false));
  }

  lemma ToldBefore(s: State, a: nat, ev: Event, c: nat)
    requires Enabled(s, a, ev) && Told(Step(s, a, ev), c) && c in s.calls && ReplyInv(c, s.calls[c], s.ledger)
    ensures Told(s, c)
    ensures a != c ==> Step(s, a, ev).calls[c] == s.calls[c] && (Kept(Step(s, a, ev).ledger, c) <==> Kept(s.ledger, c))
  {
  }

  lemma {:induction false} NothingYet(states: seq<State>, steps: seq<(nat, Event)>, n: nat, c: nat)
    requires Run(states, steps) && n < |states| && c !in states[n].calls
    ensures Recorded(states, steps, n, c, NOTHING)
  {
    if n > 0 {
      assert c !in states[n - 1].calls && steps[n - 1].0 != c;
      NothingYet(states, steps, n - 1, c);
      RecordMore(states, steps, n - 1, c, NOTHING, NOTHING);
    }
  }

  ghost predicate StoryAt(s: State, c: nat, f: Facts)
    requires c in s.calls
  {
    Story(s.calls[c], Kept(s.ledger, c), f)
  }

  /** The story after one more step, from the story before. */
  lemma StoryNext(s: State, a: nat, ev: Event, c: nat, f: Facts) returns (f': Facts)
    requires Enabled(s, a, ev) && Told(Step(s, a, ev), c) && ValidStore(s.store)
    requires if c in s.calls then ReplyInv(c, s.calls[c], s.ledger) && (Told(s, c) ==> StoryAt(s, c, f))
      else f == NOTHING
    ensures StoryAt(Step(s, a, ev), c, f') && f' == if a == c then Record(f, ev, TurnedAwayAt(s, c, ev)) else f
    ensures a == c && ev.AddMember? ==> f.verdict.None?
    ensures a == c && ev.Aggregate? && !f.settled ==> f.main.None?
  {
    f' := if a == c then Record(f, ev, TurnedAwayAt(s, c, ev)) else f;
    if c in s.calls {
      ToldBefore(s, a, ev, c);
      if a == c && ev.AddMember? {
        StoryAdd(s, c, ev);
      } else if a == c {
        StoryStep(s, c, ev, f);
      }
    }
  }

  lemma {:induction false} StoryAlways(states: seq<State>, steps: seq<(nat, Event)>, n: nat, c: nat) returns (f: Facts)
    requires Run(states, steps) && n < |states| && Told(states[n], c)
    ensures Recorded(states, steps, n, c, f) && StoryAt(states[n], c, f)
  {
    var s, a, ev := states[n - 1], steps[n - 1].0, steps[n - 1].1;
    ReplyAlways(states, steps, n - 1, c);
    if c !in s.calls {
      NothingYet(states, steps, n - 1, c);
      f := NOTHING;
    } else {
      ToldBefore(s, a, ev, c);
      f := StoryAlways(states, steps, n - 1, c);
    }
    var f' := StoryNext(s, a, ev, c, f);
    RecordMore(states, steps, n - 1, c, f, f');
    f := f';
  }

  lemma KeptIsTold(states: seq<State>, steps: seq<(nat, Event)>, n: nat, c: nat)
    requires Run(states, steps) && n < |states| && Kept(states[n].ledger, c)
    ensures Told(states[n], c)
  {
    InvAlways(states, steps, n);
  }

  lemma ReplyAlways(states: seq<State>, steps: seq<(nat, Event)>, n: nat, c: nat)
    requires Run(states, steps) && n < |states|
    ensures ValidStore(states[n].store) && (c in states[n].calls ==> ReplyInv(c, states[n].calls[c], states[n].ledger))
  {
    InvAlways(states, steps, n);
  }

  // ---- Theorems -------------------------------------------------------------------------

  /** The answer of a Handle call that stored its member, exactly. It is the error e if and only
      if its strategy failed with e on the snapshot, or aggregating or sending the group it set out
      for did, before it settled anything. It is a panic if and only if the strategy panicked on the
      snapshot, or aggregating or sending any group did. It is nil, which acknowledges the message,
      if and only if the group was incomplete, or gone or leased at its claim, or it settled its
      claim and no send panicked. */
  lemma KeptAnswer(states: seq<State>, steps: seq<(nat, Event)>, n: nat, c: nat)
    requires Run(states, steps) && n < |states| && Kept(states[n].ledger, c)
    requires c in states[n].calls && states[n].calls[c].Returned?
    ensures
      var outcome := states[n].calls[c].outcome;
      && (forall e :: outcome == Fault(e) <==>
            Judged(steps, n, c, Undecidable(e)) || MainCameTo(steps, n, c, Failed(e)))
      && (outcome == Panicked <==> Judged(steps, n, c, StrategyPanics) || SendPanicked(steps, n, c))
      && (outcome == Nil <==>
            || Judged(steps, n, c, Incomplete) || TurnedAway(states, steps, n, c)
            || (Settled(steps, n, c) && !SendPanicked(steps, n, c)))
  {
    KeptIsTold(states, steps, n, c);
    var f := StoryAlways(states, steps, n, c);
  }

  /** The answer of a Handle call that stored nothing and went on to claim the full group: always
      the fresh overflow error, but for a panic of aggregating or sending. */
  lemma OverCapAnswer(states: seq<State>, steps: seq<(nat, Event)>, n: nat, c: nat)
    requires Run(states, steps) && n < |states| && c in states[n].ledger.rescued
    requires c in states[n].calls && states[n].calls[c].Returned?
    ensures states[n].calls[c].outcome == if SendPanicked(steps, n, c) then Panicked else Fault(OverflowRetryable())
  {
    ReplyAlways(states, steps, n, c);
    var f := StoryAlways(states, steps, n, c);
  }

  /** A message refused before it reached the store is answered with the cause. */
  lemma {:induction false} RefusedAnswer(
      states: seq<State>, steps: seq<(nat, Event)>, i: nat, n: nat, c: nat, e: Error)
    requires Run(states, steps) && i < n < |states| && steps[i] == (c, Refuse(e))
    ensures c in states[n].calls && states[n].calls[c] == Returned(Fault(e))
    decreases n
  {
    if n > i + 1 {
      RefusedAnswer(states, steps, i, n - 1, c, e);
    }
  }

  /** A visit of the reaper never fails: it ends with nil, but for a panic of aggregating or
      sending. */
  lemma ReaperAnswer(states: seq<State>, steps: seq<(nat, Event)>, n: nat, c: nat)
    requires Run(states, steps) && n < |states| && c !in states[n].ledger.handles
    requires c in states[n].calls && states[n].calls[c].Returned?
    ensures states[n].calls[c].outcome == if SendPanicked(steps, n, c) then Panicked else Nil
  {
    ReaperStoryAlways(states, steps, n, c);
  }

  ghost predicate ReaperStory(pc: Pc, sendPanicked: bool) {
    match pc
    case Unwinding(_, _, _, outcome) => outcome.Panicked? <==> sendPanicked
    case Returned(outcome) => outcome == if sendPanicked then Panicked else Nil
    case Crashed(_) => true
    case _ => !sendPanicked
  }

  lemma ReaperStoryStep(s: State, c: nat, ev: Event, sendPanicked: bool)
    requires Enabled(s, c, ev) && c in s.calls && ReplyInv(c, s.calls[c], s.ledger) && c !in s.ledger.handles
    requires ReaperStory(s.calls[c], sendPanicked)
    ensures
      var t := Step(s, c, ev);
      c in t.calls && ReaperStory(t.calls[c], sendPanicked || ev == Aggregate(SendPanics))
  {
  }

  lemma ReaperBefore(s: State, a: nat, ev: Event, c: nat)
    requires Enabled(s, a, ev) && c in Step(s, a, ev).calls && c !in Step(s, a, ev).ledger.handles
    ensures c !in s.ledger.handles
    ensures c !in s.calls ==> a == c && ev.Sweep?
    ensures c in s.calls && a != c ==> Step(s, a, ev).calls[c] == s.calls[c]
  {
  }

  lemma {:induction false} ReaperStoryAlways(states: seq<State>, steps: seq<(nat, Event)>, n: nat, c: nat)
    requires Run(states, steps) && n < |states| && c in states[n].calls && c !in states[n].ledger.handles
    ensures ReaperStory(states[n].calls[c], SendPanicked(steps, n, c))
  {
    var s, a, ev := states[n - 1], steps[n - 1].0, steps[n - 1].1;
    SendPanickedMore(steps, n - 1, c);
    ReaperBefore(s, a, ev, c);
    if c !in s.calls {
      NothingYet(states, steps, n - 1, c);
    } else {
      ReaperStoryAlways(states, steps, n - 1, c);
      if a == c {
        ReplyAlways(states, steps, n - 1, c);
        ReaperStoryStep(s, c, ev, SendPanicked(steps, n - 1, c));
      }
    }
  }
}
