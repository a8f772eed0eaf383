/** How a consumer settles a delivery, read off the events of a run: which answers of the codec, the
    handler and the sinks lead to an Ack with which fate, and which to a Nack. */
module ConsumerAnswers {
  import opened Reliability
  import opened Messages
  import opened QueueSpec
  import opened Consumer
  import opened ConsumerTheorems

  // ---- What happened to delivery k before step n ---------------------------------------------

  ghost predicate Did(events: seq<Event>, n: nat, ev: Event) {
    exists u :: 0 <= u < n && u < |events| && events[u] == ev
  }

  /** The codec or the handler answered with this error, or the handler with none. */
  ghost predicate Answered(events: seq<Event>, n: nat, k: nat, err: Option<Error>) {
    Did(events, n, HandlerReturns(k, err)) || (err.Some? && Did(events, n, DecodeFails(k, err.value)))
  }

  /** The poll loop stopped at the row of k. */
  ghost predicate AbortedOn(states: seq<State>, events: seq<Event>, n: nat, k: nat)
    requires |states| == |events| + 1
  {
    exists u :: 0 <= u < n && u < |events| && StopsOn(states[u], events[u], k)
  }

  predicate StopsOn(s: State, ev: Event, k: nat) {
    ev.AbortHandoff? && s.batch != [] && s.batch[0] == k
  }

  // ---- The same as a value ---------------------------------------------------------------------

  datatype Facts = Facts(aborted: bool, refused: bool, answer: Option<Option<Error>>, nowhere: bool,
                         invalid: Option<(bool, bool)>, counted: bool, dead: Option<bool>)

  const NOTHING := Facts(false, false, None, false, None, false, None)

  ghost predicate Recorded(states: seq<State>, events: seq<Event>, n: nat, k: nat, f: Facts)
    requires |states| == |events| + 1
  {
    && (AbortedOn(states, events, n, k) <==> f.aborted)
    && (Did(events, n, Refuse(k)) <==> f.refused)
    && (forall err :: Answered(events, n, k, err) <==> f.answer == Some(err))
    && (Did(events, n, NoTarget(k)) <==> f.nowhere)
    && (forall ok, down :: Did(events, n, SendInvalid(k, ok, down)) <==> f.invalid == Some((ok, down)))
    && (Did(events, n, CountAttempt(k)) <==> f.counted)
    && (forall ok :: Did(events, n, SendDead(k, ok)) <==> f.dead == Some(ok))
  }

  function Record(f: Facts, s: State, ev: Event, k: nat): Facts {
    Facts(f.aborted || StopsOn(s, ev, k), f.refused || ev == Refuse(k), AnswerAfter(f.answer, ev, k),
          f.nowhere || ev == NoTarget(k), InvalidAfter(f.invalid, ev, k), f.counted || ev == CountAttempt(k),
          DeadAfter(f.dead, ev, k))
  }

  function AnswerAfter(answer: Option<Option<Error>>, ev: Event, k: nat): Option<Option<Error>> {
    if ev.DecodeFails? && ev.k == k then Some(Some(ev.cause))
    else if ev.HandlerReturns? && ev.k == k then Some(ev.err)
    else answer
  }

  function InvalidAfter(invalid: Option<(bool, bool)>, ev: Event, k: nat): Option<(bool, bool)> {
    if ev.SendInvalid? && ev.k == k then Some((ev.ok, ev.down)) else invalid
  }

  function DeadAfter(dead: Option<bool>, ev: Event, k: nat): Option<bool> {
    if ev.SendDead? && ev.k == k then Some(ev.ok) else dead
  }

  /** Each is answered once. */
  predicate Once(f: Facts, ev: Event, k: nat) {
    && ((ev.DecodeFails? || ev.HandlerReturns?) && ev.k == k ==> f.answer.None?)
    && (ev.SendInvalid? && ev.k == k ==> f.invalid.None?)
    && (ev.SendDead? && ev.k == k ==> f.dead.None?)
  }

  lemma DidMore(events: seq<Event>, n: nat, ev: Event)
    requires n < |events|
    ensures Did(events, n + 1, ev) <==> Did(events, n, ev) || events[n] == ev
  {
  }

  lemma AnsweredMore(events: seq<Event>, n: nat, k: nat, err: Option<Error>)
    requires n < |events|
    ensures Answered(events, n + 1, k, err) <==>
      || Answered(events, n, k, err) || events[n] == HandlerReturns(k, err)
      || (err.Some? && events[n] == DecodeFails(k, err.value))
  {
    DidMore(events, n, HandlerReturns(k, err));
    if err.Some? {
      DidMore(events, n, DecodeFails(k, err.value));
    }
  }

  lemma AbortedMore(states: seq<State>, events: seq<Event>, n: nat, k: nat)
    requires n < |events| && |states| == |events| + 1
    ensures AbortedOn(states, events, n + 1, k) <==> AbortedOn(states, events, n, k) || StopsOn(states[n], events[n], k)
  {
  }

  lemma AnswerMore(events: seq<Event>, n: nat, k: nat, f: Facts)
    requires n < |events| && Once(f, events[n], k)
    requires forall err :: Answered(events, n, k, err) <==> f.answer == Some(err)
    ensures forall err :: Answered(events, n + 1, k, err) <==> AnswerAfter(f.answer, events[n], k) == Some(err)
  {
    forall err ensures Answered(events, n + 1, k, err) <==> AnswerAfter(f.answer, events[n], k) == Some(err) {
      AnsweredMore(events, n, k, err);
    }
  }

  lemma InvalidMore(events: seq<Event>, n: nat, k: nat, f: Facts)
    requires n < |events| && Once(f, events[n], k)
    requires forall ok, down :: Did(events, n, SendInvalid(k, ok, down)) <==> f.invalid == Some((ok, down))
    ensures forall ok, down :: Did(events, n + 1, SendInvalid(k, ok, down)) <==>
      InvalidAfter(f.invalid, events[n], k) == Some((ok, down))
  {
    forall ok, down ensures Did(events, n + 1, SendInvalid(k, ok, down)) <==>
      InvalidAfter(f.invalid, events[n], k) == Some((ok, down))
    {
      DidMore(events, n, SendInvalid(k, ok, down));
    }
  }

  lemma DeadMore(events: seq<Event>, n: nat, k: nat, f: Facts)
    requires n < |events| && Once(f, events[n], k)
    requires forall ok :: Did(events, n, SendDead(k, ok)) <==> f.dead == Some(ok)
    ensures forall ok :: Did(events, n + 1, SendDead(k, ok)) <==> DeadAfter(f.dead, events[n], k) == Some(ok)
  {
    forall ok ensures Did(events, n + 1, SendDead(k, ok)) <==> DeadAfter(f.dead, events[n], k) == Some(ok) {
      DidMore(events, n, SendDead(k, ok));
    }
  }

  lemma RecordMore(states: seq<State>, events: seq<Event>, n: nat, k: nat, f: Facts)
    requires n < |events| && |states| == |events| + 1 && Recorded(states, events, n, k, f) && Once(f, events[n], k)
    ensures Recorded(states, events, n + 1, k, Record(f, states[n], events[n], k))
  {
    AbortedMore(states, events, n, k);
    DidMore(events, n, Refuse(k));
    DidMore(events, n, NoTarget(k));
    DidMore(events, n, CountAttempt(k));
    AnswerMore(events, n, k, f);
    InvalidMore(events, n, k, f);
    DeadMore(events, n, k, f);
  }

  // ---- The story of a delivery -------------------------------------------------------------------

  /** Where a delivery stands, against what happened to it. */
  predicate Story(pc: Pc, f: Facts) {
    match pc
    case Polled => f == NOTHING
    case Waiting => f == NOTHING
    case Succeeded => f == NOTHING.(answer := Some(None))
    case Invalid(cause) => f == NOTHING.(answer := Some(Some(cause)))
    case Failed(cause) => f == NOTHING.(answer := Some(Some(cause)))
    case Exhausted(cause) => f == NOTHING.(answer := Some(Some(cause)), counted := true)
    case Accepted(sink, cause) =>
      && f.answer == Some(Some(cause)) && !f.aborted && !f.refused && !f.nowhere
      && (if f.counted then f.dead == Some(true) && f.invalid.None? && sink == DeadLetterSink
          else f.dead.None? && f.invalid.Some? && f.invalid.value.0)
    case Discarding(reason, cause) =>
      && f.answer == Some(Some(cause)) && !f.aborted && !f.refused && !f.counted && f.dead.None?
      && (if f.nowhere then reason.NowhereToSend? && f.invalid.None?
          else reason.SinkRefused? && f.invalid == Some((false, false)))
    case Retrying => Undelivered(f)
    case _ => true
  }

  /** The five reasons for a redelivery, exactly one of which holds. */
  predicate Undelivered(f: Facts) {
    || f == NOTHING.(aborted := true)
    || f == NOTHING.(refused := true)
    || (f.answer.Some? && f.answer.value.Some? &&
        (|| f == NOTHING.(answer := f.answer, invalid := Some((false, true)))
         || f == NOTHING.(answer := f.answer, counted := true)
         || f == NOTHING.(answer := f.answer, counted := true, dead := Some(false))))
  }

  lemma StoryStep(s: State, ev: Event, k: nat, f: Facts)
    requires Enabled(s, ev) && k in s.workers && Story(s.workers[k], f) && k <= s.q.epoch
    requires forall j :: j in s.batch ==> j in s.workers && s.workers[j].Polled?
    ensures Once(f, ev, k) && k in Step(s, ev).workers && Story(Step(s, ev).workers[k], Record(f, s, ev, k))
  {
    if !Simple(ev) {
      StoryOther(s, ev, k, f);
    } else if ev.k == k {
      StorySimple(s, ev, f);
    } else {
      NotConcerned(s, ev, k, f);
    }
  }

  lemma NotConcerned(s: State, ev: Event, k: nat, f: Facts)
    requires Simple(ev) && Enabled(s, ev) && ev.k != k
    ensures Record(f, s, ev, k) == f && Once(f, ev, k)
    ensures k in s.workers ==> k in Step(s, ev).workers && Step(s, ev).workers[k] == s.workers[k]
  {
  }

  lemma StorySimple(s: State, ev: Event, f: Facts)
    requires Simple(ev) && Enabled(s, ev) && Story(s.workers[ev.k], f)
    ensures Once(f, ev, ev.k) && Story(NextPc(s, ev), Record(f, s, ev, ev.k))
  {
  }

  lemma StoryOther(s: State, ev: Event, k: nat, f: Facts)
    requires Enabled(s, ev) && !Simple(ev) && k in s.workers && Story(s.workers[k], f) && k <= s.q.epoch
    requires forall j :: j in s.batch ==> j in s.workers && s.workers[j].Polled?
    ensures k in Step(s, ev).workers && Story(Step(s, ev).workers[k], Record(f, s, ev, k))
  {
    if ev.HandOver? || ev.AbortHandoff? {
      assert s.batch[0] in s.batch;
    }
  }

  lemma StoryNew(s: State, ev: Event, k: nat)
    requires Enabled(s, ev) && k !in s.workers && (forall j :: j in s.batch ==> j in s.workers)
    ensures Record(NOTHING, s, ev, k) == NOTHING && Once(NOTHING, ev, k)
    ensures k in Step(s, ev).workers ==> Step(s, ev).workers[k] == Polled
  {
    if ev.HandOver? || ev.AbortHandoff? {
      assert s.batch[0] in s.batch;
    }
  }

  lemma WorkersAlways(states: seq<State>, events: seq<Event>, t: nat, k: nat)
    requires Run(states, events) && t < |states|
    ensures
      var s := states[t];
      && (k in s.workers ==> k <= s.q.epoch)
      && (forall j :: j in s.batch ==> j in s.workers && s.workers[j].Polled?)
  {
    InvAlways(states, events, t);
    if k in states[t].workers {
      assert WorkerOk(states[t], k);
    }
  }

  lemma {:induction false} StoryAlways(states: seq<State>, events: seq<Event>, t: nat, k: nat) returns (f: Facts)
    requires Run(states, events) && t < |states|
    ensures Recorded(states, events, t, k, f)
    ensures if k in states[t].workers then Story(states[t].workers[k], f) else f == NOTHING
  {
    if t == 0 {
      return NOTHING;
    }
    f := StoryAlways(states, events, t - 1, k);
    WorkersAlways(states, events, t - 1, k);
    assert StepAt(states, events, t - 1);
    if k in states[t - 1].workers {
      StoryStep(states[t - 1], events[t - 1], k, f);
    } else {
      StoryNew(states[t - 1], events[t - 1], k);
    }
    RecordMore(states, events, t - 1, k, f);
    f := Record(f, states[t - 1], events[t - 1], k);
  }

  // ---- Theorems --------------------------------------------------------------------------------------

  /** The invalid-message target accepted it. */
  ghost predicate SinkTook(events: seq<Event>, t: nat, k: nat) {
    Did(events, t, SendInvalid(k, true, false)) || Did(events, t, SendInvalid(k, true, true))
  }

  /** The fate a delivery is acked with, exactly: handled if and only if the handler returned nil;
      discarded for want of a sink, or as refused by one, if and only if that happened; sunk if and
      only if the invalid-message target or the dead-letter sink accepted it. The cause is what the
      codec or the handler answered. */
  lemma AckedBecause(states: seq<State>, events: seq<Event>, t: nat, k: nat)
    requires Run(states, events) && t < |events| && events[t] == AckNow(k) && StepAt(states, events, t)
    ensures
      var c := MsgOf(states[t], k).delivery;
      c in states[t + 1].fate && AckedAs(events, t, k, states[t + 1].fate[c])
  {
    var f := StoryAlways(states, events, t, k);
    AckedOnce(states, events, t, k, states[t].workers[k], f);
  }

  ghost predicate AckedAs(events: seq<Event>, t: nat, k: nat, fate: Fate) {
    && (fate.Handled? <==> Answered(events, t, k, None))
    && (!fate.Handled? ==> Answered(events, t, k, Some(fate.cause)))
    && (fate.Discarded? && fate.reason.NowhereToSend? <==> Did(events, t, NoTarget(k)))
    && (fate.Discarded? && fate.reason.SinkRefused? <==> Did(events, t, SendInvalid(k, false, false)))
    && (fate.Sunk? <==> SinkTook(events, t, k) || Did(events, t, SendDead(k, true)))
    && (Did(events, t, SendDead(k, true)) ==> fate.Sunk? && fate.sink == DeadLetterSink)
  }

  lemma AckedOnce(states: seq<State>, events: seq<Event>, t: nat, k: nat, pc: Pc, f: Facts)
    requires |states| == |events| + 1 && Recorded(states, events, t, k, f) && Story(pc, f) && Acking(pc)
    ensures AckedAs(events, t, k, FateOf(pc))
  {
    if pc.Accepted? && !f.counted {
      var down := f.invalid.value.1;
      assert Did(events, t, SendInvalid(k, true, down));
      assert down == true || down == false;
    }
  }

  /** A delivery is nacked, back to the queue, for exactly one of four reasons: the poll loop stopped
      at its row; it was refused before it was handled; its sink failed while the consumer was
      shutting down; or its failure counts as an attempt, short of the limit or with a dead-letter
      sink that refused it. So none is redelivered that was handled, discarded or accepted by a
      sink. */
  lemma NackedBecause(states: seq<State>, events: seq<Event>, t: nat, k: nat)
    requires Run(states, events) && t < |events| && events[t].NackNow? && events[t].k == k && StepAt(states, events, t)
    ensures Redelivered(states, events, t, k) && !Ended(events, t, k)
  {
    var f := StoryAlways(states, events, t, k);
    RedeliveredOnce(states, events, t, k, f);
  }

  /** Handled, discarded, or accepted by a sink. */
  ghost predicate Ended(events: seq<Event>, t: nat, k: nat) {
    || Answered(events, t, k, None) || Did(events, t, NoTarget(k)) || SinkTook(events, t, k)
    || Did(events, t, SendInvalid(k, false, false)) || Did(events, t, SendDead(k, true))
  }

  /** One of the four, and no two. */
  ghost predicate Redelivered(states: seq<State>, events: seq<Event>, t: nat, k: nat)
    requires |states| == |events| + 1
  {
    var aborted, refused := AbortedOn(states, events, t, k), Did(events, t, Refuse(k));
    var down, counted := Did(events, t, SendInvalid(k, false, true)), Did(events, t, CountAttempt(k));
    && (aborted || refused || down || counted)
    && !(aborted && refused) && !((aborted || refused) && (down || counted)) && !(down && counted)
    && (Did(events, t, SendDead(k, false)) ==> counted)
  }

  lemma RedeliveredOnce(states: seq<State>, events: seq<Event>, t: nat, k: nat, f: Facts)
    requires |states| == |events| + 1 && Recorded(states, events, t, k, f) && Undelivered(f)
    ensures Redelivered(states, events, t, k) && !Ended(events, t, k)
  {
  }

  /** A poll loop that has stopped claims nothing more. */
  lemma {:induction false} NoClaimAfterStop(states: seq<State>, events: seq<Event>, u: nat, t: nat)
    requires Run(states, events) && u < t < |states| && (events[u].StopPolling? || events[u].AbortHandoff?)
    ensures states[t].stopped && (t < |events| ==> !events[t].ClaimSome?)
    decreases t
  {
    assert StepAt(states, events, t - 1);
    if u < t - 1 {
      NoClaimAfterStop(states, events, u, t - 1);
      StoppedStays(states[t - 1], events[t - 1]);
    }
    if t < |events| {
      assert StepAt(states, events, t);
    }
  }
}
