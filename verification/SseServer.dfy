/** adapter/http/sse_server.go: the replay ring, and every interleaving of Send, registration,
    connection writers and Close. A frame is named by a number that stands for its bytes. */
module SseServer {

  datatype Sent = Sent(id: string, frame: nat)

  function Frames(entries: seq<Sent>): seq<nat> {
    if entries == [] then [] else Frames(entries[..|entries| - 1]) + [entries[|entries| - 1].frame]
  }

  lemma FramesAppend(entries: seq<Sent>, e: Sent)
    ensures Frames(entries + [e]) == Frames(entries) + [e.frame]
  {
    assert (entries + [e])[..|entries|] == entries;
  }

  /** The last entry with the id, if any. */
  function LastIndex(entries: seq<Sent>, id: string): (k: int)
    ensures -1 <= k < |entries|
  {
    if entries == [] then -1
    else if entries[|entries| - 1].id == id then |entries| - 1
    else LastIndex(entries[..|entries| - 1], id)
  }

  predicate IsLastIndex(entries: seq<Sent>, id: string, k: int) {
    && -1 <= k < |entries| && (k >= 0 ==> entries[k].id == id)
    && forall i :: k < i < |entries| ==> entries[i].id != id
  }

  lemma {:induction false} LastIndexIs(entries: seq<Sent>, id: string, k: int)
    requires IsLastIndex(entries, id, k)
    ensures LastIndex(entries, id) == k
    decreases |entries|
  {
    if k < |entries| - 1 {
      LastIndexIs(entries[..|entries| - 1], id, k);
    }
  }

  lemma {:induction false} LastIndexFound(entries: seq<Sent>, id: string)
    ensures IsLastIndex(entries, id, LastIndex(entries, id))
    decreases |entries|
  {
    if entries != [] && entries[|entries| - 1].id != id {
      LastIndexFound(entries[..|entries| - 1], id);
    }
  }

  /** replayAfter: what follows the last entry with the id; nothing when it is not there. */
  function ReplayAfter(ring: seq<Sent>, id: string): seq<nat> {
    var k := LastIndex(ring, id);
    if k < 0 then [] else Frames(ring[k + 1..])
  }

  /** appendRing: the oldest go, so that at most max remain. */
  function AppendRing(ring: seq<Sent>, e: Sent, max: nat): seq<Sent>
    requires max >= 1
  {
    (if |ring| >= max then ring[|ring| - max + 1..] else ring) + [e]
  }

  /** The ring in its own form: the surviving entries are shifted down in one backing array. */
  class ReplayRing {
    const max: nat
    var buf: array<Sent>
    var len: nat

    ghost predicate Valid()
      reads this
    {
      max >= 1 && buf.Length == max && len <= max
    }

    ghost function Value(): seq<Sent>
      reads this, buf
      requires Valid()
    {
      buf[..len]
    }

    constructor (max: nat)
      requires max >= 1
      ensures Valid() && Value() == [] && this.max == max && fresh(buf)
    {
      this.max := max;
      buf, len := new Sent[max], 0;
    }

    method Append(e: Sent)
      requires Valid()
      modifies this`len, buf
      ensures Valid() && Value() == AppendRing(old(Value()), e, max)
    {
      if len >= max {
        ShiftDown(len - max + 1);
      }
      buf[len] := e;
      len := len + 1;
    }

    /** copy(s.ring, s.ring[from:]), and the shorter slice. */
    method ShiftDown(from: nat)
      requires Valid() && 1 <= from <= len
      modifies this`len, buf
      ensures Valid() && len == old(len) - from && Value() == old(Value())[from..]
    {
      ghost var before := Value();
      var i := 0;
      while from + i < len
        invariant 0 <= i <= len - from && len == old(len) && Valid() && |before| == len
        invariant forall j :: 0 <= j < i ==> buf[j] == before[from + j]
        invariant forall j :: i <= j < len ==> buf[j] == before[j]
      {
        buf[i] := buf[from + i];
        i := i + 1;
      }
      len := i;
    }

    method Replay(id: string) returns (frames: seq<nat>)
      requires Valid()
      ensures frames == ReplayAfter(Value(), id)
    {
      var idx := FindLast(id);
      LastIndexIs(Value(), id, idx);
      if idx < 0 {
        return [];
      }
      frames := FramesFrom(idx + 1);
      assert Value()[idx + 1..] == buf[idx + 1..len];
    }

    method FindLast(id: string) returns (idx: int)
      requires Valid()
      ensures IsLastIndex(Value(), id, idx)
    {
      idx := -1;
      var i := 0;
      while i < len
        invariant 0 <= i <= len && -1 <= idx < i
        invariant idx >= 0 ==> buf[idx].id == id
        invariant forall j :: idx < j < i ==> buf[j].id != id
      {
        if buf[i].id == id {
          idx := i;
        }
        i := i + 1;
      }
    }

    method FramesFrom(start: nat) returns (frames: seq<nat>)
      requires Valid() && start <= len
      ensures frames == Frames(buf[start..len])
    {
      frames := [];
      var i := start;
      while i < len
        invariant start <= i <= len && frames == Frames(buf[start..i])
      {
        FramesAppend(buf[start..i], buf[i]);
        assert buf[start..i + 1] == buf[start..i] + [buf[i]];
        frames := frames + [buf[i].frame];
        i := i + 1;
      }
    }
  }

  // ---- The machine ---------------------------------------------------------------------------

  /** A connection: what is left of its replay snapshot, its buffered live frames, what its
      writer has written, and the record of its registration. */
  datatype Conn = Conn(replay: seq<nat>, frames: seq<nat>, written: seq<nat>, cancelled: bool, lost: bool,
                       lastId: string, since: nat)

  datatype State = State(ring: seq<Sent>, size: nat, buffer: nat, maxConns: nat, disconnect: bool, closed: bool,
                         conns: map<nat, Conn>, history: seq<Sent>)

  datatype Event =
    | Send(entry: Sent)
    | Register(c: nat, lastId: string)
    | WriteReplay(c: nat)
    | WriteLive(c: nat)
    | Leave(c: nat)            // the writer has ended; the handler unregisters
    | Close

  predicate Enabled(s: State, ev: Event) {
    match ev
    case Send(_) => true
    case Register(c, _) => c !in s.conns
    case WriteReplay(c) => c in s.conns && s.conns[c].replay != []
    case WriteLive(c) => c in s.conns && s.conns[c].replay == [] && s.conns[c].frames != []
    case Leave(c) => c in s.conns
    case Close => true
  }

  /** The non-blocking enqueue of one connection. */
  function Offer(s: State, conn: Conn, frame: nat): Conn {
    if |conn.frames| < s.buffer then conn.(frames := conn.frames + [frame])
    else if s.disconnect then conn.(cancelled := true, lost := true)
    else conn.(lost := true)
  }

  function StepSend(s: State, e: Sent): State {
    if s.closed then s
    else
      s.(ring := if s.size > 0 && e.id != "" then AppendRing(s.ring, e, s.size) else s.ring,
         conns := map c | c in s.conns :: Offer(s, s.conns[c], e.frame),
         history := s.history + [e])
  }

  /** The snapshot of the ring is taken under the same lock as the registration. */
  function StepRegister(s: State, c: nat, lastId: string): State {
    var replay := if s.size > 0 && lastId != "" then ReplayAfter(s.ring, lastId) else [];
    s.(conns := s.conns[c := Conn(replay, [], [], false, false, lastId, |s.history|)])
  }

  function Step(s: State, ev: Event): State
    requires Enabled(s, ev)
  {
    match ev
    case Send(e) => StepSend(s, e)
    case Register(c, lastId) =>
      if s.closed || |s.conns| >= s.maxConns then s
      else StepRegister(s, c, lastId)
    case WriteReplay(c) =>
      var conn := s.conns[c];
      s.(conns := s.conns[c := conn.(replay := conn.replay[1..], written := conn.written + [conn.replay[0]])])
    case WriteLive(c) =>
      var conn := s.conns[c];
      s.(conns := s.conns[c := conn.(frames := conn.frames[1..], written := conn.written + [conn.frames[0]])])
    case Leave(c) => s.(conns := s.conns - {c})
    case Close => s.(closed := true)
  }

  predicate Init(s: State) {
    s.ring == [] && !s.closed && s.conns == map[] && s.history == []
  }

  predicate StepAt(states: seq<State>, events: seq<Event>, t: nat)
    requires t < |events| && |states| == |events| + 1
  {
    Enabled(states[t], events[t]) && states[t + 1] == Step(states[t], events[t])
  }

  predicate Run(states: seq<State>, events: seq<Event>) {
    && |states| == |events| + 1 && Init(states[0])
    && forall t :: 0 <= t < |events| ==> StepAt(states, events, t)
  }

  // ---- The ring is the end of the history ---------------------------------------------------------

  /** The sends that carry an id. */
  function WithId(history: seq<Sent>): seq<Sent> {
    if history == [] then []
    else WithId(history[..|history| - 1]) + if history[|history| - 1].id != "" then [history[|history| - 1]] else []
  }

  function LastN(entries: seq<Sent>, n: nat): seq<Sent> {
    if |entries| <= n then entries else entries[|entries| - n..]
  }

  lemma WithIdAppend(history: seq<Sent>, e: Sent)
    ensures WithId(history + [e]) == WithId(history) + if e.id != "" then [e] else []
  {
    assert (history + [e])[..|history|] == history;
  }

  lemma LastNAppend(entries: seq<Sent>, e: Sent, n: nat)
    requires n >= 1
    ensures LastN(entries + [e], n) == AppendRing(LastN(entries, n), e, n)
  {
  }

  predicate RingInv(s: State) {
    s.ring == LastN(WithId(s.history), s.size)
  }

  lemma RingStep(s: State, ev: Event)
    requires RingInv(s) && Enabled(s, ev)
    ensures RingInv(Step(s, ev)) && Step(s, ev).size == s.size
  {
    if ev.Send? && !s.closed {
      WithIdAppend(s.history, ev.entry);
      if ev.entry.id != "" && s.size > 0 {
        LastNAppend(WithId(s.history), ev.entry, s.size);
      }
    }
  }

  // ---- What a connection gets ------------------------------------------------------------------------

  /** What a client that resumes after lastId, with this history, has missed and can still get. */
  function Missed(history: seq<Sent>, size: nat, lastId: string): seq<nat> {
    if lastId == "" then [] else ReplayAfter(LastN(WithId(history), size), lastId)
  }

  /** A connection that lost nothing: written, then the rest of the replay, then the buffered
      frames, are exactly the missed frames and every frame sent since it registered. */
  predicate ConnOk(s: State, c: nat)
    requires c in s.conns
  {
    var conn := s.conns[c];
    && conn.since <= |s.history|
    && (conn.lost ||
        conn.written + conn.replay + conn.frames ==
          Missed(s.history[..conn.since], s.size, conn.lastId) + Frames(s.history[conn.since..]))
  }

  ghost predicate ConnsInv(s: State) {
    forall c :: c in s.conns ==> ConnOk(s, c)
  }

  lemma ConnSend(s: State, e: Sent, c: nat)
    requires c in s.conns && ConnOk(s, c) && !s.closed
    ensures ConnOk(StepSend(s, e), c)
  {
    var t, conn := StepSend(s, e), s.conns[c];
    assert t.history[..conn.since] == s.history[..conn.since];
    assert t.history[conn.since..] == s.history[conn.since..] + [e];
    FramesAppend(s.history[conn.since..], e);
    var missed := Missed(s.history[..conn.since], s.size, conn.lastId);
    assert conn.written + conn.replay + (conn.frames + [e.frame]) == conn.written + conn.replay + conn.frames
      + [e.frame];
    assert missed + (Frames(s.history[conn.since..]) + [e.frame]) == missed + Frames(s.history[conn.since..])
      + [e.frame];
  }

  lemma ConnRegister(s: State, c: nat, lastId: string)
    requires RingInv(s)
    ensures ConnOk(StepRegister(s, c, lastId), c)
  {
    ReplayIsMissed(s, lastId);
    ConnFresh(StepRegister(s, c, lastId), c);
  }

  lemma ReplayIsMissed(s: State, lastId: string)
    requires RingInv(s)
    ensures Missed(s.history, s.size, lastId) ==
      if s.size > 0 && lastId != "" then ReplayAfter(s.ring, lastId) else []
  {
    if s.size == 0 {
      assert LastN(WithId(s.history), 0) == [];
    }
  }

  lemma ConnFresh(s: State, c: nat)
    requires c in s.conns && s.conns[c].since == |s.history|
    requires s.conns[c].written == [] && s.conns[c].frames == []
    requires s.conns[c].replay == Missed(s.history, s.size, s.conns[c].lastId)
    ensures ConnOk(s, c)
  {
    assert s.history[..|s.history|] == s.history && s.history[|s.history|..] == [];
  }

  lemma ConnWrite(s: State, ev: Event)
    requires Enabled(s, ev) && (ev.WriteReplay? || ev.WriteLive?) && ConnOk(s, ev.c)
    ensures ConnOk(Step(s, ev), ev.c)
  {
    var conn := s.conns[ev.c];
    if ev.WriteReplay? {
      Shift(conn.written, conn.replay, conn.frames);
    } else {
      Shift(conn.written, conn.frames, []);
      assert conn.written + [] == conn.written;
      assert Step(s, ev).conns[ev.c].written + [] == Step(s, ev).conns[ev.c].written;
    }
  }

  /** The first of b moves to the end of a. */
  lemma Shift(a: seq<nat>, b: seq<nat>, c: seq<nat>)
    requires b != []
    ensures a + [b[0]] + b[1..] + c == a + b + c
    ensures a + [b[0]] + b[1..] == a + b
  {
    assert b == [b[0]] + b[1..];
  }

  lemma ConnsStep(s: State, ev: Event)
    requires RingInv(s) && ConnsInv(s) && Enabled(s, ev)
    ensures ConnsInv(Step(s, ev))
  {
    var t := Step(s, ev);
    forall c | c in t.conns ensures ConnOk(t, c) {
      assert c in s.conns ==> ConnOk(s, c);
      match ev
      case Send(e) =>
        if !s.closed {
          ConnSend(s, e, c);
        }
      case Register(d, lastId) =>
        if c == d {
          ConnRegister(s, d, lastId);
        }
      case WriteReplay(d) => ConnWrite(s, ev);
      case WriteLive(d) => ConnWrite(s, ev);
      case _ =>
    }
  }

  /** Buffers and the number of connections keep to their bounds. */
  ghost predicate BoundsInv(s: State) {
    |s.conns| <= s.maxConns && forall c :: c in s.conns ==> |s.conns[c].frames| <= s.buffer
  }

  lemma BoundsStep(s: State, ev: Event)
    requires BoundsInv(s) && Enabled(s, ev)
    ensures BoundsInv(Step(s, ev))
  {
    if ev.Send? && !s.closed {
      BoundsSend(s, ev.entry);
    } else if ev.Leave? {
      FewerConns(s.conns, ev.c);
    }
  }

  lemma FewerConns(m: map<nat, Conn>, c: nat)
    ensures |m - {c}| <= |m|
  {
    assert (m - {c}).Keys == m.Keys - {c};
  }

  lemma BoundsSend(s: State, e: Sent)
    requires BoundsInv(s) && !s.closed
    ensures BoundsInv(StepSend(s, e))
  {
    assert StepSend(s, e).conns.Keys == s.conns.Keys;
  }

  lemma {:induction false} InvAlways(states: seq<State>, events: seq<Event>, t: nat)
    requires Run(states, events) && t < |states|
    ensures RingInv(states[t]) && ConnsInv(states[t]) && BoundsInv(states[t])
  {
    if t > 0 {
      InvAlways(states, events, t - 1);
      assert StepAt(states, events, t - 1);
      RingStep(states[t - 1], events[t - 1]);
      ConnsStep(states[t - 1], events[t - 1]);
      BoundsStep(states[t - 1], events[t - 1]);
    }
  }

  // ---- Theorems -------------------------------------------------------------------------------------

  /** The ring is always the last n sends that carry an id. */
  lemma RingIsLastN(states: seq<State>, events: seq<Event>, t: nat)
    requires Run(states, events) && t < |states|
    ensures states[t].ring == LastN(WithId(states[t].history), states[t].size)
  {
    InvAlways(states, events, t);
  }

  /** A slow client costs no more than its buffer, and the connection cap is never exceeded. */
  lemma HubIsBounded(states: seq<State>, events: seq<Event>, t: nat)
    requires Run(states, events) && t < |states|
    ensures |states[t].conns| <= states[t].maxConns
    ensures forall c :: c in states[t].conns ==> |states[t].conns[c].frames| <= states[t].buffer
  {
    InvAlways(states, events, t);
  }

  // ---- The record of a connection --------------------------------------------------------------------

  /** The sends accepted: those before Close. */
  function AcceptedSends(events: seq<Event>, t: nat): seq<Sent>
    requires t <= |events|
  {
    if t == 0 then []
    else if events[t - 1].Send? && !ClosedBefore(events, t - 1) then
      AcceptedSends(events, t - 1) + [events[t - 1].entry]
    else AcceptedSends(events, t - 1)
  }

  predicate ClosedBefore(events: seq<Event>, t: nat)
    requires t <= |events|
  {
    exists u :: 0 <= u < t && events[u].Close?
  }

  /** The history is the accepted sends, whatever connections come and go. */
  lemma {:induction false} HistoryIs(states: seq<State>, events: seq<Event>, t: nat)
    requires Run(states, events) && t < |states|
    ensures states[t].history == AcceptedSends(events, t)
    ensures states[t].closed <==> ClosedBefore(events, t)
  {
    if t > 0 {
      HistoryIs(states, events, t - 1);
      assert StepAt(states, events, t - 1);
      assert ClosedBefore(events, t) <==> ClosedBefore(events, t - 1) || events[t - 1].Close?;
    }
  }

  /** A request is given a connection if and only if the server is open and below its cap. */
  lemma RegisteredIff(states: seq<State>, events: seq<Event>, t: nat, c: nat, lastId: string)
    requires Run(states, events) && t < |events| && events[t] == Register(c, lastId)
    ensures c in states[t + 1].conns <==> !ClosedBefore(events, t) && |states[t].conns| < states[t].maxConns
    ensures states[t + 1].conns - {c} == states[t].conns
  {
    assert StepAt(states, events, t);
    HistoryIs(states, events, t);
  }

  /** An accepted send at u finds the buffer of c full. */
  predicate FindsFull(states: seq<State>, events: seq<Event>, c: nat, u: nat)
    requires |states| == |events| + 1
  {
    && u < |events| && events[u].Send? && !ClosedBefore(events, u)
    && c in states[u].conns && |states[u].conns[c].frames| == states[u].buffer
  }

  /** Connection c was registered by step r and has been there since. */
  predicate RegisteredAt(states: seq<State>, events: seq<Event>, t: nat, c: nat, r: nat)
    requires |states| == |events| + 1 && t < |states|
  {
    && r < t && events[r].Register? && events[r].c == c && c !in states[r].conns
    && forall u :: r < u <= t ==> c in states[u].conns
  }

  predicate SomeFull(states: seq<State>, events: seq<Event>, c: nat, r: nat, t: nat)
    requires |states| == |events| + 1
  {
    exists u :: r < u < t && FindsFull(states, events, c, u)
  }

  /** What a step from s to t does to the record of c. */
  predicate Carries(s: State, ev: Event, t: State, c: nat) {
    && c in s.conns && c in t.conns
    && var conn, conn' := s.conns[c], t.conns[c];
       var full := ev.Send? && !s.closed && |conn.frames| == s.buffer;
       && conn'.lastId == conn.lastId && conn'.since == conn.since
       && (conn'.lost <==> conn.lost || full)
       && (conn'.cancelled <==> conn.cancelled || (full && s.disconnect))
  }

  lemma RecordStep(s: State, ev: Event, c: nat)
    requires BoundsInv(s) && Enabled(s, ev) && c in s.conns && c in Step(s, ev).conns
    ensures Carries(s, ev, Step(s, ev), c)
  {
  }

  lemma RecordStepAt(states: seq<State>, events: seq<Event>, t: nat, c: nat)
    requires Run(states, events) && t < |events| && c in states[t].conns && c in states[t + 1].conns
    ensures Carries(states[t], events[t], states[t + 1], c)
    ensures states[t].closed <==> ClosedBefore(events, t)
    ensures states[t].disconnect == states[0].disconnect
  {
    InvAlways(states, events, t);
    HistoryIs(states, events, t);
    SamePolicy(states, events, t);
    assert StepAt(states, events, t);
    RecordStep(states[t], events[t], c);
  }

  predicate Recorded(states: seq<State>, events: seq<Event>, t: nat, c: nat, r: nat)
    requires |states| == |events| + 1 && t < |states| && c in states[t].conns
  {
    var conn := states[t].conns[c];
    && RegisteredAt(states, events, t, c, r)
    && conn.lastId == events[r].lastId && conn.since == |AcceptedSends(events, r)|
    && (conn.lost <==> SomeFull(states, events, c, r, t))
    && (conn.cancelled <==> SomeFull(states, events, c, r, t) && states[0].disconnect)
  }

  lemma RecordedFirst(states: seq<State>, events: seq<Event>, t: nat, c: nat)
    requires Run(states, events) && 0 < t < |states| && c in states[t].conns && c !in states[t - 1].conns
    ensures Recorded(states, events, t, c, t - 1)
  {
    assert StepAt(states, events, t - 1);
    HistoryIs(states, events, t - 1);
  }

  lemma RecordedNext(states: seq<State>, events: seq<Event>, t: nat, c: nat, r: nat)
    requires t < |events| && |states| == |events| + 1
    requires Carries(states[t], events[t], states[t + 1], c) && Recorded(states, events, t, c, r)
    requires (states[t].closed <==> ClosedBefore(events, t)) && states[t].disconnect == states[0].disconnect
    ensures Recorded(states, events, t + 1, c, r)
  {
    assert SomeFull(states, events, c, r, t + 1) <==>
      SomeFull(states, events, c, r, t) || FindsFull(states, events, c, t);
  }

  /** A connection's record, exactly. It resumes from the Last-Event-ID of the request that
      registered it, at the history of that moment. It has lost a frame if and only if an accepted
      send since then found its buffer full, and it is then cut off if and only if the policy is to
      disconnect. */
  lemma {:induction false} RecordIs(states: seq<State>, events: seq<Event>, t: nat, c: nat) returns (r: nat)
    requires Run(states, events) && t < |states| && c in states[t].conns
    ensures RegisteredAt(states, events, t, c, r)
    ensures
      var conn := states[t].conns[c];
      && conn.lastId == events[r].lastId && conn.since == |AcceptedSends(events, r)|
      && (conn.lost <==> SomeFull(states, events, c, r, t))
      && (conn.cancelled <==> SomeFull(states, events, c, r, t) && states[0].disconnect)
  {
    if c in states[t - 1].conns {
      r := RecordIs(states, events, t - 1, c);
      RecordStepAt(states, events, t - 1, c);
      RecordedNext(states, events, t - 1, c, r);
    } else {
      r := t - 1;
      RecordedFirst(states, events, t, c);
    }
  }

  lemma {:induction false} SamePolicy(states: seq<State>, events: seq<Event>, t: nat)
    requires Run(states, events) && t < |states|
    ensures states[t].disconnect == states[0].disconnect && states[t].buffer == states[0].buffer
  {
    if t > 0 {
      SamePolicy(states, events, t - 1);
      assert StepAt(states, events, t - 1);
    }
  }

  /** An accepted send reaches every connection with room, at the end of its buffer, and changes no
      other; after Close a send changes nothing. */
  lemma SendReaches(states: seq<State>, events: seq<Event>, t: nat, c: nat)
    requires Run(states, events) && t < |events| && events[t].Send? && c in states[t].conns
    ensures ClosedBefore(events, t) ==> states[t + 1] == states[t]
    ensures !ClosedBefore(events, t) ==>
      var conn := states[t].conns[c];
      && c in states[t + 1].conns
      && states[t + 1].conns[c].frames ==
           (if FindsFull(states, events, c, t) then conn.frames else conn.frames + [events[t].entry.frame])
      && states[t + 1].conns[c].written == conn.written && states[t + 1].conns[c].replay == conn.replay
  {
    InvAlways(states, events, t);
    HistoryIs(states, events, t);
    assert StepAt(states, events, t);
  }

  /** A connection whose buffer no send found full has written a prefix of: the frames with an id
      after the last occurrence of its Last-Event-ID, if that was still ringed at its registration;
      then every frame sent since, in send order, with no gap and no duplicate. What it has not
      written is waiting for its writer. */
  lemma ResumeIsContiguous(states: seq<State>, events: seq<Event>, t: nat, c: nat) returns (r: nat)
    requires Run(states, events) && t < |states| && c in states[t].conns
    ensures RegisteredAt(states, events, t, c, r)
    ensures AcceptedSends(events, r) <= AcceptedSends(events, t)
    ensures !SomeFull(states, events, c, r, t) ==>
      var conn, before, now := states[t].conns[c], AcceptedSends(events, r), AcceptedSends(events, t);
      && conn.written + conn.replay + conn.frames ==
           Missed(before, states[t].size, events[r].lastId) + Frames(now[|before|..])
      && conn.written <= Missed(before, states[t].size, events[r].lastId) + Frames(now[|before|..])
  {
    r := RecordIs(states, events, t, c);
    InvAlways(states, events, t);
    HistoryIs(states, events, t);
    AcceptedGrow(events, r, t);
    assert ConnOk(states[t], c);
    var conn := states[t].conns[c];
    Prefix(conn.written, conn.replay, conn.frames);
  }

  lemma {:induction false} AcceptedGrow(events: seq<Event>, r: nat, t: nat)
    requires r <= t <= |events|
    ensures AcceptedSends(events, r) <= AcceptedSends(events, t)
    ensures AcceptedSends(events, t)[..|AcceptedSends(events, r)|] == AcceptedSends(events, r)
    decreases t
  {
    if r < t {
      AcceptedGrow(events, r, t - 1);
    }
  }

  lemma Prefix(a: seq<nat>, b: seq<nat>, c: seq<nat>)
    ensures a <= a + b + c
  {
  }

  /** What is missed, said of the whole history: with k the last send with that id among those
      that carry one, everything with an id after k when k is among the last n, else nothing. */
  lemma MissedIs(history: seq<Sent>, size: nat, lastId: string) returns (k: int)
    requires lastId != ""
    ensures IsLastIndex(WithId(history), lastId, k)
    ensures Missed(history, size, lastId) ==
            if k < 0 || k < |WithId(history)| - size then [] else Frames(WithId(history)[k + 1..])
  {
    var entries := WithId(history);
    k := LastIndex(entries, lastId);
    LastIndexFound(entries, lastId);
    MissedAfter(entries, size, lastId, k);
  }

  lemma MissedAfter(entries: seq<Sent>, size: nat, id: string, k: int)
    requires IsLastIndex(entries, id, k)
    ensures ReplayAfter(LastN(entries, size), id) == if k < 0 || k < |entries| - size then []
      else Frames(entries[k + 1..])
  {
    var off := if |entries| > size then |entries| - size else 0;
    LastNIs(entries, size, off);
    SuffixIndex(entries, off, id, k);
  }

  lemma LastNIs(entries: seq<Sent>, size: nat, off: nat)
    requires off == if |entries| > size then |entries| - size else 0
    ensures LastN(entries, size) == entries[off..]
  {
  }

  lemma SuffixIndex(entries: seq<Sent>, off: nat, id: string, k: int)
    requires IsLastIndex(entries, id, k) && off <= |entries|
    ensures ReplayAfter(entries[off..], id) == if k < off then [] else Frames(entries[k + 1..])
  {
    var ring := entries[off..];
    var k' := if k < off then -1 else k - off;
    assert IsLastIndex(ring, id, k');
    LastIndexIs(ring, id, k');
    assert k >= off ==> ring[k' + 1..] == entries[k + 1..];
  }
}
