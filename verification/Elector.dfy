/** The lease election of adapter/cron: the statements of AcquireOrRenew over one lease row, in
    the single-statement form (PostgreSQL, SQLite) and in the MySQL form, interleaved over any
    number of instances. Times are DB server times in microseconds; a statement reads the clock
    when it starts and may execute later, once it gets the row lock. */
module Elector {
  import opened Reliability

  datatype Row = Row(holder: nat, expires: int)

  // ---- The statements ------------------------------------------------------------------------

  /** INSERT ... ON CONFLICT DO UPDATE ... WHERE ... RETURNING: the row, and whether one is returned. */
  function Upsert(row: Option<Row>, self: nat, ttl: nat, now: int): (Option<Row>, bool) {
    if row.None? || row.value.holder == self || row.value.expires < now then (Some(Row(self, now + ttl)), true)
    else (row, false)
  }

  /** UPDATE: the rows affected count only a changed row. */
  function Update(row: Option<Row>, self: nat, ttl: nat, now: int): (Option<Row>, bool) {
    if row.Some? && (row.value.holder == self || row.value.expires < now)
    then (Some(Row(self, now + ttl)), row.value != Row(self, now + ttl))
    else (row, false)
  }

  /** INSERT IGNORE. */
  function Insert(row: Option<Row>, self: nat, ttl: nat, now: int): (Option<Row>, bool) {
    if row.None? then (Some(Row(self, now + ttl)), true) else (row, false)
  }

  datatype Verdict = Leader | NotLeader

  /** The table in its own form, and AcquireOrRenew run on it without interruption. */
  class LeaseTable {
    var row: Option<Row>

    constructor ()
      ensures row == None
    {
      row := None;
    }

    /** PostgreSQL and SQLite: told it leads exactly when the row was absent, its own or expired,
        and then the row is its own until now + ttl. */
    method AcquireByUpsert(self: nat, ttl: nat, now: int) returns (v: Verdict)
      modifies this
      ensures v == Leader <==> old(row).None? || old(row).value.holder == self || old(row).value.expires < now
      ensures row == if v == Leader then Some(Row(self, now + ttl)) else old(row)
    {
      var (row', returned) := Upsert(row, self, ttl, now);
      row := row';
      v := if returned then Leader else NotLeader;
    }

    /** MySQL, with the times its statements start at: the same, except that a renewal that
        changes nothing (the same microsecond) is confirmed by a later read, and refused if the
        lease has run out by then. */
    method AcquireBySteps(self: nat, ttl: nat, now1: int, now2: int, now3: int) returns (v: Verdict)
      requires now1 <= now2 <= now3
      modifies this
      ensures old(row) == Some(Row(self, now1 + ttl)) ==> row == old(row) && (v == Leader <==> now2 <= now1 + ttl)
      ensures old(row) != Some(Row(self, now1 + ttl)) ==>
                (v == Leader <==> old(row).None? || old(row).value.holder == self || old(row).value.expires < now1)
      ensures old(row) != Some(Row(self, now1 + ttl)) && v == Leader ==>
                row == Some(Row(self, (if old(row).None? then now3 else now1) + ttl))
      ensures v == NotLeader ==> row == old(row)
    {
      var (row1, changed) := Update(row, self, ttl, now1);
      row := row1;
      if changed {
        return Leader;
      }
      if row.None? {
        // alone at the row, the insert cannot lose; the machine below has the branch where it does
        row := Insert(row, self, ttl, now3).0;
        return Leader;
      }
      var expired := row.value.expires < now2;
      return if row.value.holder == self && !expired then Leader else NotLeader;
    }
  }

  // ---- The machine ---------------------------------------------------------------------------------

  datatype Kind = UpsertStmt | UpdateStmt | VerifyStmt | InsertStmt | ReverifyStmt

  /** A call of instance who: about to start a statement; with one under way since now; over. An
      instance may have any number of calls in flight. */
  datatype Pc = Next(who: nat, kind: Kind) | Running(who: nat, kind: Kind, now: int) | Over(who: nat)

  /** An instance was told it leads, by a statement of time now, with the lease ending at end. */
  datatype Grant = Grant(who: nat, now: int, end: int)

  /** at and since are the statement times of the row's last write and of its holder's takeover,
      writer the call that wrote it last. */
  datatype State = State(
    mysql: bool, ttls: map<nat, nat>, clock: int,
    row: Option<Row>, at: int, since: int, writer: nat,
    calls: map<nat, Pc>, log: seq<Grant>)

  datatype Event =
    | Tick(elapsed: nat)
    | Call(c: nat, who: nat)
    | Start(c: nat)
    | Execute(c: nat, told: bool)   // told: the answer reaches the instance
    | Fail(c: nat)                  // the statement is not executed

  predicate Enabled(s: State, ev: Event) {
    match ev
    case Tick(_) => true
    case Call(c, who) => c !in s.calls && who in s.ttls
    case Start(c) => c in s.calls && s.calls[c].Next? && s.calls[c].who in s.ttls
    case Execute(c, _) => c in s.calls && s.calls[c].Running? && s.calls[c].who in s.ttls
    case Fail(c) => c in s.calls && s.calls[c].Running?
  }

  function Goto(s: State, c: nat, pc: Pc): State {
    s.(calls := s.calls[c := pc])
  }

  predicate HeldBy(s: State, who: nat) {
    s.row.Some? && s.row.value.holder == who
  }

  /** The row as written by a call of who at statement time now. */
  function Write(s: State, c: nat, who: nat, now: int): State
    requires who in s.ttls
  {
    s.(row := Some(Row(who, now + s.ttls[who])), at := now, writer := c,
       since := if HeldBy(s, who) then s.since else now)
  }

  /** The answer leads, if it arrives. */
  function Lead(s: State, c: nat, who: nat, now: int, told: bool): State
    requires s.row.Some?
  {
    Goto(if told then s.(log := s.log + [Grant(who, now, s.row.value.expires)]) else s, c, Over(who))
  }

  /** The statement under way writes the row. */
  predicate Writes(s: State, c: nat)
    requires c in s.calls && s.calls[c].Running? && s.calls[c].who in s.ttls
  {
    var who, now := s.calls[c].who, s.calls[c].now;
    match s.calls[c].kind
    case UpsertStmt => Upsert(s.row, who, s.ttls[who], now).1
    case UpdateStmt => Update(s.row, who, s.ttls[who], now).1
    case InsertStmt => Insert(s.row, who, s.ttls[who], now).1
    case _ => false
  }

  /** It reads the row and finds its own lease. */
  predicate ReadsOwn(s: State, c: nat)
    requires c in s.calls && s.calls[c].Running?
  {
    var pc := s.calls[c];
    || (pc.kind == VerifyStmt && HeldBy(s, pc.who) && !(s.row.value.expires < pc.now))
    || (pc.kind == ReverifyStmt && HeldBy(s, pc.who))
  }

  /** What a call does next whose statement neither writes nor finds its own lease. */
  function Then(s: State, pc: Pc, told: bool): Pc
    requires pc.Running?
  {
    if !told then Over(pc.who)
    else match pc.kind
      case UpdateStmt => Next(pc.who, VerifyStmt)
      case VerifyStmt => if s.row.None? then Next(pc.who, InsertStmt) else Over(pc.who)
      case InsertStmt => Next(pc.who, ReverifyStmt)
      case _ => Over(pc.who)
  }

  function StepExecute(s: State, c: nat, told: bool): State
    requires Enabled(s, Execute(c, told))
  {
    var pc := s.calls[c];
    if Writes(s, c) then Lead(Write(s, c, pc.who, pc.now), c, pc.who, pc.now, told)
    else if ReadsOwn(s, c) then Lead(s, c, pc.who, pc.now, told)
    else Goto(s, c, Then(s, pc, told))
  }

  function Step(s: State, ev: Event): State
    requires Enabled(s, ev)
  {
    match ev
    case Tick(elapsed) => s.(clock := s.clock + elapsed)
    case Call(c, who) => Goto(s, c, Next(who, if s.mysql then UpdateStmt else UpsertStmt))
    case Start(c) => Goto(s, c, Running(s.calls[c].who, s.calls[c].kind, s.clock))
    case Execute(c, told) => StepExecute(s, c, told)
    case Fail(c) => Goto(s, c, Over(s.calls[c].who))
  }

  predicate Init(s: State) {
    s.row == None && s.log == [] && s.calls == map[]
  }

  predicate StepAt(states: seq<State>, events: seq<Event>, t: nat)
    requires t < |events| && |states| == |events| + 1
  {
    Enabled(states[t], events[t]) && states[t + 1] == Step(states[t], events[t])
  }

  predicate Run(states: seq<State>, events: seq<Event>) {
    && |states| == |events| + 1 && Init(states[0])
    && forall t :: 0 <= t < |events| ==> StepAt(states, events, t)
  }

  // ---- The order of one instance's statements --------------------------------------------------------

  /** A statement of the row's holder executes no earlier than it started, relative to the
      statement that wrote the row last. */
  predicate InOrder(s: State, ev: Event) {
    ev.Execute? && ev.c in s.calls && s.calls[ev.c].Running? && HeldBy(s, s.calls[ev.c].who) ==>
      s.at <= s.calls[ev.c].now
  }

  predicate Ordered(states: seq<State>, events: seq<Event>) {
    |states| > |events| && forall t :: 0 <= t < |events| ==> InOrder(states[t], events[t])
  }

  /** The holder's row is written by a statement that started before the one that wrote it last. */
  predicate Backdated(s: State, ev: Event) {
    && ev.Execute? && ev.c in s.calls && s.calls[ev.c].Running? && s.calls[ev.c].who in s.ttls
    && Writes(s, ev.c) && HeldBy(s, s.calls[ev.c].who) && s.calls[ev.c].now < s.at
  }

  predicate NoneBackdated(states: seq<State>, events: seq<Event>) {
    |states| > |events| && forall u :: 0 <= u < |events| ==> !Backdated(states[u], events[u])
  }

  /** One call of each instance in flight. */
  predicate Serial(s: State) {
    forall c, d :: c in s.calls && d in s.calls && Rivals(s, c, d) ==> c == d
  }

  predicate Rivals(s: State, c: nat, d: nat)
    requires c in s.calls && d in s.calls
  {
    InFlight(s, c) && InFlight(s, d) && s.calls[c].who == s.calls[d].who
  }

  predicate InFlight(s: State, c: nat)
    requires c in s.calls
  {
    !s.calls[c].Over?
  }

  /** A statement of the holder's that is under way started after its last write. */
  predicate Later(s: State, c: nat)
    requires c in s.calls
  {
    s.calls[c].Running? && HeldBy(s, s.calls[c].who) ==> s.at <= s.calls[c].now
  }

  ghost predicate LaterInv(s: State) {
    forall c :: c in s.calls ==> Later(s, c)
  }

  lemma LaterStep(s: State, ev: Event)
    requires RowInv(s) && ClockInv(s) && LaterInv(s) && Serial(s) && Enabled(s, ev)
    ensures LaterInv(Step(s, ev))
  {
    var t := Step(s, ev);
    forall c | c in t.calls ensures Later(t, c) {
      assert c in s.calls ==> Later(s, c) && Past(s, c);
      if ev.Execute? && c != ev.c {
        assert c in s.calls ==> !Rivals(s, ev.c, c);
      }
    }
  }

  /** A run in which each instance waits for its call before it makes the next is in order. */
  lemma {:induction false} SerialIsOrdered(states: seq<State>, events: seq<Event>, t: nat)
    requires Run(states, events) && t < |states| && forall u :: 0 <= u < |states| ==> Serial(states[u])
    ensures LaterInv(states[t]) && (t < |events| ==> InOrder(states[t], events[t]))
  {
    if t > 0 {
      SerialIsOrdered(states, events, t - 1);
      PlainAlways(states, events, t - 1);
      assert StepAt(states, events, t - 1) && Serial(states[t - 1]);
      LaterStep(states[t - 1], events[t - 1]);
    }
    if t < |events| {
      assert StepAt(states, events, t);
      assert events[t].Execute? ==> Later(states[t], events[t].c);
    }
  }

  // ---- Invariants of every run -----------------------------------------------------------------------

  /** What the row says of itself. */
  predicate RowInv(s: State) {
    s.row.Some? ==>
      && s.row.value.holder in s.ttls && s.row.value.expires == s.at + s.ttls[s.row.value.holder]
      && s.at <= s.clock
      && s.writer in s.calls && s.calls[s.writer] == Over(s.row.value.holder)
  }

  predicate Past(s: State, c: nat)
    requires c in s.calls
  {
    && (s.calls[c].Running? ==> s.calls[c].now <= s.clock)
    && (!s.calls[c].Over? && s.calls[c].kind == ReverifyStmt ==> s.row.Some?)
  }

  ghost predicate ClockInv(s: State) {
    forall c :: c in s.calls ==> Past(s, c)
  }

  lemma PlainStep(s: State, ev: Event)
    requires RowInv(s) && ClockInv(s) && Enabled(s, ev)
    ensures RowInv(Step(s, ev)) && ClockInv(Step(s, ev))
  {
    if ev.Execute? {
      PlainExecute(s, ev.c, ev.told);
    } else {
      var t := Step(s, ev);
      forall c | c in t.calls ensures Past(t, c) {
        assert c in s.calls ==> Past(s, c);
      }
    }
  }

  lemma PlainExecute(s: State, c: nat, told: bool)
    requires RowInv(s) && ClockInv(s) && Enabled(s, Execute(c, told))
    ensures RowInv(StepExecute(s, c, told)) && ClockInv(StepExecute(s, c, told))
  {
    var t := StepExecute(s, c, told);
    assert Past(s, c);
    forall d | d in t.calls ensures Past(t, d) {
      assert d in s.calls ==> Past(s, d);
    }
  }

  lemma {:induction false} PlainAlways(states: seq<State>, events: seq<Event>, t: nat)
    requires Run(states, events) && t < |states|
    ensures RowInv(states[t]) && ClockInv(states[t])
  {
    if t > 0 {
      PlainAlways(states, events, t - 1);
      assert StepAt(states, events, t - 1);
      PlainStep(states[t - 1], events[t - 1]);
    }
  }

  // ---- Invariants of runs without backdated writes ---------------------------------------------------

  /** Against the row: no lease outlasts it, and those of other instances ended before its
      holder took over. */
  predicate GrantOk(s: State, g: Grant) {
    && s.row.Some? && g.end <= s.row.value.expires && g.now <= s.clock
    && (g.who != s.row.value.holder ==> g.end < s.since)
  }

  ghost predicate LogInv(s: State) {
    && (s.row.Some? ==> s.since <= s.at)
    && forall n :: 0 <= n < |s.log| ==> GrantOk(s, s.log[n])
  }

  predicate After(a: Grant, b: Grant) {
    b.who != a.who ==> a.end < b.now
  }

  /** Every later grant to another instance is of a time past the earlier one's end. */
  ghost predicate ExclusionInv(s: State) {
    forall m, n :: 0 <= m < n < |s.log| ==> After(s.log[m], s.log[n])
  }

  lemma WriteKeeps(s: State, c: nat, who: nat, now: int)
    requires RowInv(s) && LogInv(s) && who in s.ttls && now <= s.clock
    requires s.row.None? || s.row.value.expires < now || (s.row.value.holder == who && s.at <= now)
    ensures LogInv(Write(s, c, who, now))
  {
    var t := Write(s, c, who, now);
    forall n | 0 <= n < |t.log| ensures GrantOk(t, t.log[n]) {
      assert GrantOk(s, s.log[n]);
    }
  }

  /** A leading answer to the row's holder. */
  lemma LeadKeeps(s: State, c: nat, who: nat, now: int, told: bool)
    requires LogInv(s) && HeldBy(s, who) && now <= s.clock
    ensures LogInv(Lead(s, c, who, now, told))
    ensures ExclusionInv(s) && s.since <= now ==> ExclusionInv(Lead(s, c, who, now, told))
  {
    var t := Lead(s, c, who, now, told);
    forall n | 0 <= n < |t.log| ensures GrantOk(t, t.log[n]) {
      assert n < |s.log| ==> GrantOk(s, s.log[n]);
    }
    if ExclusionInv(s) && s.since <= now {
      forall m, n | 0 <= m < n < |t.log| ensures After(t.log[m], t.log[n]) {
        assert GrantOk(s, s.log[m]);
        assert n < |s.log| ==> After(s.log[m], s.log[n]);
      }
    }
  }

  lemma SameLog(s: State, t: State)
    requires LogInv(s)
    requires t.row == s.row && t.at == s.at && t.since == s.since && t.log == s.log && t.clock >= s.clock
    ensures LogInv(t)
  {
    forall n | 0 <= n < |t.log| ensures GrantOk(t, t.log[n]) {
      assert GrantOk(s, s.log[n]);
    }
  }

  lemma MayWrite(s: State, c: nat)
    requires c in s.calls && s.calls[c].Running? && s.calls[c].who in s.ttls && Writes(s, c)
    ensures s.row.None? || s.row.value.expires < s.calls[c].now || s.row.value.holder == s.calls[c].who
  {
  }

  lemma LogStep(s: State, ev: Event)
    requires RowInv(s) && ClockInv(s) && LogInv(s) && Enabled(s, ev) && !Backdated(s, ev)
    ensures LogInv(Step(s, ev))
    ensures ExclusionInv(s) && InOrder(s, ev) ==> ExclusionInv(Step(s, ev))
  {
    if ev.Execute? {
      var c, pc := ev.c, s.calls[ev.c];
      assert Past(s, c);
      if Writes(s, c) {
        MayWrite(s, c);
        WriteKeeps(s, c, pc.who, pc.now);
        LeadKeeps(Write(s, c, pc.who, pc.now), c, pc.who, pc.now, ev.told);
      } else if ReadsOwn(s, c) {
        LeadKeeps(s, c, pc.who, pc.now, ev.told);
      } else {
        SameLog(s, Step(s, ev));
      }
    } else {
      SameLog(s, Step(s, ev));
    }
  }

  lemma {:induction false} LogAlways(states: seq<State>, events: seq<Event>, t: nat)
    requires Run(states, events) && NoneBackdated(states, events) && t < |states|
    ensures LogInv(states[t]) && (Ordered(states, events) ==> ExclusionInv(states[t]))
  {
    if t > 0 {
      LogAlways(states, events, t - 1);
      PlainAlways(states, events, t - 1);
      assert StepAt(states, events, t - 1) && !Backdated(states[t - 1], events[t - 1]);
      assert Ordered(states, events) ==> InOrder(states[t - 1], events[t - 1]);
      LogStep(states[t - 1], events[t - 1]);
    }
  }

  lemma OrderedAlways(states: seq<State>, events: seq<Event>, t: nat)
    requires Run(states, events) && Ordered(states, events) && t < |states|
    ensures LogInv(states[t]) && ExclusionInv(states[t])
  {
    forall u | 0 <= u < |events| ensures !Backdated(states[u], events[u]) {
      assert InOrder(states[u], events[u]);
    }
    LogAlways(states, events, t);
  }

  // ---- Theorems ------------------------------------------------------------------------------------

  /** Mutual exclusion. Over every interleaving of instances with distinct ids, any number of
      calls in flight each and its own fixed ttl, in either dialect, with answers lost and
      statements failing at will, as long as a holder's statements execute in the order in which
      they started: once an instance has been told it leads with its lease ending at e, any other
      instance told so later was told by a statement that read a clock past e. */
  lemma LeadersDoNotOverlap(states: seq<State>, events: seq<Event>, t: nat, m: nat, n: nat)
    requires Run(states, events) && Ordered(states, events) && t < |states| && m < n < |states[t].log|
    requires states[t].log[m].who != states[t].log[n].who
    ensures states[t].log[m].end < states[t].log[n].now <= states[t].clock
  {
    OrderedAlways(states, events, t);
    assert After(states[t].log[m], states[t].log[n]);
    assert GrantOk(states[t], states[t].log[n]);
  }

  /** So it does when each instance has one call in flight at a time, as a cron source does. */
  lemma SerialLeadersDoNotOverlap(states: seq<State>, events: seq<Event>, t: nat, m: nat, n: nat)
    requires Run(states, events) && t < |states| && m < n < |states[t].log|
    requires forall u :: 0 <= u < |states| ==> Serial(states[u])
    requires states[t].log[m].who != states[t].log[n].who
    ensures states[t].log[m].end < states[t].log[n].now <= states[t].clock
  {
    forall u | 0 <= u < |events| ensures InOrder(states[u], events[u]) {
      SerialIsOrdered(states, events, u);
    }
    LeadersDoNotOverlap(states, events, t, m, n);
  }

  /** No lease granted so far outlasts the row, and those of other instances than its holder ended
      before that holder took over. */
  lemma LeasesStayCovered(states: seq<State>, events: seq<Event>, t: nat, n: nat)
    requires Run(states, events) && Ordered(states, events) && t < |states| && n < |states[t].log|
    ensures states[t].row.Some? && states[t].log[n].end <= states[t].row.value.expires
    ensures states[t].log[n].who != states[t].row.value.holder ==> states[t].log[n].end < states[t].since
  {
    OrderedAlways(states, events, t);
    assert GrantOk(states[t], states[t].log[n]);
  }

  /** MySQL's INSERT IGNORE makes a leader if and only if the row is still absent; otherwise the call
      goes on to the re-check. */
  lemma InsertLeadsIff(states: seq<State>, events: seq<Event>, t: nat)
    requires Run(states, events) && t < |events| && StepAt(states, events, t) && events[t].Execute? && events[t].told
    requires states[t].calls[events[t].c].kind == InsertStmt
    ensures
      var s, c := states[t], events[t].c;
      var who, now := s.calls[c].who, s.calls[c].now;
      && states[t + 1].log == s.log + (if s.row.None? then [Grant(who, now, now + s.ttls[who])] else [])
      && states[t + 1].calls[c] == (if s.row.None? then Over(who) else Next(who, ReverifyStmt))
      && states[t + 1].row == if s.row.None? then Some(Row(who, now + s.ttls[who])) else s.row
  {
  }

  /** MySQL's last re-check, after a lost INSERT IGNORE, makes a leader if and only if the row was
      last written by another call of the same instance. */
  lemma LostInsertLeadsIff(states: seq<State>, events: seq<Event>, t: nat)
    requires Run(states, events) && t < |events| && StepAt(states, events, t) && events[t].Execute? && events[t].told
    requires states[t].calls[events[t].c].kind == ReverifyStmt
    ensures
      var s, c := states[t], events[t].c;
      && s.row.Some? && s.writer in s.calls && s.writer != c
      && (states[t + 1].log != s.log <==> s.calls[s.writer].who == s.calls[c].who)
  {
    PlainAlways(states, events, t);
    assert Past(states[t], events[t].c);
  }

  // ---- Statements out of order -------------------------------------------------------------------------

  /** The row covers every lease granted. */
  ghost predicate Covered(s: State) {
    forall n :: 0 <= n < |s.log| ==> s.row.Some? && s.log[n].end <= s.row.value.expires
  }

  /** A step shortens the row if and only if it is such a write. */
  lemma ShortensIff(s: State, ev: Event)
    requires RowInv(s) && Enabled(s, ev)
    ensures s.row.Some? ==> Step(s, ev).row.Some?
    ensures (s.row.Some? && Step(s, ev).row.value.expires < s.row.value.expires) <==> Backdated(s, ev)
  {
    if ev.Execute? && Writes(s, ev.c) {
      MayWrite(s, ev.c);
    }
  }

  /** Every answer reaches its instance. */
  predicate AllTold(events: seq<Event>) {
    forall t :: 0 <= t < |events| && events[t].Execute? ==> events[t].told
  }

  /** Then the row's own lease has been granted. */
  ghost predicate Granted(s: State) {
    s.row.Some? ==> exists n ::
      0 <= n < |s.log| && s.log[n].end == s.row.value.expires && s.log[n].who == s.row.value.holder
  }

  lemma GrantedStep(s: State, ev: Event)
    requires Granted(s) && Enabled(s, ev) && (ev.Execute? ==> ev.told)
    ensures Granted(Step(s, ev))
  {
    var t := Step(s, ev);
    if ev.Execute? && Writes(s, ev.c) {
      assert t.log[|s.log|].end == t.row.value.expires && t.log[|s.log|].who == t.row.value.holder;
    } else if s.row.Some? {
      var n :| 0 <= n < |s.log| && s.log[n].end == s.row.value.expires && s.log[n].who == s.row.value.holder;
      assert t.log[n] == s.log[n];
    }
  }

  lemma {:induction false} GrantedAlways(states: seq<State>, events: seq<Event>, t: nat)
    requires Run(states, events) && AllTold(events) && t < |states|
    ensures Granted(states[t])
  {
    if t > 0 {
      GrantedAlways(states, events, t - 1);
      assert StepAt(states, events, t - 1);
      GrantedStep(states[t - 1], events[t - 1]);
    }
  }

  lemma CoveredStep(s: State, ev: Event)
    requires RowInv(s) && Covered(s) && Enabled(s, ev) && !Backdated(s, ev)
    ensures Covered(Step(s, ev))
  {
    ShortensIff(s, ev);
    var t := Step(s, ev);
    forall n | 0 <= n < |t.log| ensures t.row.Some? && t.log[n].end <= t.row.value.expires {
      assert n < |s.log| ==> t.log[n] == s.log[n];
    }
  }

  lemma {:induction false} CoveredUntil(states: seq<State>, events: seq<Event>, t: nat)
    requires Run(states, events) && t < |states| && forall u :: 0 <= u < t ==> !Backdated(states[u], events[u])
    ensures Covered(states[t])
  {
    if t > 0 {
      CoveredUntil(states, events, t - 1);
      PlainAlways(states, events, t - 1);
      assert StepAt(states, events, t - 1);
      CoveredStep(states[t - 1], events[t - 1]);
    }
  }

  /** With every answer delivered, the row covers every lease granted at every point of a run if
      and only if no write of the run is backdated. */
  lemma CoveredIff(states: seq<State>, events: seq<Event>)
    requires Run(states, events) && AllTold(events)
    ensures (forall t :: 0 <= t < |states| ==> Covered(states[t])) <==> NoneBackdated(states, events)
  {
    if NoneBackdated(states, events) {
      forall t | 0 <= t < |states| ensures Covered(states[t]) {
        CoveredUntil(states, events, t);
      }
    }
    if forall t :: 0 <= t < |states| ==> Covered(states[t]) {
      forall u | 0 <= u < |events| ensures !Backdated(states[u], events[u]) {
        BackdatedUncovers(states, events, u);
        assert Covered(states[u + 1]);
      }
    }
  }

  /** Then leaders exclude each other in time: whenever an instance is told it leads, the leases
      that others were told of have ended on the clock. */
  lemma OthersEndedWhenTold(states: seq<State>, events: seq<Event>, t: nat, m: nat)
    requires Run(states, events) && NoneBackdated(states, events)
    requires t < |events| && m < |states[t].log| < |states[t + 1].log|
    requires states[t].log[m].who != Told(states[t + 1]).who
    ensures states[t].log[m].end < states[t].clock
  {
    LogAlways(states, events, t + 1);
    PlainAlways(states, events, t + 1);
    assert StepAt(states, events, t);
    assert states[t + 1].log[m] == states[t].log[m];
    assert GrantOk(states[t + 1], states[t + 1].log[m]);
  }

  /** The grant given last. */
  function Told(s: State): Grant
    requires s.log != []
  {
    s.log[|s.log| - 1]
  }

  lemma BackdatedUncovers(states: seq<State>, events: seq<Event>, u: nat)
    requires Run(states, events) && AllTold(events) && u < |events|
    ensures Backdated(states[u], events[u]) ==> !Covered(states[u + 1])
  {
    PlainAlways(states, events, u);
    GrantedAlways(states, events, u);
    assert StepAt(states, events, u);
    ShortensIff(states[u], events[u]);
    var s, t := states[u], states[u + 1];
    if Backdated(s, events[u]) {
      var n :| 0 <= n < |s.log| && s.log[n].end == s.row.value.expires && s.log[n].who == s.row.value.holder;
      assert t.log[n] == s.log[n];
    }
  }

  function Last(states: seq<State>): State
    requires states != []
  {
    states[|states| - 1]
  }

  lemma Extend(states: seq<State>, events: seq<Event>, ev: Event) returns (states': seq<State>, events': seq<Event>)
    requires Run(states, events) && Enabled(Last(states), ev)
    ensures Run(states', events') && events' == events + [ev] && states' == states + [Step(Last(states), ev)]
  {
    states', events' := states + [Step(Last(states), ev)], events + [ev];
    forall t | 0 <= t < |events'| ensures StepAt(states', events', t) {
      if t < |events| {
        assert StepAt(states, events, t);
        assert states'[t] == states[t] && states'[t + 1] == states[t + 1] && events'[t] == events[t];
      } else {
        assert states'[t] == Last(states);
      }
    }
  }

  // ---- A call on its own ---------------------------------------------------------------------------

  /** One statement of call c, with nothing in between. */
  function Statement(c: nat, wait: nat): seq<Event> {
    [Tick(wait), Start(c), Execute(c, true)]
  }

  lemma Runs(states: seq<State>, events: seq<Event>, c: nat, wait: nat)
    returns (states': seq<State>, events': seq<Event>)
    requires Run(states, events) && c in Last(states).calls && Last(states).calls[c].Next?
    requires Last(states).calls[c].who in Last(states).ttls
    ensures Run(states', events') && events' == events + Statement(c, wait)
    ensures
      var s := Last(states);
      var now := s.clock + wait;
      var started := Goto(s.(clock := now), c, Running(s.calls[c].who, s.calls[c].kind, now));
      Last(states') == StepExecute(started, c, true)
  {
    states', events' := Extend(states, events, Tick(wait));
    states', events' := Extend(states', events', Start(c));
    states', events' := Extend(states', events', Execute(c, true));
  }

  /** The call has led, and the row is its own until the end of the lease it was told of. */
  predicate Led(s: State, t: State, who: nat) {
    && HeldBy(t, who) && |t.log| == |s.log| + 1 && s.log == t.log[..|s.log|]
    && t.log[|s.log|].who == who && t.log[|s.log|].end == t.row.value.expires
  }

  /** The row is absent, the instance's own, or expired. */
  predicate Free(s: State, who: nat) {
    s.row.None? || s.row.value.holder == who || s.row.value.expires < s.clock
  }

  /** A call on its own, from any state a run may reach: in either dialect, and whatever the waits
      between its statements, it is told it leads if and only if the row is absent, its own or
      expired when its first statement starts; but a MySQL renewal that changes nothing is refused
      if the lease has run out by the statement after. */
  lemma AloneLeadsIff(states: seq<State>, events: seq<Event>, c: nat, who: nat, wait2: nat, wait3: nat)
    returns (states': seq<State>, events': seq<Event>)
    requires Run(states, events) && c !in Last(states).calls && who in Last(states).ttls
    ensures Run(states', events')
    ensures
      var start := events + [Call(c, who)] + Statement(c, 0);
      || events' == start
      || (Last(states).mysql && events' == start + Statement(c, wait2))
      || (Last(states).mysql && events' == start + Statement(c, wait2) + Statement(c, wait3))
    ensures
      var s, t := Last(states), Last(states');
      var same := s.mysql && s.row == Some(Row(who, s.clock + s.ttls[who]));
      && c in t.calls && t.calls[c] == Over(who)
      && (if (if same then wait2 <= s.ttls[who] else Free(s, who)) then Led(s, t, who) else t.log == s.log)
  {
    states', events' := Extend(states, events, Call(c, who));
    if Last(states).mysql {
      states', events' := AloneSteps(states', events', c, who, wait2, wait3);
    } else {
      states', events' := Runs(states', events', c, 0);
    }
  }

  lemma AloneSteps(states: seq<State>, events: seq<Event>, c: nat, who: nat, wait2: nat, wait3: nat)
    returns (states': seq<State>, events': seq<Event>)
    requires Run(states, events) && who in Last(states).ttls
    requires c in Last(states).calls && Last(states).calls[c] == Next(who, UpdateStmt)
    ensures Run(states', events')
    ensures
      var start := events + Statement(c, 0);
      || events' == start
      || events' == start + Statement(c, wait2)
      || events' == start + Statement(c, wait2) + Statement(c, wait3)
    ensures
      var s, t := Last(states), Last(states');
      var same := s.row == Some(Row(who, s.clock + s.ttls[who]));
      && c in t.calls && t.calls[c] == Over(who)
      && (if (if same then wait2 <= s.ttls[who] else Free(s, who)) then Led(s, t, who) else t.log == s.log)
  {
    var s := Last(states);
    states', events' := Runs(states, events, c, 0);
    if !Last(states').calls[c].Over? {
      var t := Last(states');
      assert t.row == s.row && t.log == s.log && t.clock == s.clock && t.ttls == s.ttls;
      states', events' := AloneUnchanged(states', events', c, who, wait2, wait3);
    }
  }

  /** The UPDATE changed nothing: the read, and the INSERT if it finds no row. */
  lemma AloneUnchanged(states: seq<State>, events: seq<Event>, c: nat, who: nat, wait2: nat, wait3: nat)
    returns (states': seq<State>, events': seq<Event>)
    requires Run(states, events) && who in Last(states).ttls
    requires c in Last(states).calls && Last(states).calls[c] == Next(who, VerifyStmt)
    ensures Run(states', events')
    ensures events' == events + Statement(c, wait2) || events' == events + Statement(c, wait2) + Statement(c, wait3)
    ensures
      var s, t := Last(states), Last(states');
      && c in t.calls && t.calls[c] == Over(who)
      && (if s.row.None? || (HeldBy(s, who) && s.row.value.expires >= s.clock + wait2) then Led(s, t, who)
          else t.log == s.log)
  {
    states', events' := Runs(states, events, c, wait2);
    if !Last(states').calls[c].Over? {
      states', events' := Runs(states', events', c, wait3);
    }
  }

  /** One call of an instance, from the clock's next reading that suits it to its answer. */
  function Takeover(c: nat, who: nat, wait: nat): seq<Event> {
    [Tick(wait), Call(c, who), Start(c), Execute(c, true)]
  }

  lemma TakesOver(states: seq<State>, events: seq<Event>, c: nat, who: nat, wait: nat)
    returns (states': seq<State>, events': seq<Event>)
    requires Run(states, events) && c !in Last(states).calls && who in Last(states).ttls
    requires Last(states).row.Some? && Last(states).row.value.expires < Last(states).clock + wait
    requires !HeldBy(Last(states), who)
    ensures Run(states', events') && events' == events + Takeover(c, who, wait) && |states'| == |states| + 4
    ensures
      var s, t := Last(states), Last(states');
      t.log == s.log + [Grant(who, s.clock + wait, s.clock + wait + s.ttls[who])]
  {
    states', events' := Extend(states, events, Tick(wait));
    states', events' := Extend(states', events', Call(c, who));
    states', events' := Extend(states', events', Start(c));
    states', events' := Extend(states', events', Execute(c, true));
  }

  /** A backdated write is fatal: if it happens while the lease it shortens is still running, any
      other instance can be told it leads before that lease ends. */
  lemma BackdatedOverlaps(states: seq<State>, events: seq<Event>, c: nat, who: nat)
    returns (states': seq<State>, events': seq<Event>, m: nat, wait: nat)
    requires Run(states, events) && AllTold(events) && events != []
    requires
      var u := |events| - 1;
      Backdated(states[u], events[u]) && states[u].clock <= states[u].row.value.expires && !HeldBy(states[u], who)
    requires c !in Last(states).calls && who in Last(states).ttls
    ensures Run(states', events') && events' == events + Takeover(c, who, wait)
    ensures
      var log := Last(states').log;
      var n := |log| - 1;
      m < n && log[n].who == who && HeldBy(states[|events| - 1], log[m].who) && log[n].now <= log[m].end
  {
    var u := |events| - 1;
    var s, t := states[u], states[u + 1];
    PlainAlways(states, events, u);
    GrantedAlways(states, events, u);
    assert StepAt(states, events, u);
    ShortensIff(s, events[u]);
    m :| 0 <= m < |s.log| && s.log[m].end == s.row.value.expires && s.log[m].who == s.row.value.holder;
    assert t.log[m] == s.log[m] && t.clock == s.clock;
    wait := if t.row.value.expires < t.clock then 0 else t.row.value.expires + 1 - t.clock;
    states', events' := TakesOver(states, events, c, who, wait);
  }

  /** The steps of a run in which instance 0 has two calls in flight and the earlier of their two
      statements executes last. */
  const OUT_OF_ORDER: seq<Event> :=
    [Call(0, 0), Start(0), Tick(1), Call(1, 0), Start(1), Execute(1, true), Execute(0, true)]

  /** So leaders can overlap: with the single statement and any lease longer than nothing,
      instance 1 is told it leads before the lease that instance 0 was told of has ended. */
  lemma OverlapHappens(ttl: nat) returns (states: seq<State>, events: seq<Event>, m: nat, wait: nat)
    requires ttl >= 1
    ensures Run(states, events) && events == OUT_OF_ORDER + Takeover(2, 1, wait)
    ensures
      var log := Last(states).log;
      var n := |log| - 1;
      m < n && log[m].who == 0 && log[n].who == 1 && log[n].now <= log[m].end
  {
    var s0 := State(false, map[0 := ttl, 1 := ttl], 0, None, 0, 0, 0, map[], []);
    states, events := [s0], [];
    states, events := BothStarted(states, events, ttl);
    states, events := Extend(states, events, Execute(1, true));
    var s := Last(states);
    assert s.row == Some(Row(0, 1 + ttl)) && s.at == 1 && s.calls[0] == Running(0, UpsertStmt, 0) && s.clock == 1;
    states, events := Extend(states, events, Execute(0, true));
    states, events, m, wait := BackdatedOverlaps(states, events, 2, 1);
  }

  lemma BothStarted(states: seq<State>, events: seq<Event>, ttl: nat) returns (states': seq<State>, events': seq<Event>)
    requires Run(states, events) && Last(states) == State(false, map[0 := ttl, 1 := ttl], 0, None, 0, 0, 0, map[], [])
    ensures Run(states', events') && events' == events + OUT_OF_ORDER[..5]
    ensures
      Last(states') == State(false, map[0 := ttl, 1 := ttl], 1, None, 0, 0, 0,
                             map[0 := Running(0, UpsertStmt, 0), 1 := Running(0, UpsertStmt, 1)], [])
  {
    states', events' := Extend(states, events, Call(0, 0));
    states', events' := Extend(states', events', Start(0));
    states', events' := Extend(states', events', Tick(1));
    states', events' := Extend(states', events', Call(1, 0));
    states', events' := Extend(states', events', Start(1));
  }
}
