/** Repeated calls of Next against the meaning of the stream. */
module SseTheorems {
  import opened Reliability
  import opened SseSpec
  import opened SseParser

  /** What repeated calls of Next answer until the reader is exhausted, and the buffers left. */
  datatype Session = Session(answers: seq<Next>, buffers: Buffers)

  function Run(p: Buffers, s: seq<Byte>, end: ReaderEnd, max: nat): Session
    decreases |s|
  {
    var c := NextCall(p, s, end, max);
    if c.answer.Dispatched? || c.answer.TooLarge? then
      var later := Run(c.buffers, c.rest, end, max);
      Session([c.answer] + later.answers, later.buffers)
    else Session([c.answer], c.buffers)
  }

  function Prefixed(answer: Next, later: Session): Session {
    Session([answer] + later.answers, later.buffers)
  }

  /** The same calls over a stream already split into lines. */
  function RunLines(p: Buffers, lines: seq<seq<Byte>>, tail: seq<Byte>, end: ReaderEnd, max: nat): Session
    decreases |lines|
  {
    if lines == [] then AtEnd(p, tail, end, max)
    else if |lines[0]| > max then Prefixed(TooLarge, RunLines(Reset(p), lines[1..], tail, end, max))
    else
      match OnLine(p, lines[0], max)
      case Continue(p') => RunLines(p', lines[1..], tail, end, max)
      case Stop(answer, p') => Prefixed(answer, RunLines(p', lines[1..], tail, end, max))
  }

  function AtEnd(p: Buffers, tail: seq<Byte>, end: ReaderEnd, max: nat): Session
    decreases |tail|
  {
    if |tail| > max then Prefixed(TooLarge, AtEnd(Reset(p), [], end, max))
    else
      var (answer, p') := OnStop(p, if end.Broken? then ReadFailed(end.err) else if tail == [] then CleanEnd
        else MidLineEnd);
      Session([answer], p')
  }

  lemma {:induction false} RunByLines(p: Buffers, s: seq<Byte>, end: ReaderEnd, max: nat)
    ensures Run(p, s, end, max) == RunLines(p, SplitLines(s).complete, SplitLines(s).tail, end, max)
    decreases |s|
  {
    var k := LineEnd(s);
    if k == |s| {
      RunToEnd(p, s, end, max);
    } else {
      var line, rest := s[..k], AfterBreak(s, k);
      var lines := SplitLines(s);
      assert lines.complete[0] == line && lines.complete[1..] == SplitLines(rest).complete;
      RunOneLine(p, s, end, max);
      RunByLines(if k > max then Reset(p) else OnLine(p, line, max).buffers, rest, end, max);
    }
  }

  lemma RunOneLine(p: Buffers, s: seq<Byte>, end: ReaderEnd, max: nat)
    requires LineEnd(s) < |s|
    ensures
      var k := LineEnd(s);
      var turn := if k > max then Stop(TooLarge, Reset(p)) else OnLine(p, s[..k], max);
      var later := Run(turn.buffers, AfterBreak(s, k), end, max);
      Run(p, s, end, max) == if turn.Continue? then later else Prefixed(turn.answer, later)
  {
    var k := LineEnd(s);
    if k <= max {
      assert ReadLine(s, end, max) == (Line(s[..k]), AfterBreak(s, k));
    }
  }

  lemma RunToEnd(p: Buffers, s: seq<Byte>, end: ReaderEnd, max: nat)
    requires LineEnd(s) == |s|
    ensures Run(p, s, end, max) == AtEnd(p, s, end, max)
    decreases |s|
  {
    if |s| > max {
      assert NextCall(p, s, end, max) == Call(TooLarge, Reset(p), []);
      RunToEnd(Reset(p), [], end, max);
    }
  }

  // ---- The buffers in the middle of a block -------------------------------------------

  /** Values, each with the line feed the data buffer keeps after it. */
  function Fed(values: seq<seq<Byte>>): seq<Byte> {
    if values == [] then [] else Fed(values[..|values| - 1]) + values[|values| - 1] + [LF]
  }

  function Buffered(id: seq<Byte>, retry: Option<int>, block: seq<seq<Byte>>): Buffers {
    Buffers(Fed(Values(block, DATA)), LastOr(Values(block, EVENT), []), IdAfter(id, block),
      RetryAfterBlock(retry, block))
  }

  predicate NoBlank(block: seq<seq<Byte>>) {
    forall i :: 0 <= i < |block| ==> block[i] != []
  }

  lemma FedIsJoined(values: seq<seq<Byte>>)
    requires values != []
    ensures Fed(values) == Joined(values) + [LF]
  {
    if |values| > 1 {
      FedIsJoined(values[..|values| - 1]);
    }
  }

  lemma LineExtends(block: seq<seq<Byte>>, line: seq<Byte>, field: seq<Byte>)
    requires line != []
    ensures Values(block + [line], field) == Values(block, field) + Adds(line, field)
  {
    assert (block + [line])[..|block|] == block;
  }

  lemma FedExtends(values: seq<seq<Byte>>, v: seq<Byte>)
    ensures Fed(values + [v]) == Fed(values) + v + [LF]
    ensures NulFree(values + [v]) == NulFree(values) + if NUL in v then [] else [v]
    ensures Retries(values + [v]) == Retries(values) + if RetryOf(v).None? then [] else [RetryOf(v)]
  {
    assert (values + [v])[..|values|] == values;
  }

  /** The value the line adds to the given field, if any. */
  function Adds(line: seq<Byte>, field: seq<Byte>): seq<seq<Byte>> {
    if line != [] && !IsComment(line) && FieldName(line) == field then [FieldValue(line)] else []
  }

  lemma DataAndName(block: seq<seq<Byte>>, line: seq<Byte>)
    requires line != []
    ensures Fed(Values(block + [line], DATA)) ==
            Fed(Values(block, DATA)) + if Adds(line, DATA) == [] then [] else FieldValue(line) + [LF]
    ensures LastOr(Values(block + [line], EVENT), []) ==
            if Adds(line, EVENT) == [] then LastOr(Values(block, EVENT), []) else FieldValue(line)
  {
    LineExtends(block, line, DATA);
    LineExtends(block, line, EVENT);
    FedExtends(Values(block, DATA), FieldValue(line));
  }

  lemma IdOf(id: seq<Byte>, block: seq<seq<Byte>>, line: seq<Byte>)
    requires line != []
    ensures IdAfter(id, block + [line]) ==
            if Adds(line, ID) == [] || NUL in FieldValue(line) then IdAfter(id, block) else FieldValue(line)
  {
    LineExtends(block, line, ID);
    var values, v := Values(block, ID), FieldValue(line);
    FedExtends(values, v);
    LastId(NulFree(values), v, id);
  }

  lemma LastId(ids: seq<seq<Byte>>, v: seq<Byte>, id: seq<Byte>)
    ensures LastOr(ids + [v], id) == v && ids + [] == ids
  {
  }

  lemma RetryDelayOf(retry: Option<int>, block: seq<seq<Byte>>, line: seq<Byte>)
    requires line != []
    ensures RetryAfterBlock(retry, block + [line]) ==
            if Adds(line, RETRY) == [] || RetryOf(FieldValue(line)).None? then RetryAfterBlock(retry, block)
            else RetryOf(FieldValue(line))
  {
    LineExtends(block, line, RETRY);
    var values, v := Values(block, RETRY), FieldValue(line);
    FedExtends(values, v);
    LastRetry(Retries(values), RetryOf(v), retry);
  }

  lemma LastRetry(delays: seq<Option<int>>, d: Option<int>, retry: Option<int>)
    ensures LastOr(delays + [d], retry) == d && delays + [] == delays
  {
  }

  lemma FieldsDiffer()
    ensures DATA != EVENT && DATA != ID && DATA != RETRY && EVENT != ID && EVENT != RETRY && ID != RETRY
  {
    assert DATA[0] != EVENT[0] && DATA[0] != ID[0] && DATA[0] != RETRY[0];
    assert EVENT[0] != ID[0] && EVENT[0] != RETRY[0] && ID[0] != RETRY[0];
  }

  lemma LineBuffers(id: seq<Byte>, retry: Option<int>, block: seq<seq<Byte>>, line: seq<Byte>, max: nat)
    requires line != []
    ensures
      var p := Buffered(id, retry, block + [line]);
      var over := Adds(line, DATA) != [] && |p.data| > max;
      OnLine(Buffered(id, retry, block), line, max) == if over then Stop(TooLarge, Reset(p)) else Continue(p)
  {
    DataAndName(block, line);
    IdOf(id, block, line);
    RetryDelayOf(retry, block, line);
    FieldsDiffer();
    LineBuffersOf(Buffered(id, retry, block), Buffered(id, retry, block + [line]), line, max);
  }

  lemma LineBuffersOf(p: Buffers, p': Buffers, line: seq<Byte>, max: nat)
    requires line != [] && DATA != EVENT && DATA != ID && DATA != RETRY && EVENT != ID && EVENT != RETRY && ID != RETRY
    requires p'.data == p.data + if Adds(line, DATA) == [] then [] else FieldValue(line) + [LF]
    requires p'.name == if Adds(line, EVENT) == [] then p.name else FieldValue(line)
    requires p'.id == if Adds(line, ID) == [] || NUL in FieldValue(line) then p.id else FieldValue(line)
    requires p'.retry == if Adds(line, RETRY) == [] || RetryOf(FieldValue(line)).None? then p.retry
      else RetryOf(FieldValue(line))
    ensures OnLine(p, line, max) ==
            if Adds(line, DATA) != [] && |p'.data| > max then Stop(TooLarge, Reset(p')) else Continue(p')
  {
    assert p.data + [] == p.data;
    assert p.data + FieldValue(line) + [LF] == p.data + (FieldValue(line) + [LF]);
  }

  lemma BlankDispatches(id: seq<Byte>, retry: Option<int>, block: seq<seq<Byte>>, max: nat)
    ensures
      var after := Buffered(IdAfter(id, block), RetryAfterBlock(retry, block), []);
      OnLine(Buffered(id, retry, block), [], max) ==
      if Dispatch(id, block) == [] then Continue(after) else Stop(Dispatched(Dispatch(id, block)[0]), after)
  {
    if Values(block, DATA) != [] {
      FedIsJoined(Values(block, DATA));
      var joined := Joined(Values(block, DATA));
      assert (joined + [LF])[..|joined|] == joined;
    }
  }

  // ---- The caps -----------------------------------------------------------------------

  /** A block keeps to the cap when each of its lines and its data buffer do. */
  predicate BlockFits(block: seq<seq<Byte>>, max: nat) {
    (forall i :: 0 <= i < |block| ==> |block[i]| <= max) && |Fed(Values(block, DATA))| <= max
  }

  predicate Fits(lines: seq<seq<Byte>>, max: nat)
    decreases |lines|
  {
    var b := BlockEnd(lines);
    BlockFits(lines[..b], max) && (b < |lines| ==> Fits(lines[b + 1..], max))
  }

  lemma {:induction false} DataGrows(block: seq<seq<Byte>>, more: seq<seq<Byte>>)
    requires NoBlank(more)
    ensures |Fed(Values(block, DATA))| <= |Fed(Values(block + more, DATA))|
    decreases |more|
  {
    if more == [] {
      assert block + more == block;
    } else {
      var line := more[0];
      LineExtends(block, line, DATA);
      FedExtends(Values(block, DATA), FieldValue(line));
      assert block + [line] + more[1..] == block + more;
      DataGrows(block + [line], more[1..]);
    }
  }

  /** A prefix of non-blank lines fits if the whole does. */
  lemma PrefixFits(block: seq<seq<Byte>>, rest: seq<seq<Byte>>, max: nat)
    requires NoBlank(block) && Fits(block + rest, max)
    ensures BlockFits(block, max)
  {
    var lines := block + rest;
    var b := BlockEnd(rest);
    BlockEndIs(lines, |block| + b);
    assert lines[..|block| + b] == block + rest[..b];
    DataGrows(block, rest[..b]);
    assert forall i :: 0 <= i < |block| ==> block[i] == (block + rest[..b])[i];
  }

  // ---- The theorem --------------------------------------------------------------------

  function Dispatches(events: seq<Event>): seq<Next> {
    if events == [] then [] else [Dispatched(events[0])] + Dispatches(events[1..])
  }

  lemma OnlyDispatches(events: seq<Event>)
    ensures TooLarge !in Dispatches(events)
  {
  }

  /** The answer at the end of a stream that keeps to the caps. */
  function LastAnswer(tail: seq<Byte>, unfinished: seq<seq<Byte>>, end: ReaderEnd): Next {
    if end.Broken? then Failed(end.err)
    else if tail == [] && Values(unfinished, DATA) == [] && LastOr(Values(unfinished, EVENT), []) == [] then Eof
    else UnexpectedEof
  }

  predicate Faithful(run: Session, m: Meaning, tail: seq<Byte>, end: ReaderEnd) {
    && run.answers == Dispatches(m.events) + [LastAnswer(tail, m.unfinished, end)]
    && run.buffers == Buffers([], [], m.id, m.retry)
  }

  /** Faithful within the caps; over them, some call says so. */
  predicate Right(run: Session, lines: Lines, id: seq<Byte>, retry: Option<int>, end: ReaderEnd, max: nat) {
    if Fits(lines.complete, max) && |lines.tail| <= max
    then Faithful(run, Interpret(lines.complete, id, retry), lines.tail, end)
    else TooLarge in run.answers
  }

  /** A dispatch, or none, in front of a faithful session. */
  lemma Prepend(run: Session, later: Session, d: seq<Event>, m: Meaning, tail: seq<Byte>, end: ReaderEnd)
    requires Faithful(later, m, tail, end) && |d| <= 1
    requires run == if d == [] then later else Session([Dispatched(d[0])] + later.answers, later.buffers)
    ensures Faithful(run, Meaning(d + m.events, m.id, m.retry, m.unfinished), tail, end)
  {
    SameEvents(d, m.events);
  }

  lemma EndOfStream(id: seq<Byte>, retry: Option<int>, block: seq<seq<Byte>>, tail: seq<Byte>, end: ReaderEnd, max: nat)
    requires NoBlank(block) && BlockFits(block, max)
    ensures Right(AtEnd(Buffered(id, retry, block), tail, end, max), Lines(block, tail), id, retry, end, max)
  {
    BlockEndIs(block, |block|);
    assert block[..|block|] == block;
  }

  lemma {:induction false} Follow(id: seq<Byte>, retry: Option<int>, block: seq<seq<Byte>>, lines: seq<seq<Byte>>,
                                  tail: seq<Byte>, end: ReaderEnd, max: nat)
    requires NoBlank(block) && BlockFits(block, max)
    ensures Right(RunLines(Buffered(id, retry, block), lines, tail, end, max), Lines(block + lines, tail), id, retry,
      end, max)
    decreases |lines|, 1
  {
    if lines == [] {
      EndOfStream(id, retry, block, tail, end, max);
      assert block + lines == block;
    } else if |lines[0]| > max {
      if Fits(block + lines, max) {
        LineFits(block, lines, max);
      }
    } else if lines[0] == [] {
      FollowBlank(id, retry, block, lines, tail, end, max);
    } else {
      FollowField(id, retry, block, lines, tail, end, max);
    }
  }

  lemma LineFits(block: seq<seq<Byte>>, rest: seq<seq<Byte>>, max: nat)
    requires NoBlank(block) && rest != [] && Fits(block + rest, max)
    ensures |rest[0]| <= max
  {
    if rest[0] != [] {
      assert block + rest == block + [rest[0]] + rest[1..];
      PrefixFits(block + [rest[0]], rest[1..], max);
      assert (block + [rest[0]])[|block|] == rest[0];
    }
  }

  lemma BlankReads(id: seq<Byte>, retry: Option<int>, block: seq<seq<Byte>>, later: seq<seq<Byte>>)
    requires NoBlank(block)
    ensures
      var rest := Interpret(later, IdAfter(id, block), RetryAfterBlock(retry, block));
      Interpret(block + [[]] + later, id, retry) ==
      Meaning(Dispatch(id, block) + rest.events, rest.id, rest.retry, rest.unfinished)
  {
    var lines: seq<seq<Byte>> := block + [[]] + later;
    BlockEndIs(lines, |block|);
    assert lines[..|block|] == block && lines[|block| + 1..] == later;
  }

  lemma BlankFits(block: seq<seq<Byte>>, later: seq<seq<Byte>>, max: nat)
    requires NoBlank(block)
    ensures Fits(block + [[]] + later, max) <==> BlockFits(block, max) && Fits(later, max)
  {
    var lines: seq<seq<Byte>> := block + [[]] + later;
    BlockEndIs(lines, |block|);
    assert lines[..|block|] == block && lines[|block| + 1..] == later;
  }

  lemma FollowBlank(id: seq<Byte>, retry: Option<int>, block: seq<seq<Byte>>, lines: seq<seq<Byte>>, tail: seq<Byte>,
                    end: ReaderEnd, max: nat)
    requires NoBlank(block) && BlockFits(block, max) && lines != [] && lines[0] == []
    ensures Right(RunLines(Buffered(id, retry, block), lines, tail, end, max), Lines(block + lines, tail), id, retry,
      end, max)
    decreases |lines|, 0
  {
    var later := lines[1..];
    var id', retry' := IdAfter(id, block), RetryAfterBlock(retry, block);
    BlankDispatches(id, retry, block, max);
    FollowFresh(id', retry', later, tail, end, max);
    assert block + lines == block + [[]] + later;
    RightBlank(RunLines(Buffered(id, retry, block), lines, tail, end, max),
      RunLines(Buffered(id', retry', []), later, tail, end, max),
      id, retry, block, Lines(later, tail), end, max);
  }

  lemma FollowFresh(id: seq<Byte>, retry: Option<int>, lines: seq<seq<Byte>>, tail: seq<Byte>, end: ReaderEnd, max: nat)
    ensures Right(RunLines(Buffered(id, retry, []), lines, tail, end, max), Lines(lines, tail), id, retry, end, max)
    decreases |lines|, 2
  {
    Follow(id, retry, [], lines, tail, end, max);
    assert [] + lines == lines;
  }

  lemma RightBlank(run: Session, next: Session, id: seq<Byte>, retry: Option<int>, block: seq<seq<Byte>>, later: Lines,
                   end: ReaderEnd, max: nat)
    requires NoBlank(block) && BlockFits(block, max)
    requires Right(next, later, IdAfter(id, block), RetryAfterBlock(retry, block), end, max)
    requires var d := Dispatch(id, block);
      run == if d == [] then next else Session([Dispatched(d[0])] + next.answers, next.buffers)
    ensures Right(run, Lines(block + [[]] + later.complete, later.tail), id, retry, end, max)
  {
    BlankReads(id, retry, block, later.complete);
    BlankFits(block, later.complete, max);
    if Fits(later.complete, max) && |later.tail| <= max {
      Prepend(run, next, Dispatch(id, block),
        Interpret(later.complete, IdAfter(id, block), RetryAfterBlock(retry, block)), later.tail, end);
    }
  }

  lemma FollowField(id: seq<Byte>, retry: Option<int>, block: seq<seq<Byte>>, lines: seq<seq<Byte>>, tail: seq<Byte>,
                    end: ReaderEnd, max: nat)
    requires NoBlank(block) && BlockFits(block, max) && lines != [] && 0 < |lines[0]| <= max
    ensures Right(RunLines(Buffered(id, retry, block), lines, tail, end, max), Lines(block + lines, tail), id, retry,
      end, max)
    decreases |lines|, 0
  {
    var line, later := lines[0], lines[1..];
    LineBuffers(id, retry, block, line, max);
    LineExtends(block, line, DATA);
    assert block + lines == block + [line] + later;
    if BlockFits(block + [line], max) {
      Follow(id, retry, block + [line], later, tail, end, max);
    } else {
      if Fits(block + [line] + later, max) {
        PrefixFits(block + [line], later, max);
      }
    }
  }

  /** Main theorem. On every stream, with and without a byte order mark and whatever its line
      breaks, repeated calls of Next answer exactly the events the stream means, in order, then
      the right end, and leave the id and the retry delay the stream means, if every line and
      every block's data keep to the cap; otherwise some call answers ErrEventTooLarge. */
  lemma ParserMeetsFormat(stream: seq<Byte>, end: ReaderEnd, max: nat)
    ensures
      var lines := SplitLines(StripBom(stream));
      var run := Run(EMPTY, StripBom(stream), end, max);
      && (TooLarge !in run.answers <==> Fits(lines.complete, max) && |lines.tail| <= max)
      && (TooLarge !in run.answers ==> Faithful(run, Interpret(lines.complete, [], None), lines.tail, end))
  {
    var s := StripBom(stream);
    RunByLines(EMPTY, s, end, max);
    FollowFresh([], None, SplitLines(s).complete, SplitLines(s).tail, end, max);
    assert Buffered([], None, []) == EMPTY;
    OnlyDispatches(Interpret(SplitLines(s).complete, [], None).events);
  }

  /** What follows the first line of a stream. */
  function AfterFirstLine(s: seq<Byte>): seq<Byte> {
    if LineEnd(s) == |s| then [] else AfterBreak(s, LineEnd(s))
  }

  /** Where Next stands in the middle of a call. */
  datatype Cursor = Cursor(buffers: Buffers, rest: seq<Byte>)

  /** Where it stands after n lines, if each is within the cap and lets it go on. */
  function AfterLines(at: Cursor, n: nat, max: nat): Option<Cursor>
    decreases n
  {
    if n == 0 then Some(at)
    else if !GoesOn(at, max) then None
    else AfterLines(OneLine(at, max), n - 1, max)
  }

  predicate GoesOn(at: Cursor, max: nat) {
    var k := LineEnd(at.rest);
    k <= max && k < |at.rest| && OnLine(at.buffers, at.rest[..k], max).Continue?
  }

  function OneLine(at: Cursor, max: nat): Cursor {
    Cursor(OnLine(at.buffers, at.rest[..LineEnd(at.rest)], max).buffers, AfterFirstLine(at.rest))
  }

  /** The line at hand is over the cap, or its data takes the data buffer over it. */
  predicate TripsCap(at: Cursor, max: nat) {
    var k := LineEnd(at.rest);
    k > max || (k < |at.rest| && OnLine(at.buffers, at.rest[..k], max).Stop?
      && OnLine(at.buffers, at.rest[..k], max).answer == TooLarge)
  }

  /** The n lines from the cursor on were read as usual, the next tripped the cap, and the call
      left the buffers empty and the reader right after that line. */
  predicate SkippedAt(c: Call, from: Cursor, n: nat, max: nat) {
    var at := AfterLines(from, n, max);
    && at.Some? && TripsCap(at.value, max)
    && c.buffers.data == [] && c.buffers.name == [] && c.rest == AfterFirstLine(at.value.rest)
  }

  lemma SkippedOn(c: Call, from: Cursor, n: nat, max: nat)
    requires GoesOn(from, max) && SkippedAt(c, OneLine(from, max), n, max)
    ensures SkippedAt(c, from, n + 1, max)
  {
  }

  predicate Answers(c: Call, at: Cursor, end: ReaderEnd, max: nat) {
    c == NextCall(at.buffers, at.rest, end, max)
  }

  lemma {:induction false} SkippedSomewhere(c: Call, at: Cursor, end: ReaderEnd, max: nat) returns (n: nat)
    requires Answers(c, at, end, max) && c.answer == TooLarge
    ensures SkippedAt(c, at, n, max)
    decreases |at.rest|
  {
    if TripsCap(at, max) {
      n := 0;
      TripAnswers(c, at, end, max);
    } else {
      NextGoesOn(c, at, end, max);
      n := SkippedSomewhere(c, OneLine(at, max), end, max);
      SkippedOn(c, at, n, max);
      n := n + 1;
    }
  }

  lemma TripAnswers(c: Call, at: Cursor, end: ReaderEnd, max: nat)
    requires Answers(c, at, end, max) && TripsCap(at, max)
    ensures SkippedAt(c, at, 0, max)
  {
  }

  lemma NextGoesOn(c: Call, at: Cursor, end: ReaderEnd, max: nat)
    requires Answers(c, at, end, max) && c.answer == TooLarge && !TripsCap(at, max)
    ensures GoesOn(at, max) && |OneLine(at, max).rest| < |at.rest| && Answers(c, OneLine(at, max), end, max)
  {
  }

  /** After an over-cap answer the buffers are empty and the reader stands right after the line
      that tripped the cap, at the start of the next line, whether or not that line belongs to
      the same event. The n lines before that one were read as usual. */
  lemma OversizeIsSkippedByLine(p: Buffers, s: seq<Byte>, end: ReaderEnd, max: nat) returns (n: nat)
    requires NextCall(p, s, end, max).answer == TooLarge
    ensures SkippedAt(NextCall(p, s, end, max), Cursor(p, s), n, max)
  {
    n := SkippedSomewhere(NextCall(p, s, end, max), Cursor(p, s), end, max);
  }

  // ---- What is left of an abandoned event ------------------------------------------------------

  /** Lines read from empty buffers: how often they trip the cap, the id and the retry value in
      force since the last time, and the lines since then. */
  datatype Carry = Carry(trips: nat, id: seq<Byte>, retry: Option<int>, block: seq<seq<Byte>>)

  function Tripped(c: Carry, block: seq<seq<Byte>>): Carry {
    Carry(c.trips + 1, IdAfter(c.id, block), RetryAfterBlock(c.retry, block), [])
  }

  function Carried(id: seq<Byte>, retry: Option<int>, lines: seq<seq<Byte>>, max: nat): Carry
    decreases |lines|
  {
    if lines == [] then Carry(0, id, retry, [])
    else CarriedOn(Carried(id, retry, lines[..|lines| - 1], max), lines[|lines| - 1], max)
  }

  function CarriedOn(c: Carry, line: seq<Byte>, max: nat): Carry {
    if |line| > max then Tripped(c, c.block)
    else if Adds(line, DATA) != [] && |Fed(Values(c.block + [line], DATA))| > max then Tripped(c, c.block + [line])
    else Carry(c.trips, c.id, c.retry, c.block + [line])
  }

  function Oversizes(n: nat): (r: seq<Next>)
    ensures |r| == n
  {
    if n == 0 then [] else Oversizes(n - 1) + [TooLarge]
  }

  lemma ResetIs(id: seq<Byte>, retry: Option<int>, block: seq<seq<Byte>>)
    ensures Reset(Buffered(id, retry, block)) == Buffered(IdAfter(id, block), RetryAfterBlock(retry, block), [])
  {
  }

  /** One line more. */
  lemma CarryLine(c: Carry, line: seq<Byte>, rest: seq<seq<Byte>>, tail: seq<Byte>, end: ReaderEnd, max: nat)
    requires line != []
    ensures
      var run := RunLines(Buffered(c.id, c.retry, c.block), [line] + rest, tail, end, max);
      if |line| > max then
        var t := Tripped(c, c.block);
        run == Prefixed(TooLarge, RunLines(Buffered(t.id, t.retry, t.block), rest, tail, end, max))
      else if Adds(line, DATA) != [] && |Fed(Values(c.block + [line], DATA))| > max then
        var t := Tripped(c, c.block + [line]);
        run == Prefixed(TooLarge, RunLines(Buffered(t.id, t.retry, t.block), rest, tail, end, max))
      else run == RunLines(Buffered(c.id, c.retry, c.block + [line]), rest, tail, end, max)
  {
    assert ([line] + rest)[1..] == rest;
    ResetIs(c.id, c.retry, c.block);
    ResetIs(c.id, c.retry, c.block + [line]);
    LineBuffers(c.id, c.retry, c.block, line, max);
  }

  lemma {:induction false} CarryRuns(id: seq<Byte>, retry: Option<int>, lines: seq<seq<Byte>>, rest: seq<seq<Byte>>,
                                     tail: seq<Byte>, end: ReaderEnd, max: nat)
    requires NoBlank(lines)
    ensures
      var c := Carried(id, retry, lines, max);
      RunLines(Buffered(id, retry, []), lines + rest, tail, end, max).answers ==
      Oversizes(c.trips) + RunLines(Buffered(c.id, c.retry, c.block), rest, tail, end, max).answers
    decreases |lines|
  {
    if lines == [] {
      assert lines + rest == rest;
    } else {
      var before, line := lines[..|lines| - 1], lines[|lines| - 1];
      CarryRuns(id, retry, before, [line] + rest, tail, end, max);
      assert before + ([line] + rest) == lines + rest;
      CarryOne(Carried(id, retry, before, max), Carried(id, retry, lines, max), line, rest, tail, end, max);
    }
  }

  lemma CarryOne(c: Carry, c': Carry, line: seq<Byte>, rest: seq<seq<Byte>>, tail: seq<Byte>, end: ReaderEnd, max: nat)
    requires line != [] && c' == CarriedOn(c, line, max)
    ensures
      Oversizes(c.trips) + RunLines(Buffered(c.id, c.retry, c.block), [line] + rest, tail, end, max).answers ==
      Oversizes(c'.trips) + RunLines(Buffered(c'.id, c'.retry, c'.block), rest, tail, end, max).answers
  {
    CarryLine(c, line, rest, tail, end, max);
    OversizesOneMore(c.trips, c', rest, tail, end, max);
  }

  lemma OversizesOneMore(n: nat, c: Carry, rest: seq<seq<Byte>>, tail: seq<Byte>, end: ReaderEnd, max: nat)
    ensures
      var later := RunLines(Buffered(c.id, c.retry, c.block), rest, tail, end, max);
      Oversizes(n) + Prefixed(TooLarge, later).answers == Oversizes(n + 1) + later.answers
  {
  }

  /** The lines since the last trip fit, and nothing tripped exactly when all of them do. */
  lemma {:induction false} CarriedFits(id: seq<Byte>, retry: Option<int>, lines: seq<seq<Byte>>, max: nat)
    requires NoBlank(lines)
    ensures
      var c := Carried(id, retry, lines, max);
      && BlockFits(c.block, max) && (c.trips == 0 <==> BlockFits(lines, max))
      && (c.trips == 0 ==> c.block == lines && c.id == id && c.retry == retry)
    decreases |lines|
  {
    if lines != [] {
      var before, line := lines[..|lines| - 1], lines[|lines| - 1];
      CarriedFits(id, retry, before, max);
      assert before + [line] == lines;
      CarriedLine(Carried(id, retry, before, max), Carried(id, retry, lines, max), id, retry, before, line, max);
    }
  }

  lemma CarriedLine(c: Carry, c': Carry, id: seq<Byte>, retry: Option<int>, before: seq<seq<Byte>>, line: seq<Byte>,
                    max: nat)
    requires line != [] && BlockFits(c.block, max) && (c.trips == 0 <==> BlockFits(before, max))
    requires c.trips == 0 ==> c.block == before && c.id == id && c.retry == retry
    requires c' == CarriedOn(c, line, max)
    ensures BlockFits(c'.block, max) && (c'.trips == 0 <==> BlockFits(before + [line], max))
    ensures c'.trips == 0 ==> c'.block == before + [line] && c'.id == id && c'.retry == retry
  {
    FitsOneMore(before, line, max);
    FitsOneMore(c.block, line, max);
    assert BlockFits([], max);
  }

  lemma FitsOneMore(block: seq<seq<Byte>>, line: seq<Byte>, max: nat)
    requires line != []
    ensures BlockFits(block + [line], max) <==>
            BlockFits(block, max) && |line| <= max
              && !(Adds(line, DATA) != [] && |Fed(Values(block + [line], DATA))| > max)
  {
    LineExtends(block, line, DATA);
    FedExtends(Values(block, DATA), FieldValue(line));
    assert (block + [line])[|block|] == line;
    assert forall i :: 0 <= i < |block| ==> (block + [line])[i] == block[i];
  }

  /** What is left of an abandoned event, with its blank line and whatever follows: first one
      ErrEventTooLarge for each further trip of the cap, then the event that the lines since the
      last trip make, if a data line is among them, then what follows. */
  lemma RemainderOfAbandonedEvent(id: seq<Byte>, retry: Option<int>, remainder: seq<seq<Byte>>, s: seq<Byte>,
                                  later: seq<Byte>, end: ReaderEnd, max: nat)
    requires NoBlank(remainder)
    requires SplitLines(s) == Lines(remainder + [[]] + SplitLines(later).complete, SplitLines(later).tail)
    ensures
      var c := Carried(id, retry, remainder, max);
      var left := Run(Buffers([], [], id, retry), s, end, max).answers;
      var following := Run(Buffers([], [], IdAfter(c.id, c.block), RetryAfterBlock(c.retry, c.block)), later, end,
        max).answers;
      && left == Oversizes(c.trips) + Dispatches(Dispatch(c.id, c.block)) + following
      && (left == following <==> ShortLines(remainder, max) && Values(remainder, DATA) == [])
  {
    var lines := SplitLines(later);
    var c := Carried(id, retry, remainder, max);
    RunByLines(Buffered(id, retry, []), s, end, max);
    RunByLines(Buffered(IdAfter(c.id, c.block), RetryAfterBlock(c.retry, c.block), []), later, end, max);
    RemainderLines(id, retry, remainder, lines.complete, lines.tail, end, max);
  }

  lemma RemainderLines(id: seq<Byte>, retry: Option<int>, remainder: seq<seq<Byte>>, later: seq<seq<Byte>>,
                       tail: seq<Byte>, end: ReaderEnd, max: nat)
    requires NoBlank(remainder)
    ensures
      var c := Carried(id, retry, remainder, max);
      var left := RunLines(Buffered(id, retry, []), remainder + [[]] + later, tail, end, max).answers;
      var following := RunLines(Buffered(IdAfter(c.id, c.block), RetryAfterBlock(c.retry, c.block), []), later, tail,
        end, max).answers;
      && left == Oversizes(c.trips) + Dispatches(Dispatch(c.id, c.block)) + following
      && (left == following <==> ShortLines(remainder, max) && Values(remainder, DATA) == [])
  {
    var c := Carried(id, retry, remainder, max);
    assert remainder + [[]] + later == remainder + ([[]] + later);
    CarryRuns(id, retry, remainder, [[]] + later, tail, end, max);
    BlankAnswers(c, later, tail, end, max);
    NothingLeftIff(id, retry, remainder, max);
    InFront(Oversizes(c.trips), Dispatches(Dispatch(c.id, c.block)),
      RunLines(Buffered(IdAfter(c.id, c.block), RetryAfterBlock(c.retry, c.block), []), later, tail, end, max).answers);
  }

  lemma InFront(o: seq<Next>, d: seq<Next>, f: seq<Next>)
    ensures o + (d + f) == o + d + f
    ensures o + d + f == f <==> o == [] && d == []
  {
    if o + d + f == f {
      assert |o + d + f| == |o| + |d| + |f|;
    }
    if o == [] && d == [] {
      assert o + d + f == f;
    }
  }

  predicate ShortLines(lines: seq<seq<Byte>>, max: nat) {
    forall i :: 0 <= i < |lines| ==> |lines[i]| <= max
  }

  lemma BlankAnswers(c: Carry, later: seq<seq<Byte>>, tail: seq<Byte>, end: ReaderEnd, max: nat)
    ensures
      var following := RunLines(Buffered(IdAfter(c.id, c.block), RetryAfterBlock(c.retry, c.block), []), later, tail,
        end, max).answers;
      RunLines(Buffered(c.id, c.retry, c.block), [[]] + later, tail, end, max).answers ==
        Dispatches(Dispatch(c.id, c.block)) + following
  {
    BlankDispatches(c.id, c.retry, c.block, max);
    assert ([[]] + later)[1..] == later;
    SameEvents(Dispatch(c.id, c.block), []);
    assert Dispatch(c.id, c.block) + [] == Dispatch(c.id, c.block);
  }

  lemma NothingLeftIff(id: seq<Byte>, retry: Option<int>, lines: seq<seq<Byte>>, max: nat)
    requires NoBlank(lines)
    ensures
      var c := Carried(id, retry, lines, max);
      c.trips == 0 && Dispatch(c.id, c.block) == [] <==> ShortLines(lines, max) && Values(lines, DATA) == []
  {
    CarriedFits(id, retry, lines, max);
  }

  lemma SameEvents(d: seq<Event>, events: seq<Event>)
    requires |d| <= 1
    ensures Dispatches(d + events) == (if d == [] then [] else [Dispatched(d[0])]) + Dispatches(events)
  {
    if d == [] {
      assert d + events == events;
    } else {
      assert (d + events)[1..] == events;
    }
  }
}
