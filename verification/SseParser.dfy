/** The streaming parser of adapter/http/sse.go: what each call of Next does to the buffers and
    to the unread part of the stream, and the byte loops that do it. */
module SseParser {
  import opened Reliability
  import opened SseSpec

  /** The parser's buffers. retry is the RetryDelay pair. */
  datatype Buffers = Buffers(data: seq<Byte>, name: seq<Byte>, id: seq<Byte>, retry: Option<int>)

  const EMPTY := Buffers([], [], [], None)

  function Reset(p: Buffers): Buffers {
    p.(data := [], name := [])
  }

  /** How the underlying reader ends: io.EOF, or another error that every later read repeats. */
  datatype ReaderEnd = AtEof | Broken(err: Error)

  datatype ReadResult =
    | Line(line: seq<Byte>)
    | CleanEnd
    | MidLineEnd
    | LineTooLong
    | ReadFailed(err: Error)

  /** readLine, by what it reads: the result and the unread rest. An over-long line is drained
      to its terminator. */
  function ReadLine(s: seq<Byte>, end: ReaderEnd, max: nat): (ReadResult, seq<Byte>) {
    var k := LineEnd(s);
    if k > max then (LineTooLong, if k == |s| then [] else AfterBreak(s, k))
    else if k < |s| then (Line(s[..k]), AfterBreak(s, k))
    else if end.Broken? then (ReadFailed(end.err), [])
    else if k == 0 then (CleanEnd, [])
    else (MidLineEnd, [])
  }

  /** processField: the buffers after the line, and whether the data buffer went over the cap. */
  function ProcessField(p: Buffers, line: seq<Byte>, max: nat): (Buffers, bool) {
    var field, value := FieldName(line), FieldValue(line);
    if field == DATA then
      var p' := p.(data := p.data + value + [LF]);
      (p', |p'.data| > max)
    else if field == EVENT then (p.(name := value), false)
    else if field == ID then (if NUL in value then p else p.(id := value), false)
    else if field == RETRY then (if RetryOf(value).Some? then p.(retry := RetryOf(value)) else p, false)
    else (p, false)
  }

  datatype Next = Dispatched(event: Event) | Eof | UnexpectedEof | TooLarge | Failed(err: Error)

  /** A call of Next: its answer, the buffers and the unread rest afterwards. */
  datatype Call = Call(answer: Next, buffers: Buffers, rest: seq<Byte>)

  /** What one complete line leads to. */
  datatype Turn = Continue(buffers: Buffers) | Stop(answer: Next, buffers: Buffers)

  function OnLine(p: Buffers, line: seq<Byte>, max: nat): Turn {
    if line == [] then
      if p.data == [] then Continue(p.(name := []))
      else Stop(Dispatched(Event(p.id, p.name, p.data[..|p.data| - 1])), Reset(p))
    else if IsComment(line) then Continue(p)
    else
      var (p', over) := ProcessField(p, line, max);
      if over then Stop(TooLarge, Reset(p')) else Continue(p')
  }

  /** What the end of the reader, or an over-long line, leads to. */
  function OnStop(p: Buffers, result: ReadResult): (Next, Buffers)
    requires !result.Line?
  {
    match result
    case CleanEnd => if p.data != [] || p.name != [] then (UnexpectedEof, Reset(p)) else (Eof, p)
    case MidLineEnd => (UnexpectedEof, Reset(p))
    case LineTooLong => (TooLarge, Reset(p))
    case ReadFailed(e) => (Failed(e), Reset(p))
  }

  function NextCall(p: Buffers, s: seq<Byte>, end: ReaderEnd, max: nat): (r: Call)
    ensures r.answer.Dispatched? || r.answer.TooLarge? ==> |r.rest| < |s|
    decreases |s|
  {
    var (result, rest) := ReadLine(s, end, max);
    if !result.Line? then
      var (answer, p') := OnStop(p, result);
      Call(answer, p', rest)
    else
      match OnLine(p, result.line, max)
      case Continue(p') => NextCall(p', rest, end, max)
      case Stop(answer, p') => Call(answer, p', rest)
  }

  // ---- The parser in its own form -----------------------------------------------------

  class Parser {
    const input: seq<Byte>
    const end: ReaderEnd
    const maxEventBytes: nat
    var pos: nat
    var dataBuf: seq<Byte>
    var typeBuf: seq<Byte>
    var idBuf: seq<Byte>
    var retry: Option<int>

    ghost predicate Valid()
      reads this
    {
      pos <= |input|
    }

    ghost function Unread(): seq<Byte>
      reads this
      requires Valid()
    {
      input[pos..]
    }

    ghost function Held(): Buffers
      reads this
    {
      Buffers(dataBuf, typeBuf, idBuf, retry)
    }

    /** newSSEParserWithCap: one leading byte order mark is consumed. */
    constructor (stream: seq<Byte>, end: ReaderEnd, max: nat)
      ensures Valid() && input == stream && this.end == end && maxEventBytes == max
      ensures Held() == EMPTY && Unread() == StripBom(stream)
    {
      input, this.end, maxEventBytes := stream, end, max;
      pos := if |stream| >= 3 && stream[..3] == BOM then 3 else 0;
      dataBuf, typeBuf, idBuf, retry := [], [], [], None;
    }

    /** A peeked LF right after a CR belongs to the same line break. */
    method SkipPairedLf()
      requires Valid()
      modifies this`pos
      ensures Valid()
      ensures pos == if old(pos) < |input| && input[old(pos)] == LF then old(pos) + 1 else old(pos)
    {
      if pos < |input| && input[pos] == LF {
        pos := pos + 1;
      }
    }

    /** readLine: byte by byte, with the per-line cap. */
    method ReadLineBytes() returns (r: ReadResult)
      requires Valid()
      modifies this`pos
      ensures Valid()
      ensures (r, Unread()) == ReadLine(old(Unread()), end, maxEventBytes)
    {
      var buf: seq<Byte> := [];
      ghost var s := Unread();
      ghost var start := pos;
      while pos < |input|
        invariant start <= pos <= |input| && pos == start + |buf| && |buf| <= maxEventBytes
        invariant buf == s[..|buf|] && forall i :: 0 <= i < |buf| ==> !IsBreak(s[i])
        decreases |input| - pos
      {
        var b := input[pos];
        assert b == s[|buf|];
        pos := pos + 1;
        if IsBreak(b) {
          LineEndIs(s, |buf|);
          AfterBreakAt(input, start, |buf|);
          if b == CR {
            SkipPairedLf();
          }
          return Line(buf);
        }
        buf := buf + [b];
        if |buf| > maxEventBytes {
          LongLine(s, |buf|);
          DrainLine(start);
          return LineTooLong;
        }
      }
      LineEndIs(s, |buf|);
      assert Unread() == [] && LineEnd(s) == |s| == |buf|;
      if end.Broken? {
        return ReadFailed(end.err);
      }
      return if |buf| == 0 then CleanEnd else MidLineEnd;
    }

    /** drainLine: reads and discards up to and including the terminator, or to the end. */
    method DrainLine(ghost start: nat)
      requires Valid() && start <= pos && forall i :: start <= i < pos ==> !IsBreak(input[i])
      modifies this`pos
      ensures Valid()
      ensures var s := input[start..]; Unread() == if LineEnd(s) == |s| then [] else AfterBreak(s, LineEnd(s))
    {
      while pos < |input|
        invariant start <= pos <= |input| && forall i :: start <= i < pos ==> !IsBreak(input[i])
        decreases |input| - pos
      {
        var b := input[pos];
        if IsBreak(b) {
          LineEndIs(input[start..], pos - start);
          AfterBreakAt(input, start, pos - start);
          pos := pos + 1;
          if b == CR {
            SkipPairedLf();
          }
          return;
        }
        pos := pos + 1;
      }
      LineEndIs(input[start..], pos - start);
    }

    method NextEvent() returns (answer: Next)
      requires Valid() && |dataBuf| <= maxEventBytes
      modifies this
      ensures Valid() && |dataBuf| <= maxEventBytes
      ensures Call(answer, Held(), Unread()) == NextCall(old(Held()), old(Unread()), end, maxEventBytes)
    {
      while true
        invariant Valid() && |dataBuf| <= maxEventBytes
        invariant NextCall(Held(), Unread(), end, maxEventBytes) ==
          NextCall(old(Held()), old(Unread()), end, maxEventBytes)
        decreases |input| - pos
      {
        ghost var p, s := Held(), Unread();
        var r := ReadLineBytes();
        assert Held() == p;
        match r
        case Line(line) =>
          assert |Unread()| < |s|;
          var dispatched := TakeLine(line);
          if dispatched.Some? {
            return dispatched.value;
          }
        case _ =>
          answer := EndOfInput(r);
          return;
      }
    }

    method EndOfInput(r: ReadResult) returns (answer: Next)
      requires !r.Line? && |dataBuf| <= maxEventBytes
      modifies this`dataBuf, this`typeBuf
      ensures (answer, Held()) == OnStop(old(Held()), r) && |dataBuf| <= maxEventBytes
    {
      match r {
        case CleanEnd =>
          if dataBuf == [] && typeBuf == [] {
            return Eof;
          }
          answer := UnexpectedEof;
        case MidLineEnd => answer := UnexpectedEof;
        case LineTooLong => answer := TooLarge;
        case ReadFailed(e) => answer := Failed(e);
      }
      dataBuf, typeBuf := [], [];
    }

    method TakeLine(line: seq<Byte>) returns (answer: Option<Next>)
      requires |dataBuf| <= maxEventBytes && |line| <= maxEventBytes
      modifies this`dataBuf, this`typeBuf, this`idBuf, this`retry
      ensures |dataBuf| <= maxEventBytes
      ensures OnLine(old(Held()), line, maxEventBytes) ==
              (if answer.Some? then Stop(answer.value, Held()) else Continue(Held()))
    {
      if line == [] {
        if dataBuf == [] {
          typeBuf := [];
          return None;
        }
        answer := Some(Dispatched(Event(idBuf, typeBuf, dataBuf[..|dataBuf| - 1])));
        dataBuf, typeBuf := [], [];
      } else if line[0] == COLON {
        answer := None;
      } else {
        PeakIsBounded(Held(), line, maxEventBytes);
        var over := ProcessLine(line);
        // the transient peak: never more than twice the cap
        assert |dataBuf| <= 2 * maxEventBytes;
        answer := None;
        if over {
          dataBuf, typeBuf := [], [];
          answer := Some(TooLarge);
        }
      }
    }

    method ProcessLine(line: seq<Byte>) returns (over: bool)
      modifies this`dataBuf, this`typeBuf, this`idBuf, this`retry
      ensures (Held(), over) == ProcessField(old(Held()), line, maxEventBytes)
    {
      var k := IndexOf(line, COLON);
      var field, value := line[..k], [];
      if k < |line| {
        value := line[k + 1..];
        if |value| > 0 && value[0] == SPACE {
          value := value[1..];
        }
      }
      assert value == FieldValue(line);
      over := false;
      if field == DATA {
        dataBuf := dataBuf + value;
        dataBuf := dataBuf + [LF];
        over := |dataBuf| > maxEventBytes;
      } else if field == EVENT {
        typeBuf := value;
      } else if field == ID {
        if NUL !in value {
          idBuf := value;
        }
      } else if field == RETRY {
        var ms := RetryOf(value);
        if ms.Some? {
          retry := ms;
        }
      }
    }
  }

  lemma AfterBreakAt(input: seq<Byte>, start: nat, k: nat)
    requires start + k < |input|
    ensures
      var next := start + k + 1;
      AfterBreak(input[start..], k) ==
      if input[start + k] == CR && next < |input| && input[next] == LF then input[next + 1..] else input[next..]
  {
    var s := input[start..];
    assert s[k + 1..] == input[start + k + 1..];
    assert k + 2 <= |s| ==> s[k + 2..] == input[start + k + 2..];
  }

  lemma LongLine(s: seq<Byte>, n: nat)
    requires n <= |s| && forall i :: 0 <= i < n ==> !IsBreak(s[i])
    ensures LineEnd(s) >= n
  {
  }

  /** Appending one capped line to a capped data buffer stays within twice the cap. */
  lemma PeakIsBounded(p: Buffers, line: seq<Byte>, max: nat)
    requires |p.data| <= max && |line| <= max
    ensures |ProcessField(p, line, max).0.data| <= 2 * max
  {
    if FieldName(line) == DATA {
      assert |line| >= 4;
    }
  }
}
