/** EncodeSSEEvent, and the parser as its inverse. */
module SseEncoder {
  import opened Reliability
  import opened SseSpec
  import opened SseParser
  import opened SseTheorems

  /** Concatenation regrouped. */
  lemma Regroup<T>(a: seq<T>, b: seq<T>, c: seq<T>, d: seq<T>)
    ensures a + b + c + d == a + (b + c + d)
    ensures a + b + d == a + (b + d)
  {
  }

  // ---- Line terminators in Data ---------------------------------------------------------

  /** strings.ReplaceAll(data, "\r\n", "\n"). */
  function CrlfToLf(d: seq<Byte>): seq<Byte> {
    if d == [] then []
    else if |d| >= 2 && d[0] == CR && d[1] == LF then [LF] + CrlfToLf(d[2..])
    else [d[0]] + CrlfToLf(d[1..])
  }

  /** strings.ReplaceAll(data, "\r", "\n"). */
  function CrToLf(d: seq<Byte>): seq<Byte> {
    if d == [] then [] else [if d[0] == CR then LF else d[0]] + CrToLf(d[1..])
  }

  function Normalized(d: seq<Byte>): seq<Byte> {
    CrToLf(CrlfToLf(d))
  }

  /** strings.Split(data, "\n"). */
  function Split(d: seq<Byte>): (lines: seq<seq<Byte>>)
    ensures lines != []
    decreases |d|
  {
    var k := IndexOf(d, LF);
    if k == |d| then [d] else [d[..k]] + Split(d[k + 1..])
  }

  lemma NormalizedByte(d: seq<Byte>)
    requires d != []
    ensures !IsBreak(d[0]) ==> Normalized(d) == [d[0]] + Normalized(d[1..])
    ensures IsBreak(d[0]) ==> Normalized(d) == [LF] + Normalized(AfterBreak(d, 0))
  {
    var paired := |d| >= 2 && d[0] == CR && d[1] == LF;
    var head: Byte, rest := if paired then LF else d[0], if paired then d[2..] else d[1..];
    var c := [head] + CrlfToLf(rest);
    assert c == CrlfToLf(d) && c[1..] == CrlfToLf(rest);
  }

  lemma {:induction false} NormalizedStep(line: seq<Byte>, d: seq<Byte>)
    requires NoBreak(line) && (d != [] ==> IsBreak(d[0]))
    ensures d == [] ==> Normalized(line + d) == line
    ensures d != [] ==> Normalized(line + d) == line + [LF] + Normalized(AfterBreak(d, 0))
    decreases |line|
  {
    if line == [] {
      assert line + d == d;
      if d != [] {
        NormalizedByte(d);
        assert line + [LF] == [LF];
      }
    } else {
      NormalizedByte(line + d);
      NormalizedStep(line[1..], d);
      assert (line + d)[1..] == line[1..] + d;
      if d != [] {
        Regroup([line[0]], line[1..], [LF], Normalized(AfterBreak(d, 0)));
      }
      assert [line[0]] + line[1..] == line;
    }
  }

  /** The data lines are the lines the format itself sees in the payload, whichever of CR, LF
      and CRLF ends each of them. */
  lemma {:induction false} DataLinesAreLines(d: seq<Byte>)
    ensures Split(Normalized(d)) == SplitLines(d).complete + [SplitLines(d).tail]
    decreases |d|
  {
    var k := LineEnd(d);
    var line, rest := d[..k], d[k..];
    assert d == line + rest;
    NormalizedStep(line, rest);
    if k == |d| {
      assert line == d;
      IndexOfIs(d, LF, k);
    } else {
      assert AfterBreak(rest, 0) == AfterBreak(d, k);
      DataLinesAreLines(AfterBreak(d, k));
      SplitFirst(line, Normalized(AfterBreak(d, k)));
    }
  }

  lemma SplitFirst(line: seq<Byte>, rest: seq<Byte>)
    requires NoBreak(line)
    ensures Split(line + [LF] + rest) == [line] + Split(rest)
  {
    var d := line + [LF] + rest;
    assert d[|line|] == LF && forall i :: 0 <= i < |line| ==> d[i] == line[i];
    IndexOfIs(d, LF, |line|);
    assert d[..|line|] == line && d[|line| + 1..] == rest;
  }

  lemma {:induction false} LinesHaveNoBreak(d: seq<Byte>)
    ensures NoBreaks(SplitLines(d).complete) && NoBreak(SplitLines(d).tail)
    decreases |d|
  {
    var k := LineEnd(d);
    if k < |d| {
      LinesHaveNoBreak(AfterBreak(d, k));
      assert NoBreak(d[..k]);
    }
  }

  /** So no break survives inside a data line. */
  lemma DataLinesAreSafe(d: seq<Byte>)
    ensures NoBreaks(Split(Normalized(d)))
  {
    DataLinesAreLines(d);
    LinesHaveNoBreak(d);
  }

  lemma {:induction false} JoinedFront(line: seq<Byte>, lines: seq<seq<Byte>>)
    requires lines != []
    ensures Joined([line] + lines) == line + [LF] + Joined(lines)
    decreases |lines|
  {
    var all, n := [line] + lines, |lines|;
    if n == 1 {
      assert all[..1] == [line];
    } else {
      assert all[..n] == [line] + lines[..n - 1];
      JoinedFront(line, lines[..n - 1]);
      assert line + [LF] + Joined(lines[..n - 1]) + [LF] + lines[n - 1] == line + [LF]
        + (Joined(lines[..n - 1]) + [LF] + lines[n - 1]);
    }
  }

  /** Splitting at line feeds loses nothing. */
  lemma {:induction false} JoinedSplit(d: seq<Byte>)
    ensures Joined(Split(d)) == d
    decreases |d|
  {
    var k := IndexOf(d, LF);
    if k < |d| {
      var line, rest := d[..k], d[k + 1..];
      JoinedSplit(rest);
      JoinedFront(line, Split(rest));
      Reunite(d, k);
    }
  }

  lemma Reunite(d: seq<Byte>, k: nat)
    requires k < |d| && d[k] == LF
    ensures d[..k] + [LF] + d[k + 1..] == d
  {
  }

  // ---- Frames -----------------------------------------------------------------------------

  predicate ValidField(s: seq<Byte>) {
    CR !in s && LF !in s && NUL !in s
  }

  function Field(field: seq<Byte>, value: seq<Byte>): seq<Byte> {
    field + [COLON, SPACE] + value
  }

  function DataFields(lines: seq<seq<Byte>>): seq<seq<Byte>> {
    if lines == [] then [] else DataFields(lines[..|lines| - 1]) + [Field(DATA, lines[|lines| - 1])]
  }

  /** The lines of an event's frame, before the blank line that ends it. */
  function HeadLines(ev: Event): seq<seq<Byte>> {
    (if ev.id == [] then [] else [Field(ID, ev.id)]) + if ev.name == [] then [] else [Field(EVENT, ev.name)]
  }

  function FrameLines(ev: Event): seq<seq<Byte>> {
    HeadLines(ev) + DataFields(Split(Normalized(ev.data)))
  }

  /** Lines as written: each with a line feed. */
  function Unlines(lines: seq<seq<Byte>>): seq<Byte> {
    if lines == [] then [] else Unlines(lines[..|lines| - 1]) + lines[|lines| - 1] + [LF]
  }

  lemma UnlinesOne(line: seq<Byte>)
    ensures Unlines([line]) == line + [LF]
  {
    assert [line][..0] == [];
    assert Unlines([]) + line + [LF] == line + [LF];
  }

  lemma {:induction false} UnlinesConcat(a: seq<seq<Byte>>, b: seq<seq<Byte>>)
    ensures Unlines(a + b) == Unlines(a) + Unlines(b)
    decreases |b|
  {
    if b == [] {
      assert a + b == a;
    } else {
      assert (a + b)[..|a + b| - 1] == a + b[..|b| - 1];
      UnlinesConcat(a, b[..|b| - 1]);
    }
  }

  lemma ValidBytes(a: seq<Byte>, b: seq<Byte>)
    ensures ValidField(a) && ValidField(b) <==> forall i :: 0 <= i < |a + b| ==> (a + b)[i] !in {CR, LF, NUL}
  {
    assert forall i :: 0 <= i < |a| ==> (a + b)[i] == a[i];
    assert forall i :: 0 <= i < |b| ==> (a + b)[|a| + i] == b[i];
  }

  /** EncodeSSEEvent: nothing is written for an invalid id or name. */
  method Encode(ev: Event) returns (written: Option<seq<Byte>>)
    ensures written.Some? <==> forall i :: 0 <= i < |ev.id + ev.name| ==> (ev.id + ev.name)[i] !in {CR, LF, NUL}
    ensures written.Some? ==> written.value == Unlines(FrameLines(ev) + [[]])
  {
    ValidBytes(ev.id, ev.name);
    if !ValidField(ev.id) || !ValidField(ev.name) {
      return None;
    }
    var lines := Split(Normalized(ev.data));
    var head := WriteHead(ev);
    var body := WriteData(lines);
    UnlinesConcat(HeadLines(ev), DataFields(lines));
    UnlinesConcat(FrameLines(ev), [[]]);
    UnlinesOne([]);
    return Some(head + body + [LF]);
  }

  method WriteData(lines: seq<seq<Byte>>) returns (b: seq<Byte>)
    ensures b == Unlines(DataFields(lines))
  {
    b := [];
    var i := 0;
    while i < |lines|
      invariant i <= |lines| && b == Unlines(DataFields(lines[..i]))
    {
      DataFieldsStep(lines, i);
      ghost var before := b;
      b := b + DATA + [COLON, SPACE];
      b := b + lines[i];
      b := b + [LF];
      assert b == before + (Field(DATA, lines[i]) + [LF]);
      i := i + 1;
    }
    assert lines[..i] == lines;
  }

  method WriteHead(ev: Event) returns (b: seq<Byte>)
    ensures b == Unlines(HeadLines(ev))
  {
    var idPart: seq<seq<Byte>> := if ev.id == [] then [] else [Field(ID, ev.id)];
    var namePart: seq<seq<Byte>> := if ev.name == [] then [] else [Field(EVENT, ev.name)];
    b := [];
    if ev.id != [] {
      b := b + ID + [COLON, SPACE];
      b := b + ev.id;
      b := b + [LF];
      UnlinesOne(Field(ID, ev.id));
    }
    assert b == Unlines(idPart);
    if ev.name != [] {
      b := b + EVENT + [COLON, SPACE];
      b := b + ev.name;
      b := b + [LF];
      UnlinesOne(Field(EVENT, ev.name));
    }
    assert b == Unlines(idPart) + Unlines(namePart);
    UnlinesConcat(idPart, namePart);
  }

  lemma DataFieldsStep(lines: seq<seq<Byte>>, i: nat)
    requires i < |lines|
    ensures Unlines(DataFields(lines[..i + 1])) == Unlines(DataFields(lines[..i])) + (Field(DATA, lines[i]) + [LF])
  {
    assert lines[..i + 1][..i] == lines[..i];
    var before := DataFields(lines[..i]);
    assert DataFields(lines[..i + 1]) == before + [Field(DATA, lines[i])];
    UnlinesConcat(before, [Field(DATA, lines[i])]);
    UnlinesOne(Field(DATA, lines[i]));
  }

  // ---- What the lines of a frame mean --------------------------------------------------------

  lemma FieldReads(field: seq<Byte>, value: seq<Byte>)
    requires field != [] && COLON !in field
    ensures FieldName(Field(field, value)) == field && FieldValue(Field(field, value)) == value
    ensures Field(field, value) != [] && !IsComment(Field(field, value))
  {
    var line := Field(field, value);
    assert line[|field|] == COLON && line[|field| + 1] == SPACE;
    assert forall i :: 0 <= i < |field| ==> line[i] == field[i];
    IndexOfIs(line, COLON, |field|);
    assert line[..|field|] == field && line[|field| + 2..] == value;
  }

  lemma NoColons()
    ensures COLON !in DATA && COLON !in EVENT && COLON !in ID
  {
  }

  lemma {:induction false} DataFieldsRead(head: seq<seq<Byte>>, lines: seq<seq<Byte>>, field: seq<Byte>)
    ensures Values(head + DataFields(lines), field) == Values(head, field) + if field == DATA then lines else []
    decreases |lines|
  {
    if lines == [] {
      assert head + DataFields(lines) == head;
    } else {
      var before, line := lines[..|lines| - 1], lines[|lines| - 1];
      DataFieldsRead(head, before, field);
      NoColons();
      FieldReads(DATA, line);
      Regroup(head, DataFields(before), [], [Field(DATA, line)]);
      LineExtends(head + DataFields(before), Field(DATA, line), field);
      Regroup(Values(head, field), before, [], [line]);
      assert before + [line] == lines;
    }
  }

  lemma ValuesOfOne(line: seq<Byte>, field: seq<Byte>)
    requires line != []
    ensures Values([line], field) == Adds(line, field)
  {
    LineExtends([], line, field);
    assert [] + [line] == [line];
    assert Values([], field) == [];
  }

  lemma HeadReads(ev: Event, field: seq<Byte>)
    requires field == DATA || field == EVENT || field == ID || field == RETRY
    ensures Values(HeadLines(ev), field) ==
            if field == ID && ev.id != [] then [ev.id] else if field == EVENT && ev.name != [] then [ev.name] else []
  {
    NoColons();
    FieldsDiffer();
    FieldReads(ID, ev.id);
    FieldReads(EVENT, ev.name);
    var i, n := Field(ID, ev.id), Field(EVENT, ev.name);
    ValuesOfOne(i, field);
    ValuesOfOne(n, field);
    LineExtends([i], n, field);
    assert [] + [n] == [n] && [i] + [] == [i];
  }

  /** The id in force after an event: its own, or else the one before. */
  function IdCarried(id: seq<Byte>, ev: Event): seq<Byte> {
    if ev.id == [] then id else ev.id
  }

  lemma FrameDispatches(ev: Event, id: seq<Byte>)
    requires NUL !in ev.id
    ensures Dispatch(id, FrameLines(ev)) == [Event(IdCarried(id, ev), ev.name, Normalized(ev.data))]
  {
    FieldsDiffer();
    FrameValues(ev, DATA);
    FrameValues(ev, EVENT);
    FrameId(ev, id);
    JoinedSplit(Normalized(ev.data));
  }

  lemma FrameId(ev: Event, id: seq<Byte>)
    requires NUL !in ev.id
    ensures IdAfter(id, FrameLines(ev)) == IdCarried(id, ev)
  {
    FieldsDiffer();
    FrameValues(ev, ID);
    NulFreeOne(ev.id);
  }

  lemma FrameRetry(ev: Event, retry: Option<int>)
    ensures RetryAfterBlock(retry, FrameLines(ev)) == retry
  {
    FieldsDiffer();
    FrameValues(ev, RETRY);
    assert Retries([]) == [];
  }

  lemma NulFreeOne(id: seq<Byte>)
    requires NUL !in id
    ensures NulFree([id]) == [id]
  {
    assert [id][..0] == [];
    assert NulFree([]) == [];
  }

  lemma FrameValues(ev: Event, field: seq<Byte>)
    requires field == DATA || field == EVENT || field == ID || field == RETRY
    ensures Values(FrameLines(ev), field) ==
            if field == DATA then Split(Normalized(ev.data))
            else if field == ID && ev.id != [] then [ev.id] else if field == EVENT && ev.name != [] then [ev.name]
              else []
  {
    FieldsDiffer();
    HeadReads(ev, field);
    DataFieldsRead(HeadLines(ev), Split(Normalized(ev.data)), field);
  }

  // ---- The wire ------------------------------------------------------------------------------

  lemma {:induction false} UnlinesSplit(lines: seq<seq<Byte>>, rest: seq<Byte>)
    requires NoBreaks(lines)
    ensures SplitLines(Unlines(lines) + rest) == Lines(lines + SplitLines(rest).complete, SplitLines(rest).tail)
    decreases |lines|
  {
    if lines == [] {
      assert Unlines(lines) + rest == rest;
    } else {
      var before, line := lines[..|lines| - 1], lines[|lines| - 1];
      UnlinesSplit(before, line + [LF] + rest);
      SplitOneLine(line, rest);
      Regroup(Unlines(before), line, [LF], rest);
      Regroup(before, [line], [], SplitLines(rest).complete);
      assert lines == before + [line];
    }
  }

  lemma SplitOneLine(line: seq<Byte>, rest: seq<Byte>)
    requires NoBreak(line)
    ensures SplitLines(line + [LF] + rest) == Lines([line] + SplitLines(rest).complete, SplitLines(rest).tail)
  {
    var s, k := line + [LF] + rest, |line|;
    assert s[k] == LF && forall i :: 0 <= i < k ==> s[i] == line[i];
    LineEndIs(s, k);
    assert s[..k] == line && AfterBreak(s, k) == rest;
  }

  /** What a server writes on a connection: event frames and heartbeats. */
  datatype Item = Frame(event: Event) | Heartbeat

  const PING: seq<Byte> := [58, 32, 112, 105, 110, 103]

  function Block(item: Item): seq<seq<Byte>> {
    if item.Heartbeat? then [PING] else FrameLines(item.event)
  }

  function Wire(items: seq<Item>): seq<Byte> {
    if items == [] then [] else Unlines(Block(items[0]) + [[]]) + Wire(items[1..])
  }

  /** The events a client receives: names as sent, data with its line breaks normalized, and
      the id of an event without one carried over from the last that had one. */
  function Received(items: seq<Item>, id: seq<Byte>): seq<Event> {
    if items == [] then []
    else if items[0].Heartbeat? then Received(items[1..], id)
    else
      var ev := items[0].event;
      [Event(IdCarried(id, ev), ev.name, Normalized(ev.data))] + Received(items[1..], IdCarried(id, ev))
  }

  function LastId(items: seq<Item>, id: seq<Byte>): seq<Byte> {
    if items == [] then id
    else LastId(items[1..], if items[0].Heartbeat? then id else IdCarried(id, items[0].event))
  }

  predicate Sendable(item: Item) {
    item.Frame? ==> ValidField(item.event.id) && ValidField(item.event.name)
  }

  predicate AllSendable(items: seq<Item>) {
    forall i :: 0 <= i < |items| ==> Sendable(items[i])
  }

  predicate AllFit(items: seq<Item>, max: nat) {
    forall i :: 0 <= i < |items| ==> BlockFits(Block(items[i]), max)
  }

  predicate Short(lines: seq<seq<Byte>>, max: int) {
    forall i :: 0 <= i < |lines| ==> |lines[i]| <= max
  }

  /** The cap a frame has to keep to: its id and event lines, its data lines, and its data with
      one line feed more. */
  lemma FrameFitsIff(ev: Event, max: nat)
    ensures BlockFits(FrameLines(ev), max) <==>
            && (ev.id != [] ==> 4 + |ev.id| <= max) && (ev.name != [] ==> 7 + |ev.name| <= max)
            && Short(Split(Normalized(ev.data)), max - 6)
            && |Normalized(ev.data)| + 1 <= max
  {
    var lines := Split(Normalized(ev.data));
    FrameValues(ev, DATA);
    FedIsJoined(lines);
    JoinedSplit(Normalized(ev.data));
    ShortFields(lines, max);
    ShortHead(ev, max);
    ShortConcat(HeadLines(ev), DataFields(lines), max);
    assert BlockFits(FrameLines(ev), max) <==> Short(FrameLines(ev), max) && |Fed(Values(FrameLines(ev), DATA))| <= max;
  }

  lemma ShortConcat(a: seq<seq<Byte>>, b: seq<seq<Byte>>, max: nat)
    ensures Short(a + b, max) <==> Short(a, max) && Short(b, max)
  {
    assert forall i :: 0 <= i < |a| ==> a[i] == (a + b)[i];
    assert forall i :: 0 <= i < |b| ==> b[i] == (a + b)[|a| + i];
  }

  lemma ShortHead(ev: Event, max: nat)
    ensures Short(HeadLines(ev), max) <==>
      (ev.id != [] ==> 4 + |ev.id| <= max) && (ev.name != [] ==> 7 + |ev.name| <= max)
  {
    assert ev.id != [] ==> HeadLines(ev)[0] == Field(ID, ev.id);
    assert ev.name != [] ==> HeadLines(ev)[|HeadLines(ev)| - 1] == Field(EVENT, ev.name);
  }

  lemma ShortFields(lines: seq<seq<Byte>>, max: nat)
    ensures Short(DataFields(lines), max) <==> Short(lines, max - 6)
  {
    DataFieldsAt(lines);
    assert forall i :: 0 <= i < |lines| ==> |DataFields(lines)[i]| == 6 + |lines[i]|;
  }

  lemma {:induction false} DataFieldsAt(lines: seq<seq<Byte>>)
    ensures |DataFields(lines)| == |lines|
    ensures forall i :: 0 <= i < |lines| ==> DataFields(lines)[i] == Field(DATA, lines[i])
    decreases |lines|
  {
    if lines != [] {
      DataFieldsAt(lines[..|lines| - 1]);
    }
  }

  lemma FieldHasNoBreak(field: seq<Byte>, value: seq<Byte>)
    requires NoBreak(field) && NoBreak(value)
    ensures NoBreak(Field(field, value)) && Field(field, value) != []
  {
  }

  lemma HeadIsClean(ev: Event)
    requires ValidField(ev.id) && ValidField(ev.name)
    ensures NoBreaks(HeadLines(ev)) && NoBlank(HeadLines(ev))
  {
    FieldHasNoBreak(ID, ev.id);
    FieldHasNoBreak(EVENT, ev.name);
  }

  lemma BlockIsClean(item: Item)
    requires Sendable(item)
    ensures NoBreaks(Block(item)) && NoBlank(Block(item))
  {
    if item.Frame? {
      var lines := Split(Normalized(item.event.data));
      DataLinesAreSafe(item.event.data);
      HeadIsClean(item.event);
      DataFieldsAt(lines);
      forall i | 0 <= i < |lines| ensures NoBreak(DataFields(lines)[i]) && DataFields(lines)[i] != [] {
        FieldHasNoBreak(DATA, lines[i]);
      }
    }
  }

  lemma PingMeans(id: seq<Byte>, retry: Option<int>)
    ensures Dispatch(id, [PING]) == [] && IdAfter(id, [PING]) == id && RetryAfterBlock(retry, [PING]) == retry
  {
    ValuesOfOne(PING, DATA);
    ValuesOfOne(PING, ID);
    ValuesOfOne(PING, RETRY);
    assert NulFree([]) == [] && Retries([]) == [];
  }

  lemma BlockMeans(item: Item, id: seq<Byte>, retry: Option<int>)
    requires Sendable(item)
    ensures Dispatch(id, Block(item)) ==
            if item.Heartbeat? then []
              else [Event(IdCarried(id, item.event), item.event.name, Normalized(item.event.data))]
    ensures IdAfter(id, Block(item)) == if item.Heartbeat? then id else IdCarried(id, item.event)
    ensures RetryAfterBlock(retry, Block(item)) == retry
  {
    if item.Heartbeat? {
      PingMeans(id, retry);
    } else {
      FrameDispatches(item.event, id);
      FrameId(item.event, id);
      FrameRetry(item.event, retry);
    }
  }

  /** All lines a wire carries. */
  function WireLines(items: seq<Item>): seq<seq<Byte>> {
    if items == [] then [] else Block(items[0]) + [[]] + WireLines(items[1..])
  }

  lemma {:induction false} WireSplits(items: seq<Item>)
    requires AllSendable(items)
    ensures SplitLines(Wire(items)) == Lines(WireLines(items), [])
    decreases |items|
  {
    if items != [] {
      WireSplits(items[1..]);
      BlockIsClean(items[0]);
      var lines := Block(items[0]) + [[]];
      assert NoBreaks(lines);
      UnlinesSplit(lines, Wire(items[1..]));
    }
  }

  lemma {:induction false} WireMeans(items: seq<Item>, id: seq<Byte>, retry: Option<int>)
    requires AllSendable(items)
    ensures Interpret(WireLines(items), id, retry) == Meaning(Received(items, id), LastId(items, id), retry, [])
    decreases |items|
  {
    if items != [] {
      var block, later := Block(items[0]), WireLines(items[1..]);
      BlockMeans(items[0], id, retry);
      BlockIsClean(items[0]);
      var id' := IdAfter(id, block);
      ReceivedStep(items, id, Dispatch(id, block), id');
      WireMeans(items[1..], id', retry);
      BlankReads(id, retry, block, later);
    }
  }

  lemma ReceivedStep(items: seq<Item>, id: seq<Byte>, d: seq<Event>, id': seq<Byte>)
    requires items != [] && id' == if items[0].Heartbeat? then id else IdCarried(id, items[0].event)
    requires d == if items[0].Heartbeat? then [] else [Event(id', items[0].event.name, Normalized(items[0].event.data))]
    ensures Received(items, id) == d + Received(items[1..], id') && LastId(items, id) == LastId(items[1..], id')
  {
  }

  lemma {:induction false} WireFits(items: seq<Item>, max: nat)
    requires AllSendable(items)
    ensures Fits(WireLines(items), max) <==> AllFit(items, max)
    decreases |items|
  {
    if items != [] {
      var block, later := Block(items[0]), WireLines(items[1..]);
      BlockIsClean(items[0]);
      WireFits(items[1..], max);
      BlankFits(block, later, max);
      assert AllFit(items, max) <==> BlockFits(block, max) && AllFit(items[1..], max) by {
        assert forall i :: 0 <= i < |items| - 1 ==> items[1..][i] == items[i + 1];
      }
    }
  }

  /** A wire never starts with a byte order mark. */
  lemma WireHasNoBom(items: seq<Item>)
    requires AllSendable(items)
    ensures StripBom(Wire(items)) == Wire(items)
  {
    if items != [] {
      BlockIsClean(items[0]);
      FirstByte(items[0]);
      UnlinesStarts(Block(items[0]) + [[]]);
      assert Wire(items)[0] == Block(items[0])[0][0] != BOM[0];
    }
  }

  lemma {:induction false} UnlinesStarts(lines: seq<seq<Byte>>)
    requires lines != [] && lines[0] != []
    ensures Unlines(lines) != [] && Unlines(lines)[0] == lines[0][0]
    decreases |lines|
  {
    if |lines| > 1 {
      UnlinesStarts(lines[..|lines| - 1]);
    }
  }

  lemma FirstByte(item: Item)
    ensures Block(item) != [] && Block(item)[0] != [] && Block(item)[0][0] in [COLON, DATA[0], EVENT[0], ID[0]]
  {
    if item.Frame? {
      DataFieldsAt(Split(Normalized(item.event.data)));
    }
  }

  /** Main theorem. Whatever events a server encodes, with heartbeats anywhere between their
      frames, a parser of the stream answers one event for each, in order, with the same name,
      the normalized data and the id in force, and then a clean end; unless, and only unless,
      some frame is over the cap. */
  lemma RoundTrip(items: seq<Item>, max: nat)
    requires AllSendable(items)
    ensures
      var run := Run(EMPTY, StripBom(Wire(items)), AtEof, max);
      && (TooLarge !in run.answers <==> AllFit(items, max))
      && (AllFit(items, max) ==>
            && run.answers == Dispatches(Received(items, [])) + [Eof]
            && run.buffers == Buffers([], [], LastId(items, []), None))
  {
    WireHasNoBom(items);
    WireSplits(items);
    WireFits(items, max);
    WireMeans(items, [], None);
    ParserMeetsFormat(Wire(items), AtEof, max);
  }

  /** One event of two data lines, the first of them over the cap: the second is dispatched as
      an event of its own after ErrEventTooLarge. */
  lemma OversizeIsNotSkippedByEvent(first: seq<Byte>, second: seq<Byte>, max: nat)
    requires NoBreak(first) && NoBreak(second) && 6 + |second| <= max < 6 + |first|
    ensures
      var s := Unlines([Field(DATA, first), Field(DATA, second), []]);
      Run(EMPTY, s, AtEof, max).answers == [TooLarge, Dispatched(Event([], [], second)), Eof]
  {
    var a, b := Field(DATA, first), Field(DATA, second);
    var lines: seq<seq<Byte>> := [a, b, []];
    FieldHasNoBreak(DATA, first);
    FieldHasNoBreak(DATA, second);
    UnlinesSplit(lines, []);
    assert SplitLines([]) == Lines([], []);
    assert Unlines(lines) + [] == Unlines(lines) && lines + [] == lines;
    RunByLines(EMPTY, Unlines(lines), AtEof, max);
    NoColons();
    FieldReads(DATA, second);
    OversizeThenRest(a, b, second, max);
  }

  lemma OversizeThenRest(first: seq<Byte>, second: seq<Byte>, value: seq<Byte>, max: nat)
    requires |first| > max >= |second| && |value| + 1 <= max
    requires second != [] && !IsComment(second) && FieldName(second) == DATA && FieldValue(second) == value
    ensures RunLines(EMPTY, [first, second, []], [], AtEof, max).answers ==
      [TooLarge, Dispatched(Event([], [], value)), Eof]
  {
    var rest: seq<seq<Byte>> := [second, []];
    assert [first, second, []][1..] == rest && rest[1..] == [[]];
    var p := Buffers(value + [LF], [], [], None);
    assert [] + value + [LF] == value + [LF];
    assert OnLine(EMPTY, second, max) == Continue(p);
    BlankThenEnd(p, value, max);
  }

  lemma BlankThenEnd(p: Buffers, value: seq<Byte>, max: nat)
    requires p == Buffers(value + [LF], [], [], None)
    ensures RunLines(p, [[]], [], AtEof, max).answers == [Dispatched(Event([], [], value)), Eof]
  {
    assert (value + [LF])[..|value|] == value;
    assert OnLine(p, [], max) == Stop(Dispatched(Event([], [], value)), EMPTY);
    assert RunLines(EMPTY, [], [], AtEof, max).answers == [Eof];
  }
}
