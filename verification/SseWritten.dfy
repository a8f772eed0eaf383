/** Streams as anyone may write them: any line break, a space after the colon or none, bare
    fields, comments, unknown fields, with or without a byte order mark. */
module SseWritten {
  import opened Reliability
  import opened SseSpec
  import opened SseParser
  import opened SseTheorems

  // ---- Lines ------------------------------------------------------------------------

  datatype Break = Lf | Cr | CrLf

  function BreakBytes(b: Break): seq<Byte> {
    match b
    case Lf => [LF]
    case Cr => [CR]
    case CrLf => [CR, LF]
  }

  function WriteLines(lines: seq<seq<Byte>>, breaks: seq<Break>): seq<Byte>
    requires |lines| == |breaks|
  {
    if lines == [] then [] else lines[0] + BreakBytes(breaks[0]) + WriteLines(lines[1..], breaks[1..])
  }

  /** A blank line ended by LF may not follow a line ended by CR: the two are one CRLF. */
  predicate Unambiguous(lines: seq<seq<Byte>>, breaks: seq<Break>)
    requires |lines| == |breaks|
  {
    forall i :: 0 < i < |lines| && breaks[i - 1] == Cr && breaks[i] == Lf ==> lines[i] != []
  }

  lemma FirstLine(line: seq<Byte>, b: Break, rest: seq<Byte>)
    requires NoBreak(line) && (b == Cr && rest != [] ==> rest[0] != LF)
    ensures
      var s := line + BreakBytes(b) + rest;
      LineEnd(s) == |line| < |s| && s[..|line|] == line && AfterBreak(s, |line|) == rest
  {
    var s := line + BreakBytes(b) + rest;
    assert forall i :: 0 <= i < |line| ==> s[i] == line[i];
    assert s[|line|] == BreakBytes(b)[0];
    LineEndIs(s, |line|);
    if b == CrLf {
      assert s[|line| + 1] == LF && s[|line| + 2..] == rest;
    } else {
      assert s[|line| + 1..] == rest;
      assert b == Cr && rest != [] ==> s[|line| + 1] == rest[0];
    }
  }

  /** Lines written with any breaks are read back, each once, and the rest is the tail. */
  lemma {:induction false} SplitWritten(lines: seq<seq<Byte>>, breaks: seq<Break>, tail: seq<Byte>)
    requires |lines| == |breaks| && NoBreaks(lines) && NoBreak(tail) && Unambiguous(lines, breaks)
    ensures SplitLines(WriteLines(lines, breaks) + tail) == Lines(lines, tail)
    decreases |lines|
  {
    if lines == [] {
      assert WriteLines(lines, breaks) + tail == tail;
      LineEndIs(tail, |tail|);
    } else {
      var line, b := lines[0], breaks[0];
      var rest := WriteLines(lines[1..], breaks[1..]) + tail;
      var s := WriteLines(lines, breaks) + tail;
      assert s == line + BreakBytes(b) + rest;
      assert NoBreak(line);
      NotLf(lines, breaks, tail);
      FirstLine(line, b, rest);
      Shorter(lines, breaks);
      SplitWritten(lines[1..], breaks[1..], tail);
      assert lines == [line] + lines[1..];
    }
  }

  lemma Shorter(lines: seq<seq<Byte>>, breaks: seq<Break>)
    requires |lines| == |breaks| && lines != [] && NoBreaks(lines) && Unambiguous(lines, breaks)
    ensures NoBreaks(lines[1..]) && Unambiguous(lines[1..], breaks[1..])
  {
    assert forall i :: 0 < i < |lines[1..]| ==> lines[1..][i] == lines[i + 1] && breaks[1..][i - 1] == breaks[i];
  }

  /** What follows a line ended by CR does not start with LF. */
  lemma NotLf(lines: seq<seq<Byte>>, breaks: seq<Break>, tail: seq<Byte>)
    requires |lines| == |breaks| && NoBreaks(lines) && NoBreak(tail) && Unambiguous(lines, breaks)
    requires lines != []
    ensures
      var rest := WriteLines(lines[1..], breaks[1..]) + tail;
      breaks[0] == Cr && rest != [] ==> rest[0] != LF
  {
    if |lines| > 1 && breaks[0] == Cr {
      assert NoBreak(lines[1]);
      assert lines[1..][0] == lines[1] && breaks[1..][0] == breaks[1];
      if lines[1] == [] {
        assert breaks[1] != Lf;
      }
    }
  }

  // ---- Fields -----------------------------------------------------------------------

  datatype Item =
    | Field(name: seq<Byte>, value: seq<Byte>, spaced: bool)
    | Bare(name: seq<Byte>)
    | Comment(text: seq<Byte>)

  function Render(item: Item): seq<Byte> {
    match item
    case Field(name, value, spaced) => name + [COLON] + (if spaced then [SPACE] else []) + value
    case Bare(name) => name
    case Comment(text) => [COLON] + text
  }

  /** A name is not empty and has no colon; only after a space may a value start with one. */
  predicate WellFormed(item: Item) {
    match item
    case Field(name, value, spaced) =>
      name != [] && COLON !in name && (!spaced && value != [] ==> value[0] != SPACE)
    case Bare(name) => name != [] && COLON !in name
    case Comment(_) => true
  }

  function Rendered(items: seq<Item>): (lines: seq<seq<Byte>>)
    ensures |lines| == |items|
  {
    if items == [] then [] else Rendered(items[..|items| - 1]) + [Render(items[|items| - 1])]
  }

  predicate AllWellFormed(items: seq<Item>) {
    forall i :: 0 <= i < |items| ==> WellFormed(items[i])
  }

  /** The values given to a field, in order; a bare field gives the empty value. */
  function Given(items: seq<Item>, field: seq<Byte>): seq<seq<Byte>> {
    if items == [] then []
    else
      var before, item := Given(items[..|items| - 1], field), items[|items| - 1];
      match item
      case Field(name, value, _) => if name == field then before + [value] else before
      case Bare(name) => if name == field then before + [[]] else before
      case Comment(_) => before
  }

  /** A field line gives back the name and the value it was written with. */
  lemma FieldIsRead(item: Item)
    requires WellFormed(item) && !item.Comment?
    ensures
      var line := Render(item);
      && line != [] && !IsComment(line) && FieldName(line) == item.name
      && FieldValue(line) == if item.Field? then item.value else []
  {
    var line, name := Render(item), item.name;
    assert forall i :: 0 <= i < |name| ==> line[i] == name[i];
    if item.Field? {
      assert line[|name|] == COLON;
    }
    IndexOfIs(line, COLON, |name|);
    assert line[..|name|] == name;
    if item.Field? {
      var after := (if item.spaced then [SPACE] else []) + item.value;
      assert line == name + [COLON] + after;
      assert line[|name| + 1..] == after;
      assert item.spaced ==> line[|name| + 1] == SPACE && line[|name| + 2..] == item.value;
      assert !item.spaced && item.value != [] ==> line[|name| + 1] == item.value[0];
    }
  }

  /** The format sees in a block the values it was written with. */
  lemma {:induction false} GivenAreValues(items: seq<Item>, field: seq<Byte>)
    requires AllWellFormed(items)
    ensures Values(Rendered(items), field) == Given(items, field) && NoBlank(Rendered(items))
    decreases |items|
  {
    if items != [] {
      var front, item := items[..|items| - 1], items[|items| - 1];
      GivenAreValues(front, field);
      if !item.Comment? {
        FieldIsRead(item);
      }
      assert Rendered(items)[..|items| - 1] == Rendered(front);
    }
  }

  // ---- Events -----------------------------------------------------------------------

  /** The id in force after a block: the last one given that holds no NUL. */
  function IdGiven(items: seq<Item>, id: seq<Byte>): seq<Byte> {
    if items == [] then id
    else
      var before, item := IdGiven(items[..|items| - 1], id), items[|items| - 1];
      match item
      case Field(name, value, _) => if name == ID && NUL !in value then value else before
      case Bare(name) => if name == ID then [] else before
      case Comment(_) => before
  }

  /** The retry delay in force after a block: the last one given that is a number in range. */
  function RetryGiven(items: seq<Item>, retry: Option<int>): Option<int> {
    if items == [] then retry
    else
      var before, item := RetryGiven(items[..|items| - 1], retry), items[|items| - 1];
      if item.Field? && item.name == RETRY && RetryOf(item.value).Some? then RetryOf(item.value) else before
  }

  lemma {:induction false} IdIsGiven(items: seq<Item>, id: seq<Byte>)
    requires AllWellFormed(items)
    ensures IdAfter(id, Rendered(items)) == IdGiven(items, id)
    decreases |items|
  {
    if items != [] {
      var front, item := items[..|items| - 1], items[|items| - 1];
      IdIsGiven(front, id);
      if !item.Comment? {
        FieldIsRead(item);
      }
      IdOf(id, Rendered(front), Render(item));
    }
  }

  lemma {:induction false} RetryIsGiven(items: seq<Item>, retry: Option<int>)
    requires AllWellFormed(items)
    ensures RetryAfterBlock(retry, Rendered(items)) == RetryGiven(items, retry)
    decreases |items|
  {
    if items != [] {
      var front, item := items[..|items| - 1], items[|items| - 1];
      RetryIsGiven(front, retry);
      if !item.Comment? {
        FieldIsRead(item);
      }
      RetryDelayOf(retry, Rendered(front), Render(item));
    }
  }

  /** The events that blocks of items were written for: one for each block with data, with its data
      values joined by line feeds, the last name given in it, and the id in force after it. */
  function Meant(blocks: seq<seq<Item>>, id: seq<Byte>): seq<Event>
    decreases |blocks|
  {
    if blocks == [] then []
    else
      var items, id' := blocks[0], IdGiven(blocks[0], id);
      var later := Meant(blocks[1..], id');
      if Given(items, DATA) == [] then later
      else [Event(id', LastOr(Given(items, EVENT), []), Joined(Given(items, DATA)))] + later
  }

  function IdLeft(blocks: seq<seq<Item>>, id: seq<Byte>): seq<Byte>
    decreases |blocks|
  {
    if blocks == [] then id else IdLeft(blocks[1..], IdGiven(blocks[0], id))
  }

  function RetryLeft(blocks: seq<seq<Item>>, retry: Option<int>): Option<int>
    decreases |blocks|
  {
    if blocks == [] then retry else RetryLeft(blocks[1..], RetryGiven(blocks[0], retry))
  }

  /** The lines of the blocks, a blank line after each. */
  function BlockLines(blocks: seq<seq<Item>>): seq<seq<Byte>> {
    if blocks == [] then [] else Rendered(blocks[0]) + [[]] + BlockLines(blocks[1..])
  }

  predicate BlocksWellFormed(blocks: seq<seq<Item>>) {
    forall i :: 0 <= i < |blocks| ==> AllWellFormed(blocks[i])
  }

  lemma BlockMeant(items: seq<Item>, id: seq<Byte>, retry: Option<int>)
    requires AllWellFormed(items)
    ensures NoBlank(Rendered(items))
    ensures IdAfter(id, Rendered(items)) == IdGiven(items, id)
    ensures RetryAfterBlock(retry, Rendered(items)) == RetryGiven(items, retry)
    ensures Dispatch(id, Rendered(items)) ==
      if Given(items, DATA) == [] then []
      else [Event(IdGiven(items, id), LastOr(Given(items, EVENT), []), Joined(Given(items, DATA)))]
  {
    GivenAreValues(items, DATA);
    GivenAreValues(items, EVENT);
    IdIsGiven(items, id);
    RetryIsGiven(items, retry);
  }

  lemma {:induction false} BlocksMean(blocks: seq<seq<Item>>, id: seq<Byte>, retry: Option<int>)
    requires BlocksWellFormed(blocks)
    ensures Interpret(BlockLines(blocks), id, retry) ==
      Meaning(Meant(blocks, id), IdLeft(blocks, id), RetryLeft(blocks, retry), [])
    decreases |blocks|
  {
    if blocks != [] {
      var items := blocks[0];
      assert AllWellFormed(items);
      BlockMeant(items, id, retry);
      BlankReads(id, retry, Rendered(items), BlockLines(blocks[1..]));
      BlocksMean(blocks[1..], IdGiven(items, id), RetryGiven(items, retry));
    }
  }

  /** The stream of these blocks, with these line breaks, after a byte order mark or not. */
  predicate Writes(s: seq<Byte>, blocks: seq<seq<Item>>, breaks: seq<Break>) {
    var lines := BlockLines(blocks);
    && BlocksWellFormed(blocks) && |breaks| == |lines| && NoBreaks(lines) && Unambiguous(lines, breaks)
    && (s == BOM + WriteLines(lines, breaks) || (s == WriteLines(lines, breaks) && !(BOM <= s)))
  }

  lemma MarkIsDropped(s: seq<Byte>, written: seq<Byte>)
    requires s == BOM + written || (s == written && !(BOM <= s))
    ensures StripBom(s) == written
  {
    assert (BOM + written)[..3] == BOM && (BOM + written)[3..] == written;
    assert |s| >= 3 && s[..3] == BOM ==> BOM <= s;
  }

  /** Whatever its line breaks and spacing, and with or without a byte order mark, a stream within
      the caps is parsed to the events it was written for, and leaves the id and the retry delay it
      was written with. */
  lemma WrittenIsParsed(s: seq<Byte>, blocks: seq<seq<Item>>, breaks: seq<Break>, max: nat)
    requires Writes(s, blocks, breaks) && Fits(BlockLines(blocks), max)
    ensures
      var run := Run(EMPTY, StripBom(s), AtEof, max);
      && run.answers == Dispatches(Meant(blocks, [])) + [Eof]
      && run.buffers == Buffers([], [], IdLeft(blocks, []), RetryLeft(blocks, None))
  {
    var lines := BlockLines(blocks);
    var written := WriteLines(lines, breaks);
    MarkIsDropped(s, written);
    SplitWritten(lines, breaks, []);
    assert written + [] == written;
    ParsesWithin(s, lines, max);
    BlocksMean(blocks, [], None);
    EndsClean(Run(EMPTY, StripBom(s), AtEof, max), Interpret(lines, [], None));
  }

  lemma ParsesWithin(s: seq<Byte>, lines: seq<seq<Byte>>, max: nat)
    requires SplitLines(StripBom(s)) == Lines(lines, []) && Fits(lines, max)
    ensures Faithful(Run(EMPTY, StripBom(s), AtEof, max), Interpret(lines, [], None), [], AtEof)
  {
    ParserMeetsFormat(s, AtEof, max);
  }

  lemma EndsClean(run: Session, m: Meaning)
    requires Faithful(run, m, [], AtEof) && m.unfinished == []
    ensures run.answers == Dispatches(m.events) + [Eof] && run.buffers == Buffers([], [], m.id, m.retry)
  {
  }
}
