/** The text/event-stream format (sections 9.2.5 and 9.2.6 of the WHATWG HTML Living Standard),
    stated over whole streams: lines first, then blocks of lines, then events. */
module SseSpec {
  import opened Reliability

  type Byte = b: int | 0 <= b < 256

  const NUL: Byte := 0
  const LF: Byte := 10
  const CR: Byte := 13
  const SPACE: Byte := 32
  const COLON: Byte := 58

  const DATA: seq<Byte> := [100, 97, 116, 97]
  const EVENT: seq<Byte> := [101, 118, 101, 110, 116]
  const ID: seq<Byte> := [105, 100]
  const RETRY: seq<Byte> := [114, 101, 116, 114, 121]
  const BOM: seq<Byte> := [239, 187, 191]

  /** The bytes of an ASCII string. */
  function Ascii(s: string): seq<Byte>
    requires forall i :: 0 <= i < |s| ==> s[i] as int < 128
  {
    seq(|s|, i requires 0 <= i < |s| => s[i] as int)
  }

  lemma NamesAreAscii()
    ensures DATA == Ascii("data") && EVENT == Ascii("event") && ID == Ascii("id") && RETRY == Ascii("retry")
    ensures [COLON, SPACE, LF, CR] == Ascii(": \n\r")
  {
  }

  datatype Event = Event(id: seq<Byte>, name: seq<Byte>, data: seq<Byte>)

  predicate IsBreak(b: Byte) {
    b == LF || b == CR
  }

  predicate NoBreak(line: seq<Byte>) {
    forall i :: 0 <= i < |line| ==> !IsBreak(line[i])
  }

  predicate NoBreaks(lines: seq<seq<Byte>>) {
    forall i :: 0 <= i < |lines| ==> NoBreak(lines[i])
  }

  // ---- Lines ------------------------------------------------------------------------

  /** Where the first line ends: the index of the first CR or LF, or the end of the stream. */
  function LineEnd(s: seq<Byte>): (k: nat)
    ensures k <= |s|
    ensures forall i :: 0 <= i < k ==> !IsBreak(s[i])
    ensures k < |s| ==> IsBreak(s[k])
  {
    if s == [] || IsBreak(s[0]) then 0 else 1 + LineEnd(s[1..])
  }

  lemma LineEndIs(s: seq<Byte>, k: nat)
    requires k <= |s| && (forall i :: 0 <= i < k ==> !IsBreak(s[i])) && (k < |s| ==> IsBreak(s[k]))
    ensures LineEnd(s) == k
  {
  }

  /** What follows the line break at k: a CR takes a following LF with it. */
  function AfterBreak(s: seq<Byte>, k: nat): (rest: seq<Byte>)
    requires k < |s|
    ensures |rest| < |s|
  {
    if s[k] == CR && k + 1 < |s| && s[k + 1] == LF then s[k + 2..] else s[k + 1..]
  }

  /** The complete lines of a stream, without their breaks, and the unterminated tail. */
  datatype Lines = Lines(complete: seq<seq<Byte>>, tail: seq<Byte>)

  function SplitLines(s: seq<Byte>): Lines
    decreases |s|
  {
    var k := LineEnd(s);
    if k == |s| then Lines([], s)
    else
      var rest := SplitLines(AfterBreak(s, k));
      Lines([s[..k]] + rest.complete, rest.tail)
  }

  // ---- Fields -----------------------------------------------------------------------

  function IndexOf(s: seq<Byte>, b: Byte): (k: nat)
    ensures k <= |s|
    ensures forall i :: 0 <= i < k ==> s[i] != b
    ensures k < |s| ==> s[k] == b
  {
    if s == [] || s[0] == b then 0 else 1 + IndexOf(s[1..], b)
  }

  lemma IndexOfIs(s: seq<Byte>, b: Byte, k: nat)
    requires k <= |s| && (forall i :: 0 <= i < k ==> s[i] != b) && (k < |s| ==> s[k] == b)
    ensures IndexOf(s, b) == k
  {
  }

  /** The field name of a line that is neither blank nor a comment. */
  function FieldName(line: seq<Byte>): seq<Byte> {
    line[..IndexOf(line, COLON)]
  }

  /** Its value: what follows the colon, less one leading space; empty without a colon. */
  function FieldValue(line: seq<Byte>): seq<Byte> {
    var k := IndexOf(line, COLON);
    if k == |line| then []
    else if k + 1 < |line| && line[k + 1] == SPACE then line[k + 2..]
    else line[k + 1..]
  }

  predicate IsComment(line: seq<Byte>) {
    line != [] && line[0] == COLON
  }

  predicate IsDigits(s: seq<Byte>) {
    s != [] && forall i :: 0 <= i < |s| ==> 48 <= s[i] <= 57
  }

  function Decimal(s: seq<Byte>): nat
    requires forall i :: 0 <= i < |s| ==> 48 <= s[i] <= 57
  {
    if s == [] then 0 else 10 * Decimal(s[..|s| - 1]) + (s[|s| - 1] - 48)
  }

  const MAX_INT64 := 0x7fff_ffff_ffff_ffff

  /** Two's-complement wrap-around of a 64-bit product. */
  function Wrap64(n: int): int {
    (n + 0x8000_0000_0000_0000) % 0x1_0000_0000_0000_0000 - 0x8000_0000_0000_0000
  }

  /** The delay, in nanoseconds, a "retry" value sets: none unless it is all digits and fits
      int64 milliseconds; the product by 1,000,000 wraps around. */
  function RetryOf(value: seq<Byte>): Option<int> {
    if IsDigits(value) && Decimal(value) <= MAX_INT64 then Some(Wrap64(Decimal(value) * 1_000_000)) else None
  }

  /** The retry delay is the one the stream asked for exactly when it fits int64 nanoseconds; else
      it is off by a multiple of 2^64, or not set when even the milliseconds do not fit. */
  lemma RetryIsExactIff(value: seq<Byte>)
    requires IsDigits(value)
    ensures RetryOf(value) == Some(Decimal(value) * 1_000_000) <==> Decimal(value) * 1_000_000 <= MAX_INT64
    ensures RetryOf(value).None? <==> Decimal(value) > MAX_INT64
    ensures RetryOf(value).Some? ==>
      && -MAX_INT64 - 1 <= RetryOf(value).value <= MAX_INT64
      && (Decimal(value) * 1_000_000 - RetryOf(value).value) % 0x1_0000_0000_0000_0000 == 0
  {
    var n := Decimal(value) * 1_000_000;
    if n <= MAX_INT64 {
      assert (n + 0x8000_0000_0000_0000) % 0x1_0000_0000_0000_0000 == n + 0x8000_0000_0000_0000;
    }
  }

  function Digits(n: nat): (s: seq<Byte>)
    ensures IsDigits(s)
  {
    if n < 10 then [48 + n] else Digits(n / 10) + [48 + n % 10]
  }

  /** Written in decimal, with any leading zeros, a number of milliseconds whose nanoseconds fit is
      the delay set; anything but digits sets none. */
  lemma {:induction false} RetryReads(n: nat, zeros: nat) returns (value: seq<Byte>)
    requires n * 1_000_000 <= MAX_INT64
    ensures |value| == zeros + |Digits(n)| && value[zeros..] == Digits(n)
    ensures forall i :: 0 <= i < zeros ==> value[i] == 48
    ensures RetryOf(value) == Some(n * 1_000_000)
  {
    value := seq(zeros, i => 48) + Digits(n);
    DigitsRead(n, zeros);
    RetryIsExactIff(value);
  }

  lemma {:induction false} DigitsRead(n: nat, zeros: nat)
    ensures Decimal(seq(zeros, i => 48) + Digits(n)) == n
    decreases n, zeros
  {
    var padding: seq<Byte> := seq(zeros, i => 48);
    if n >= 10 {
      DigitsRead(n / 10, zeros);
      DecimalStep(padding + Digits(n / 10), 48 + n % 10);
      assert padding + Digits(n) == padding + Digits(n / 10) + [48 + n % 10];
    } else {
      ZerosRead(zeros);
      DecimalStep(padding, 48 + n);
    }
  }

  lemma {:induction false} ZerosRead(zeros: nat)
    ensures Decimal(seq(zeros, i => 48)) == 0
  {
    if zeros > 0 {
      ZerosRead(zeros - 1);
      DecimalStep(seq(zeros - 1, i => 48), 48);
      assert seq(zeros - 1, i => 48) + [48] == seq(zeros, i => 48);
    }
  }

  lemma NotDigitsSetsNothing(value: seq<Byte>, i: nat)
    requires value == [] || (i < |value| && !(48 <= value[i] <= 57))
    ensures RetryOf(value).None?
  {
  }

  /** A retry of "10000000000000" (a one and thirteen zeros) comes out as a negative delay. */
  lemma RetryCanWrap() returns (value: seq<Byte>)
    ensures |value| == 14 && value[0] == 49 && (forall i :: 1 <= i < 14 ==> value[i] == 48)
    ensures IsDigits(value) && RetryOf(value).Some? && RetryOf(value).value < 0
  {
    value := OneAndZeros(13);
    assert Ten(13) == 10_000_000_000_000;
  }

  function Ten(k: nat): nat {
    if k == 0 then 1 else 10 * Ten(k - 1)
  }

  lemma {:induction false} OneAndZeros(k: nat) returns (s: seq<Byte>)
    ensures |s| == k + 1 && s[0] == 49 && (forall i :: 1 <= i <= k ==> s[i] == 48)
    ensures IsDigits(s) && Decimal(s) == Ten(k)
  {
    if k == 0 {
      s := [49];
      assert s[..0] == [] && Decimal([]) == 0;
    } else {
      var z := OneAndZeros(k - 1);
      DecimalStep(z, 48);
      s := z + [48];
    }
  }

  lemma DecimalStep(s: seq<Byte>, d: Byte)
    requires (forall i :: 0 <= i < |s| ==> 48 <= s[i] <= 57) && 48 <= d <= 57
    ensures Decimal(s + [d]) == 10 * Decimal(s) + (d - 48)
  {
    assert (s + [d])[..|s|] == s;
  }

  // ---- Blocks -----------------------------------------------------------------------

  /** The values of the lines of a block that set the given field, in order. */
  function Values(block: seq<seq<Byte>>, field: seq<Byte>): seq<seq<Byte>> {
    if block == [] then []
    else
      var line := block[|block| - 1];
      var before := Values(block[..|block| - 1], field);
      if line != [] && !IsComment(line) && FieldName(line) == field then before + [FieldValue(line)] else before
  }

  /** Values joined by line feeds. */
  function Joined(values: seq<seq<Byte>>): seq<Byte> {
    if values == [] then []
    else if |values| == 1 then values[0]
    else Joined(values[..|values| - 1]) + [LF] + values[|values| - 1]
  }

  function LastOr<T>(values: seq<T>, default: T): T {
    if values == [] then default else values[|values| - 1]
  }

  function NulFree(values: seq<seq<Byte>>): seq<seq<Byte>> {
    if values == [] then []
    else NulFree(values[..|values| - 1]) + if NUL in values[|values| - 1] then [] else [values[|values| - 1]]
  }

  /** The last event id after a block. */
  function IdAfter(id: seq<Byte>, block: seq<seq<Byte>>): seq<Byte> {
    LastOr(NulFree(Values(block, ID)), id)
  }

  function Retries(values: seq<seq<Byte>>): seq<Option<int>> {
    if values == [] then []
    else Retries(values[..|values| - 1]) + if RetryOf(values[|values| - 1]).None? then []
      else [RetryOf(values[|values| - 1])]
  }

  function RetryAfterBlock(retry: Option<int>, block: seq<seq<Byte>>): Option<int> {
    LastOr(Retries(Values(block, RETRY)), retry)
  }

  /** What a block followed by a blank line dispatches: nothing without a data line. */
  function Dispatch(id: seq<Byte>, block: seq<seq<Byte>>): seq<Event> {
    if Values(block, DATA) == [] then []
    else [Event(IdAfter(id, block), LastOr(Values(block, EVENT), []), Joined(Values(block, DATA)))]
  }

  // ---- Streams ----------------------------------------------------------------------

  /** The first blank line, or the number of lines. */
  function BlockEnd(lines: seq<seq<Byte>>): (b: nat)
    ensures b <= |lines| && (b < |lines| ==> lines[b] == []) && forall i :: 0 <= i < b ==> lines[i] != []
  {
    if lines == [] || lines[0] == [] then 0 else 1 + BlockEnd(lines[1..])
  }

  lemma BlockEndIs(lines: seq<seq<Byte>>, b: nat)
    requires b <= |lines| && (b < |lines| ==> lines[b] == []) && forall i :: 0 <= i < b ==> lines[i] != []
    ensures BlockEnd(lines) == b
  {
  }

  /** What a stream amounts to: its events in order, and the stream-level state it leaves. An
      unfinished block dispatches nothing but still sets the id and the retry delay. */
  datatype Meaning = Meaning(events: seq<Event>, id: seq<Byte>, retry: Option<int>, unfinished: seq<seq<Byte>>)

  function Interpret(lines: seq<seq<Byte>>, id: seq<Byte>, retry: Option<int>): Meaning
    decreases |lines|
  {
    var b := BlockEnd(lines);
    var block := lines[..b];
    var id', retry' := IdAfter(id, block), RetryAfterBlock(retry, block);
    if b == |lines| then Meaning([], id', retry', block)
    else
      var rest := Interpret(lines[b + 1..], id', retry');
      Meaning(Dispatch(id, block) + rest.events, rest.id, rest.retry, rest.unfinished)
  }

  function StripBom(s: seq<Byte>): seq<Byte> {
    if |s| >= 3 && s[..3] == BOM then s[3..] else s
  }
}
