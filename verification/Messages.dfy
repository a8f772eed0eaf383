/** The message envelope of message.go, and the sequence stamping of routing/splitter.go. */
module Messages {
  import opened Reliability

  /** A header value: the dynamic types the modelled code tells apart. */
  datatype Value = Text(s: string) | Int(n: int) | Int64(n64: int) | Float(r: real) | Opaque(tag: nat)

  const HEADER_MESSAGE_ID := "msgin.message-id"
  const HEADER_CORRELATION_ID := "msgin.correlation-id"
  const HEADER_SEQUENCE_NUMBER := "msgin.sequence-number"
  const HEADER_SEQUENCE_SIZE := "msgin.sequence-size"

  /** A message value. `delivery` names the delivery that carried this value, so that two
      deliveries of one message (same headers, same payload) stay distinguishable. */
  datatype Message = Message(headers: map<string, Value>, payload: nat, delivery: nat) {

    function Header(key: string): Option<Value> {
      if key in headers then Some(headers[key]) else None
    }

    function StringHeader(key: string): Option<string> {
      if key in headers && headers[key].Text? then Some(headers[key].s) else None
    }

    function ID(): string {
      if StringHeader(HEADER_MESSAGE_ID).Some? then StringHeader(HEADER_MESSAGE_ID).value else ""
    }

    function WithHeader(key: string, v: Value): Message {
      this.(headers := headers[key := v])
    }
  }

  /** Decimal rendering of a natural number (strconv.Itoa on the positions of a split). */
  function Itoa(n: nat): (s: string)
    ensures s != ""
  {
    if n < 10 then [Digit(n)] else Itoa(n / 10) + [Digit(n % 10)]
  }

  function Digit(d: nat): char
    requires d < 10
  {
    "0123456789"[d]
  }

  lemma DigitIsInjective(a: nat, b: nat)
    requires a < 10 && b < 10 && Digit(a) == Digit(b)
    ensures a == b
  {
  }

  lemma {:induction false} ItoaIsInjective(m: nat, n: nat)
    requires Itoa(m) == Itoa(n)
    ensures m == n
    decreases m
  {
    var sm, sn := Itoa(m), Itoa(n);
    assert sm[|sm| - 1] == Digit(m % 10) && sn[|sn| - 1] == Digit(n % 10);
    DigitIsInjective(m % 10, n % 10);
    if m >= 10 && n >= 10 {
      assert sm[..|sm| - 1] == Itoa(m / 10) && sn[..|sn| - 1] == Itoa(n / 10);
      ItoaIsInjective(m / 10, n / 10);
    }
  }

  /** stampSequence: sequence headers always; id and correlation only when the parent has an id,
      and a correlation header already on the child is kept. */
  function StampSequence(child: Message, parent: Message, num: nat, size: nat): Message {
    var out := child.WithHeader(HEADER_SEQUENCE_NUMBER, Int(num)).WithHeader(HEADER_SEQUENCE_SIZE, Int(size));
    var pid := parent.ID();
    if pid == "" then out
    else
      var named := out.WithHeader(HEADER_MESSAGE_ID, Text(pid + "#" + Itoa(num)));
      if HEADER_CORRELATION_ID in named.headers then named
      else named.WithHeader(HEADER_CORRELATION_ID, Text(pid))
  }

  /** What a stamped child carries, header by header: its position and the size of the split; the
      parent's id and the position as its own id, and the parent's id as its correlation unless it
      has one, if the parent has an id; all else as before. */
  lemma StampedHeaders(child: Message, parent: Message, num: nat, size: nat, key: string)
    ensures
      var m, pid := StampSequence(child, parent, num, size), parent.ID();
      && Carries(m, HEADER_SEQUENCE_NUMBER, Some(Int(num))) && Carries(m, HEADER_SEQUENCE_SIZE, Some(Int(size)))
      && m.ID() == (if pid == "" then child.ID() else pid + "#" + Itoa(num))
      && Carries(m, HEADER_CORRELATION_ID,
                 if HEADER_CORRELATION_ID in child.headers || pid == "" then child.Header(HEADER_CORRELATION_ID)
                 else Some(Text(pid)))
      && (key !in {HEADER_SEQUENCE_NUMBER, HEADER_SEQUENCE_SIZE, HEADER_MESSAGE_ID, HEADER_CORRELATION_ID} ==>
            Carries(m, key, child.Header(key)))
      && m.payload == child.payload && m.delivery == child.delivery
  {
    HeadersDiffer();
  }

  predicate Carries(m: Message, key: string, v: Option<Value>) {
    m.Header(key) == v
  }

  /** Stamping a stamped child again changes nothing. */
  lemma StampedAgain(child: Message, parent: Message, num: nat, size: nat)
    ensures
      var m := StampSequence(child, parent, num, size);
      StampSequence(m, parent, num, size) == m
  {
    HeadersDiffer();
    var m := StampSequence(child, parent, num, size);
    assert StampSequence(m, parent, num, size).headers == m.headers;
  }

  lemma HeadersDiffer()
    ensures HEADER_CORRELATION_ID !in {HEADER_SEQUENCE_NUMBER, HEADER_SEQUENCE_SIZE, HEADER_MESSAGE_ID}
    ensures HEADER_MESSAGE_ID !in {HEADER_SEQUENCE_NUMBER, HEADER_SEQUENCE_SIZE}
    ensures HEADER_SEQUENCE_NUMBER != HEADER_SEQUENCE_SIZE
  {
    assert HEADER_CORRELATION_ID[6] == 'c';
    assert HEADER_SEQUENCE_NUMBER[6] == 's' && HEADER_SEQUENCE_SIZE[6] == 's' && HEADER_MESSAGE_ID[6] == 'm';
    assert HEADER_SEQUENCE_NUMBER[15] == 'n' && HEADER_SEQUENCE_SIZE[15] == 's';
  }

  /** Two children of one split share an id exactly when they are the same position. */
  lemma StampedIdsDiffer(c1: Message, c2: Message, parent: Message, i: nat, j: nat, size: nat)
    requires parent.ID() != ""
    ensures StampSequence(c1, parent, i, size).ID() != ""
    ensures StampSequence(c1, parent, i, size).ID() == StampSequence(c2, parent, j, size).ID() <==> i == j
  {
    var prefix := parent.ID() + "#";
    var a, b := prefix + Itoa(i), prefix + Itoa(j);
    assert StampSequence(c1, parent, i, size).ID() == a;
    assert StampSequence(c2, parent, j, size).ID() == b;
    if a == b {
      assert a[|prefix|..] == Itoa(i) && b[|prefix|..] == Itoa(j);
      ItoaIsInjective(i, j);
    }
  }
}
