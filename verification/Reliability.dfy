/** The error classification of reliability.go: marker errors, wrapped and joined
    errors, and the questions the runtime asks of such a tree. */
module Reliability {

  datatype Option<+T> = None | Some(value: T)

  /** The sentinel errors the modelled code distinguishes. Every other leaf is Other. */
  datatype Sentinel =
    | PayloadType
    | PayloadDecode
    | PayloadTooLarge
    | OverflowDropped
    | NoCorrelation
    | HandlerPanic
    | RetryBudgetExhausted
    | DeadLettered
    | Cancelled
    | Other(text: string)

  /** An error value. Wrap is a single-cause wrapper that carries no marker; Join is
      every multi-cause wrapper (errors.Join, or a format with several %w verbs). */
  datatype Error =
    | Leaf(sentinel: Sentinel)
    | PermanentMark(inner: Error)
    | RetryAfterMark(inner: Error, delay: int)
    | Wrap(inner: Error)
    | Join(parts: seq<Error>)

  /** errors.As with a *permanentError target. */
  predicate HasPermanentMark(e: Error) {
    match e
    case Leaf(_) => false
    case PermanentMark(_) => true
    case RetryAfterMark(inner, _) => HasPermanentMark(inner)
    case Wrap(inner) => HasPermanentMark(inner)
    case Join(parts) => exists i :: 0 <= i < |parts| && HasPermanentMark(parts[i])
  }

  /** errors.Is with a sentinel target. */
  predicate Is(e: Error, s: Sentinel) {
    match e
    case Leaf(x) => x == s
    case PermanentMark(inner) => Is(inner, s)
    case RetryAfterMark(inner, _) => Is(inner, s)
    case Wrap(inner) => Is(inner, s)
    case Join(parts) => exists i :: 0 <= i < |parts| && Is(parts[i], s)
  }

  predicate IsPermanent(err: Option<Error>) {
    err.Some? &&
    (HasPermanentMark(err.value)
     || Is(err.value, PayloadType)
     || Is(err.value, PayloadDecode)
     || Is(err.value, PayloadTooLarge))
  }

  /** errors.As with a *retryAfterError target: the first marker met in the walk. */
  function RetryAfterOf(e: Error): Option<int>
    decreases e, 0
  {
    match e
    case Leaf(_) => None
    case PermanentMark(inner) => RetryAfterOf(inner)
    case RetryAfterMark(_, delay) => Some(delay)
    case Wrap(inner) => RetryAfterOf(inner)
    case Join(parts) => RetryAfterOfAny(parts)
  }

  function RetryAfterOfAny(parts: seq<Error>): Option<int>
    decreases parts, 0
  {
    if parts == [] then None
    else
      var first := RetryAfterOf(parts[0]);
      if first.Some? then first else RetryAfterOfAny(parts[1..])
  }

  /** Reference: every node of the tree, in the order errors.Is and errors.As visit them. */
  ghost function Nodes(e: Error): seq<Error>
    decreases e, 0
  {
    match e
    case Leaf(_) => [e]
    case PermanentMark(inner) => [e] + Nodes(inner)
    case RetryAfterMark(inner, _) => [e] + Nodes(inner)
    case Wrap(inner) => [e] + Nodes(inner)
    case Join(parts) => [e] + NodesOfAll(parts)
  }

  ghost function NodesOfAll(parts: seq<Error>): seq<Error>
    decreases parts, 0
  {
    if parts == [] then [] else Nodes(parts[0]) + NodesOfAll(parts[1..])
  }

  /** A node that by itself makes the whole error permanent. */
  predicate PermanentNode(n: Error) {
    n.PermanentMark? ||
    (n.Leaf? && (n.sentinel.PayloadType? || n.sentinel.PayloadDecode? || n.sentinel.PayloadTooLarge?))
  }

  lemma {:induction false} NodesOfAllMembers(parts: seq<Error>, n: Error)
    ensures n in NodesOfAll(parts) <==> exists i :: 0 <= i < |parts| && n in Nodes(parts[i])
    decreases parts
  {
    if parts != [] {
      NodesOfAllMembers(parts[1..], n);
      if i :| 0 <= i < |parts[1..]| && n in Nodes(parts[1..][i]) {
        assert parts[i + 1] == parts[1..][i];
      }
      if i :| 0 <= i < |parts| && n in Nodes(parts[i]) {
        if i > 0 {
          assert parts[1..][i - 1] == parts[i];
        }
      }
    }
  }

  /** errors.Is finds a sentinel exactly when it is a leaf of the tree. */
  lemma {:induction false} IsFindsNode(e: Error, s: Sentinel)
    ensures Is(e, s) <==> Leaf(s) in Nodes(e)
    decreases e
  {
    match e
    case Leaf(_) =>
    case PermanentMark(inner) => IsFindsNode(inner, s);
    case RetryAfterMark(inner, _) => IsFindsNode(inner, s);
    case Wrap(inner) => IsFindsNode(inner, s);
    case Join(parts) =>
      forall i | 0 <= i < |parts| ensures Is(parts[i], s) <==> Leaf(s) in Nodes(parts[i]) {
        IsFindsNode(parts[i], s);
      }
      NodesOfAllMembers(parts, Leaf(s));
  }

  lemma {:induction false} MarkIsANode(e: Error)
    ensures HasPermanentMark(e) <==> exists n :: n in Nodes(e) && n.PermanentMark?
    decreases e
  {
    match e
    case Leaf(_) =>
    case PermanentMark(inner) => assert e in Nodes(e);
    case RetryAfterMark(inner, _) => MarkIsANode(inner);
    case Wrap(inner) => MarkIsANode(inner);
    case Join(parts) =>
      forall i | 0 <= i < |parts|
        ensures HasPermanentMark(parts[i]) <==> exists n :: n in Nodes(parts[i]) && n.PermanentMark?
      {
        MarkIsANode(parts[i]);
      }
      forall n ensures n in NodesOfAll(parts) <==> exists i :: 0 <= i < |parts| && n in Nodes(parts[i]) {
        NodesOfAllMembers(parts, n);
      }
      if HasPermanentMark(e) {
        var i :| 0 <= i < |parts| && HasPermanentMark(parts[i]);
        var n :| n in Nodes(parts[i]) && n.PermanentMark?;
        assert n in Nodes(e);
      }
      if n :| n in Nodes(e) && n.PermanentMark? {
        assert n in NodesOfAll(parts);
      }
  }

  /** An error is permanent exactly when some node of its tree is, wherever it sits:
      wrapping, joining and a RetryAfter marker around it change nothing. */
  lemma {:induction false} PermanentIffSomeNodeIs(e: Error)
    ensures IsPermanent(Some(e)) <==> exists n :: n in Nodes(e) && PermanentNode(n)
  {
    MarkIsANode(e);
    IsFindsNode(e, PayloadType);
    IsFindsNode(e, PayloadDecode);
    IsFindsNode(e, PayloadTooLarge);
    if IsPermanent(Some(e)) {
      if HasPermanentMark(e) {
        var n :| n in Nodes(e) && n.PermanentMark?;
        assert PermanentNode(n);
      } else if Is(e, PayloadType) {
        assert PermanentNode(Leaf(PayloadType));
      } else if Is(e, PayloadDecode) {
        assert PermanentNode(Leaf(PayloadDecode));
      } else {
        assert PermanentNode(Leaf(PayloadTooLarge));
      }
    }
  }

  /** The delay of the first RetryAfter marker of a node sequence. */
  ghost function FirstDelay(ns: seq<Error>): Option<int> {
    if ns == [] then None
    else if ns[0].RetryAfterMark? then Some(ns[0].delay)
    else FirstDelay(ns[1..])
  }

  lemma {:induction false} FirstDelayOfConcat(a: seq<Error>, b: seq<Error>)
    ensures FirstDelay(a + b) == if FirstDelay(a).Some? then FirstDelay(a) else FirstDelay(b)
    decreases a
  {
    if a == [] {
      assert a + b == b;
    } else {
      assert (a + b)[1..] == a[1..] + b;
      FirstDelayOfConcat(a[1..], b);
    }
  }

  /** RetryAfterOf returns the first marker in visiting order. */
  lemma {:induction false} RetryAfterIsFirstMarker(e: Error)
    ensures RetryAfterOf(e) == FirstDelay(Nodes(e))
    decreases e, 0
  {
    match e
    case Leaf(_) =>
    case PermanentMark(inner) =>
      RetryAfterIsFirstMarker(inner);
      FirstDelayOfConcat([e], Nodes(inner));
    case RetryAfterMark(inner, _) =>
    case Wrap(inner) =>
      RetryAfterIsFirstMarker(inner);
      FirstDelayOfConcat([e], Nodes(inner));
    case Join(parts) =>
      RetryAfterOfAnyIsFirstMarker(parts);
      FirstDelayOfConcat([e], NodesOfAll(parts));
  }

  lemma {:induction false} RetryAfterOfAnyIsFirstMarker(parts: seq<Error>)
    ensures RetryAfterOfAny(parts) == FirstDelay(NodesOfAll(parts))
    decreases parts, 0
  {
    if parts != [] {
      RetryAfterIsFirstMarker(parts[0]);
      RetryAfterOfAnyIsFirstMarker(parts[1..]);
      FirstDelayOfConcat(Nodes(parts[0]), NodesOfAll(parts[1..]));
    }
  }
}
