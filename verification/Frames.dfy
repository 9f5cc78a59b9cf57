/** The length framing of `io/input`: a decimal byte count, a newline, then the payload. */
module Frames {
  import opened Bytes

  function Frame(payload: bytes): bytes { Digits(|payload|) + [NEWLINE] + payload }

  function Framed(messages: seq<bytes>): bytes
  {
    if messages == [] then [] else Frame(messages[0]) + Framed(messages[1..])
  }

  lemma {:induction false} FramedSnoc(messages: seq<bytes>, last: bytes)
    ensures Framed(messages + [last]) == Framed(messages) + Frame(last)
  {
    if messages == [] {
      assert [last][1..] == [];
    } else {
      assert (messages + [last])[1..] == messages[1..] + [last];
      FramedSnoc(messages[1..], last);
    }
  }

  /** The index of the first newline, or the length if there is none. */
  function LineEnd(b: bytes): (i: nat)
    ensures i <= |b| && (i < |b| ==> b[i] == NEWLINE) && forall j :: 0 <= j < i ==> b[j] != NEWLINE
  {
    if b == [] || b[0] == NEWLINE then 0 else 1 + LineEnd(b[1..])
  }

  /** Split one complete frame off the front: its payload and what follows. */
  function Unframe(b: bytes): (r: Option<(bytes, bytes)>)
    ensures r.Some? ==> |r.value.1| < |b|
  {
    var i := LineEnd(b);
    if i == |b| then None
    else match ParseUnsigned(b[..i])
      case None => None
      case Some(n) => if i + 1 + n > |b| then None else Some((b[i + 1..i + 1 + n], b[i + 1 + n..]))
  }

  /** Decode frames until what is left is not a complete frame. */
  function Decode(b: bytes): seq<bytes>
    decreases |b|
  {
    match Unframe(b)
    case None => []
    case Some((payload, rest)) => [payload] + Decode(rest)
  }

  /** An agent draining the stream: decode until no complete frame is left. */
  method Drain(b: bytes) returns (messages: seq<bytes>, rest: bytes)
    ensures messages == Decode(b) && Unframe(rest).None?
  {
    messages, rest := [], b;
    while Unframe(rest).Some?
      invariant messages + Decode(rest) == Decode(b)
      decreases |rest|
    {
      var (payload, tail) := Unframe(rest).value;
      messages, rest := messages + [payload], tail;
    }
  }

  predicate Framable(messages: seq<bytes>) { forall i :: 0 <= i < |messages| ==> |messages[i]| < U64_LIMIT }

  lemma FrameHeader(payload: bytes, rest: bytes)
    ensures var b := Frame(payload) + rest;
            LineEnd(b) == |Digits(|payload|)| && b[..LineEnd(b)] == Digits(|payload|)
  {
    var d := Digits(|payload|);
    var b := Frame(payload) + rest;
    assert forall j :: 0 <= j < |d| ==> b[j] == d[j] && IsDigit(d[j]);
    assert b[|d|] == NEWLINE;
  }

  lemma UnframeFrame(payload: bytes, rest: bytes)
    requires |payload| < U64_LIMIT
    ensures Unframe(Frame(payload) + rest) == Some((payload, rest))
  {
    var b, d := Frame(payload) + rest, Digits(|payload|);
    FrameHeader(payload, rest);
    ParseDigits(|payload|);
    assert b[|d| + 1..|d| + 1 + |payload|] == payload;
    assert b[|d| + 1 + |payload|..] == rest;
  }

  /** Cut anywhere inside its first frame, a stream has no complete frame. */
  lemma UnframeTorn(payload: bytes, rest: bytes, k: nat)
    requires |payload| < U64_LIMIT && k < |Frame(payload)|
    ensures Unframe((Frame(payload) + rest)[..k]).None?
  {
    var b, d := Frame(payload) + rest, Digits(|payload|);
    FrameHeader(payload, rest);
    if k > |d| {
      var t := b[..k];
      assert t[|d|] == NEWLINE && forall j :: 0 <= j < |d| ==> t[j] == b[j];
      assert LineEnd(t) == |d| && t[..|d|] == d;
      ParseDigits(|payload|);
    } else {
      assert forall j :: 0 <= j < k ==> b[..k][j] == b[j];
    }
  }

  /**
   * Every prefix of a framed stream decodes to a prefix of the messages: exactly those whose
   * frames fit in it. The whole stream decodes to all of them.
   */
  lemma {:induction false} DecodePrefix(messages: seq<bytes>, k: nat)
    requires Framable(messages) && k <= |Framed(messages)|
    ensures Decode(Framed(messages)[..k]) <= messages
    ensures var n := |Decode(Framed(messages)[..k])|;
            |Framed(messages[..n])| <= k && (n < |messages| ==> k < |Framed(messages[..n + 1])|)
    decreases |messages|
  {
    hide Unframe, Frame;
    if messages != [] {
      var f, rest := Frame(messages[0]), Framed(messages[1..]);
      var b := Framed(messages);
      if k < |f| {
        UnframeTorn(messages[0], rest, k);
        assert messages[..1][1..] == [] && messages[..1][0] == messages[0];
        assert Framed(messages[..1]) == f + [];
      } else {
        assert b[..k] == f + rest[..k - |f|];
        UnframeFrame(messages[0], rest[..k - |f|]);
        DecodePrefix(messages[1..], k - |f|);
        var n := |Decode(rest[..k - |f|])|;
        assert messages[..n + 1][1..] == messages[1..][..n];
        if n + 1 < |messages| { assert messages[..n + 2][1..] == messages[1..][..n + 1]; }
      }
    }
  }

  /** Decoding inverts framing, whatever bytes the payloads hold. */
  lemma DecodeFramed(messages: seq<bytes>)
    requires Framable(messages)
    ensures Decode(Framed(messages)) == messages
  {
    hide Unframe, Frame, Decode, Framed;
    var b := Framed(messages);
    DecodePrefix(messages, |b|);
    assert b[..|b|] == b;
    var n := |Decode(b)|;
    if n < |messages| { FramedGrows(messages, n + 1); }
  }

  lemma {:induction false} FramedGrows(messages: seq<bytes>, k: nat)
    requires k <= |messages|
    ensures |Framed(messages[..k])| <= |Framed(messages)|
  {
    if k > 0 {
      assert messages[..k][1..] == messages[1..][..k - 1];
      FramedGrows(messages[1..], k - 1);
    }
  }
}
