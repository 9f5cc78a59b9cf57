/** UTF-8: encoding of text, and validation as done by `std::str::from_utf8`. */
module Utf8 {
  import opened Bytes

  /** `Incomplete` is an error at the end of input (`error_len()` is `None`). */
  datatype Verdict = Valid | Incomplete | Invalid
  datatype Head = Complete(width: nat) | Truncated | Malformed

  function EncodeChar(c: char): (b: bytes)
    ensures b != []
  {
    var v := c as int;
    if v < 0x80 then [v]
    else if v < 0x800 then [0xC0 + v / 64, 0x80 + v % 64]
    else if v < 0x1_0000 then [0xE0 + v / 4096, 0x80 + v / 64 % 64, 0x80 + v % 64]
    else [0xF0 + v / 262144, 0x80 + v / 4096 % 64, 0x80 + v / 64 % 64, 0x80 + v % 64]
  }

  function Encode(s: string): bytes
  {
    if s == [] then [] else EncodeChar(s[0]) + Encode(s[1..])
  }

  function Width(lead: byte): nat
  {
    if lead < 0x80 then 1
    else if 0xC2 <= lead <= 0xDF then 2
    else if 0xE0 <= lead <= 0xEF then 3
    else if 0xF0 <= lead <= 0xF4 then 4
    else 0
  }

  predicate Follows(lead: byte, i: nat, b: byte)
  {
    if i != 1 then 0x80 <= b <= 0xBF
    else if lead == 0xE0 then 0xA0 <= b <= 0xBF
    else if lead == 0xED then 0x80 <= b <= 0x9F
    else if lead == 0xF0 then 0x90 <= b <= 0xBF
    else if lead == 0xF4 then 0x80 <= b <= 0x8F
    else 0x80 <= b <= 0xBF
  }

  function HeadOf(b: bytes): (h: Head)
    requires b != []
    ensures h.Complete? ==> 1 <= h.width <= |b|
  {
    var w := Width(b[0]);
    if w == 0 || (exists i :: 1 <= i < w && i < |b| && !Follows(b[0], i, b[i])) then Malformed
    else if |b| < w then Truncated
    else Complete(w)
  }

  function Validate(b: bytes): Verdict
  {
    if b == [] then Valid
    else match HeadOf(b)
      case Malformed => Invalid
      case Truncated => Incomplete
      case Complete(w) => Validate(b[w..])
  }

  predicate IsText(b: bytes) { Validate(b) == Valid }

  /** Cutting valid text anywhere leaves valid text, or text that stops inside a character. */
  lemma {:induction false} PrefixOfText(b: bytes, k: nat)
    requires IsText(b) && k <= |b|
    ensures Validate(b[..k]) != Invalid
    decreases |b|
  {
    if k > 0 {
      var p := b[..k];
      var w := Width(b[0]);
      assert HeadOf(b) == Complete(w);
      if w <= k {
        assert HeadOf(p) == Complete(w);
        PrefixOfText(b[w..], k - w);
        assert p[w..] == b[w..][..k - w];
      }
    }
  }

  /** The encoding of any text is valid. */
  lemma {:induction false} EncodeIsText(s: string)
    ensures IsText(Encode(s))
  {
    if s != [] {
      var e := EncodeChar(s[0]);
      EncodeIsText(s[1..]);
      EncodeCharHead(s[0], Encode(s[1..]));
      assert (e + Encode(s[1..]))[|e|..] == Encode(s[1..]);
    }
  }

  lemma EncodeCharHead(c: char, rest: bytes)
    ensures HeadOf(EncodeChar(c) + rest) == Complete(|EncodeChar(c)|)
  {
    hide EncodeChar;
    var e := EncodeChar(c);
    EncodeCharBytes(c);
    var b := e + rest;
    assert b[0] == e[0] && forall i :: 1 <= i < |e| ==> b[i] == e[i];
  }

  lemma EncodeCharBytes(c: char)
    ensures var e := EncodeChar(c); Width(e[0]) == |e| && forall i :: 1 <= i < |e| ==> Follows(e[0], i, e[i])
  {
    var v := c as int;
    if v >= 0x80 {
      var e := EncodeChar(c);
      assert |e| == 2 ==> Follows(e[0], 1, e[1]);
      assert |e| == 3 ==> Follows(e[0], 1, e[1]) && Follows(e[0], 2, e[2]);
      assert |e| == 4 ==> Follows(e[0], 1, e[1]) && Follows(e[0], 2, e[2]) && Follows(e[0], 3, e[3]);
    }
  }

  // ---------------------------------------------------------------- decoding

  /** The code point spelt by a lead byte and its continuation bytes. */
  function Point(b: seq<int>): int
  {
    match |b|
    case 1 => b[0]
    case 2 => (b[0] - 0xC0) * 64 + (b[1] - 0x80)
    case 3 => (b[0] - 0xE0) * 4096 + (b[1] - 0x80) * 64 + (b[2] - 0x80)
    case 4 => (b[0] - 0xF0) * 262144 + (b[1] - 0x80) * 4096 + (b[2] - 0x80) * 64 + (b[3] - 0x80)
    case _ => 0
  }

  /** The character at the front of well-formed text. */
  function FirstChar(b: bytes): char
    requires b != [] && HeadOf(b).Complete?
  {
    var w := HeadOf(b).width;
    assert forall i :: 1 <= i < w ==> Follows(b[0], i, b[i]);
    Point(b[..w]) as char
  }

  function Decode(b: bytes): string
    requires IsText(b)
  {
    if b == [] then [] else [FirstChar(b)] + Decode(b[HeadOf(b).width..])
  }

  lemma PointEncoded(c: char)
    ensures Point(EncodeChar(c)) == c as int
  {
    var v := c as int;
    assert v / 64 == v / 4096 * 64 + v / 64 % 64 && v / 4096 == v / 262144 * 64 + v / 4096 % 64;
  }

  lemma FirstCharEncoded(c: char, rest: bytes)
    ensures HeadOf(EncodeChar(c) + rest) == Complete(|EncodeChar(c)|) && FirstChar(EncodeChar(c) + rest) == c
  {
    hide EncodeChar, Point, HeadOf;
    EncodeCharHead(c, rest);
    PointEncoded(c);
    assert (EncodeChar(c) + rest)[..|EncodeChar(c)|] == EncodeChar(c);
  }

  /** Decoding undoes encoding. */
  lemma {:induction false} DecodeEncode(s: string)
    ensures IsText(Encode(s)) && Decode(Encode(s)) == s
  {
    EncodeIsText(s);
    if s != [] {
      FirstCharEncoded(s[0], Encode(s[1..]));
      assert (EncodeChar(s[0]) + Encode(s[1..]))[|EncodeChar(s[0])|..] == Encode(s[1..]);
      DecodeEncode(s[1..]);
    }
  }

  /** A cut of encoded text that is itself valid falls between characters. */
  lemma {:induction false} CutBetweenChars(s: string, k: nat) returns (j: nat)
    requires k <= |Encode(s)| && IsText(Encode(s)[..k])
    ensures j <= |s| && Encode(s)[..k] == Encode(s[..j]) && (j == 0 <==> k == 0) && (j == |s| <==> k == |Encode(s)|)
  {
    if k == 0 {
      j := 0;
    } else {
      var e, rest := EncodeChar(s[0]), Encode(s[1..]);
      EncodeCharHead(s[0], rest);
      var p := Encode(s)[..k];
      assert Width(p[0]) == |e|;
      assert HeadOf(p) == Complete(|e|);
      assert p[|e|..] == rest[..k - |e|];
      var i := CutBetweenChars(s[1..], k - |e|);
      j := i + 1;
      assert s[..j][1..] == s[1..][..i];
    }
  }

  lemma Digits64(q: nat, r: nat)
    requires r < 64
    ensures (q * 64 + r) / 64 == q && (q * 64 + r) % 64 == r
  {
  }

  lemma TwoBytes(x: nat, y: nat)
    requires 2 <= x < 32 && y < 64
    ensures var v := x * 64 + y; 0x80 <= v < 0x800 && v / 64 == x && v % 64 == y
  {
    Digits64(x, y);
  }

  lemma ThreeBytes(x: nat, y: nat, z: nat)
    requires x < 16 && y < 64 && z < 64 && (x == 0 ==> y >= 32)
    ensures var v := x * 4096 + y * 64 + z;
            0x800 <= v < 0x1_0000 && v / 4096 == x && v / 64 % 64 == y && v % 64 == z
  {
    Digits64(x, y);
    Digits64(x * 64 + y, z);
  }

  lemma FourBytes(x: nat, y: nat, z: nat, u: nat)
    requires x <= 4 && y < 64 && z < 64 && u < 64 && (x == 0 ==> y >= 16) && (x == 4 ==> y < 16)
    ensures var v := x * 262144 + y * 4096 + z * 64 + u;
            && 0x1_0000 <= v && v / 262144 == x && v / 4096 % 64 == y && v / 64 % 64 == z && v % 64 == u
  {
    Digits64(x, y);
    Digits64(x * 64 + y, z);
    Digits64((x * 64 + y) * 64 + z, u);
    var v := x * 262144 + y * 4096 + z * 64 + u;
    assert v == ((x * 64 + y) * 64 + z) * 64 + u;
    assert v / 64 / 64 == v / 4096 && v / 4096 / 64 == v / 262144;
  }

  lemma FirstCharDecoded(b: bytes)
    requires b != [] && HeadOf(b).Complete?
    ensures EncodeChar(FirstChar(b)) == b[..HeadOf(b).width]
  {
    hide EncodeChar;
    var w := HeadOf(b).width;
    assert forall i :: 1 <= i < w ==> Follows(b[0], i, b[i]);
    PointSpelt(b[..w], FirstChar(b));
  }

  lemma PointSpelt(b: bytes, c: char)
    requires b != [] && |b| == Width(b[0]) && (forall i :: 1 <= i < |b| ==> Follows(b[0], i, b[i]))
    requires Point(b) == c as int
    ensures EncodeChar(c) == b
  {
    assert |b| > 1 ==> Follows(b[0], 1, b[1]);
    match |b|
    case 2 => TwoBytes(b[0] - 0xC0, b[1] - 0x80);
    case 3 => ThreeBytes(b[0] - 0xE0, b[1] - 0x80, b[2] - 0x80);
    case 4 => FourBytes(b[0] - 0xF0, b[1] - 0x80, b[2] - 0x80, b[3] - 0x80);
    case _ =>
  }

  lemma {:induction false} DecodeGivesBack(b: bytes)
    requires IsText(b)
    ensures Encode(Decode(b)) == b
    decreases |b|
  {
    hide FirstChar, HeadOf, EncodeChar;
    if b != [] {
      var w := HeadOf(b).width;
      FirstCharDecoded(b);
      DecodeGivesBack(b[w..]);
      assert b == b[..w] + b[w..];
      assert Decode(b)[1..] == Decode(b[w..]);
    }
  }

  /** Valid bytes are exactly the encodings of texts, and decoding gives the text they encode. */
  lemma EncodeDecode(b: bytes)
    ensures IsText(b) ==> Encode(Decode(b)) == b
    ensures IsText(b) <==> exists s :: b == Encode(s)
  {
    hide Encode, Decode, IsText;
    forall s | b == Encode(s) ensures IsText(b) { EncodeIsText(s); }
    if IsText(b) {
      DecodeGivesBack(b);
      assert b == Encode(Decode(b));
    }
  }

  /** Bytes are incomplete exactly if they are not text but can be continued to text. */
  lemma {:induction false} IncompleteMeans(b: bytes)
    ensures Validate(b) == Incomplete <==> !IsText(b) && exists rest: bytes :: IsText(b + rest)
  {
    forall rest: bytes | IsText(b + rest) ensures Validate(b) != Invalid {
      PrefixOfText(b + rest, |b|);
      assert (b + rest)[..|b|] == b;
    }
    if Validate(b) == Incomplete {
      var rest := Continued(b);
      assert IsText(b + rest);
    }
  }

  /** What completes the last character. */
  lemma {:induction false} Continued(b: bytes) returns (rest: bytes)
    requires Validate(b) == Incomplete
    ensures IsText(b + rest)
    decreases |b|
  {
    var h := HeadOf(b);
    if h.Complete? {
      rest := Continued(b[h.width..]);
      assert HeadOf(b + rest) == h;
      assert (b + rest)[h.width..] == b[h.width..] + rest;
    } else {
      rest := if |b| == 1 then [Second(b[0])] + [0x80, 0x80] else [0x80, 0x80];
      rest := rest[..Width(b[0]) - |b|];
      var whole := b + rest;
      assert forall i :: 1 <= i < |whole| ==> Follows(b[0], i, whole[i]);
      assert HeadOf(whole) == Complete(|whole|) && whole[|whole|..] == [];
    }
  }

  /** A second byte that may follow `lead`. */
  function Second(lead: byte): byte { if lead == 0xE0 then 0xA0 else if lead == 0xF0 then 0x90 else 0x80 }
}
