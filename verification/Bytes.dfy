/** Bytes, bounded counters and the decimal spelling of numbers. */
module Bytes {

  type byte = x: int | 0 <= x < 256
  type bytes = seq<byte>

  datatype Option<+T> = None | Some(value: T)

  const U32_LIMIT: nat := 0x1_0000_0000
  const U64_LIMIT: nat := 0x1_0000_0000_0000_0000
  const NEWLINE: byte := 10

  /** The window `[offset, offset + count)` of `content`, clamped to its end. */
  function Slice(content: bytes, offset: nat, count: nat): (r: bytes)
    ensures |r| == if |content| <= offset then 0 else if count < |content| - offset then count else |content| - offset
    ensures offset <= |content| ==> r == content[offset..offset + |r|]
  {
    var start := if offset < |content| then offset else |content|;
    var end := if start + count < |content| then start + count else |content|;
    content[start..end]
  }

  function Flatten(parts: seq<bytes>): bytes
  {
    if parts == [] then [] else Flatten(parts[..|parts| - 1]) + parts[|parts| - 1]
  }

  lemma FlattenSnoc(parts: seq<bytes>, last: bytes)
    ensures Flatten(parts + [last]) == Flatten(parts) + last
  {
    assert (parts + [last])[..|parts|] == parts;
  }

  predicate IsDigit(c: int) { 48 <= c <= 57 }

  /** Decimal digits of `n`, most significant first, with no leading zero. */
  function Digits(n: nat): (d: bytes)
    ensures d != [] && forall i :: 0 <= i < |d| ==> IsDigit(d[i])
  {
    if n < 10 then [48 + n] else Digits(n / 10) + [48 + n % 10]
  }

  function DigitsValue(d: seq<int>): (n: nat)
    requires forall i :: 0 <= i < |d| ==> IsDigit(d[i])
  {
    if d == [] then 0
    else
      assert IsDigit(d[|d| - 1]);
      DigitsValue(d[..|d| - 1]) * 10 + (d[|d| - 1] - 48)
  }

  function ParseDigitRun(d: seq<int>): Option<nat>
  {
    if d == [] || (exists i :: 0 <= i < |d| && !IsDigit(d[i])) then None
    else if DigitsValue(d) < U64_LIMIT then Some(DigitsValue(d)) else None
  }

  /** Unsigned integer parsing: an optional `+`, then at least one digit, in range. */
  function ParseUnsigned(text: seq<int>): Option<nat>
  {
    if text != [] && text[0] == 43 then ParseDigitRun(text[1..]) else ParseDigitRun(text)
  }

  lemma {:induction false} DigitsValueInverse(n: nat)
    ensures DigitsValue(Digits(n)) == n
  {
    if n >= 10 {
      DigitsValueInverse(n / 10);
      assert Digits(n)[..|Digits(n)| - 1] == Digits(n / 10);
    }
  }

  lemma ParseDigits(n: nat)
    ensures ParseUnsigned(Digits(n)) == if n < U64_LIMIT then Some(n) else None
  {
    DigitsValueInverse(n);
    assert IsDigit(Digits(n)[0]);
  }

  function Chars(d: bytes): (s: string)
    requires forall i :: 0 <= i < |d| ==> d[i] < 128
    ensures |s| == |d|
  {
    seq(|d|, i requires 0 <= i < |d| => d[i] as char)
  }

  function Codes(s: string): (c: seq<int>)
    ensures |c| == |s| && forall i :: 0 <= i < |s| ==> c[i] == s[i] as int
  {
    seq(|s|, i requires 0 <= i < |s| => s[i] as int)
  }

  /** The decimal text of `n`. */
  function Decimal(n: nat): (s: string)
    ensures s != []
  {
    Chars(Digits(n))
  }

  lemma DecimalParses(n: nat)
    ensures ParseUnsigned(Codes(Decimal(n))) == if n < U64_LIMIT then Some(n) else None
  {
    ParseDigits(n);
    assert Codes(Decimal(n)) == Digits(n);
  }

  lemma DecimalInjective(m: nat, n: nat)
    requires Decimal(m) == Decimal(n)
    ensures m == n
  {
    DigitsValueInverse(m);
    DigitsValueInverse(n);
    assert Digits(m) == Codes(Decimal(m));
    assert Digits(n) == Codes(Decimal(n));
  }

  // --------------------------------------------------------------- splitting

  /** The pieces between separators; always at least one. */
  function SplitOn<T(==)>(s: seq<T>, sep: T): (r: seq<seq<T>>)
    ensures r != []
    decreases |s|
  {
    if s == [] then [[]]
    else if s[0] == sep then [[]] + SplitOn(s[1..], sep)
    else var rest := SplitOn(s[1..], sep); [[s[0]] + rest[0]] + rest[1..]
  }

  lemma {:induction false} SplitConcat<T>(a: seq<T>, sep: T, b: seq<T>)
    ensures SplitOn(a + [sep] + b, sep) == SplitOn(a, sep) + SplitOn(b, sep)
    decreases |a|
  {
    var s := a + [sep] + b;
    if a == [] {
      assert s[1..] == b;
    } else {
      assert s[1..] == a[1..] + [sep] + b;
      SplitConcat(a[1..], sep, b);
      SplitStep(a, sep);
      SplitStep(s, sep);
    }
  }

  lemma SplitStep<T>(s: seq<T>, sep: T)
    requires s != []
    ensures var rest := SplitOn(s[1..], sep);
            SplitOn(s, sep) == if s[0] == sep then [[]] + rest else [[s[0]] + rest[0]] + rest[1..]
  {
  }

  lemma {:induction false} SplitOne<T>(piece: seq<T>, sep: T)
    requires sep !in piece
    ensures SplitOn(piece, sep) == [piece]
    decreases |piece|
  {
    if piece != [] {
      assert sep !in piece[1..] && piece[0] != sep;
      SplitOne(piece[1..], sep);
      assert [piece[0]] + piece[1..] == piece;
    }
  }

  /** The pieces hold only elements of the whole, and no separator. */
  lemma {:induction false} SplitPieces<T>(s: seq<T>, sep: T)
    ensures forall i, j :: 0 <= i < |SplitOn(s, sep)| && 0 <= j < |SplitOn(s, sep)[i]| ==>
              SplitOn(s, sep)[i][j] != sep && SplitOn(s, sep)[i][j] in s
    decreases |s|
  {
    if s != [] {
      SplitPieces(s[1..], sep);
      assert forall x :: x in s[1..] ==> x in s;
    }
  }
}
