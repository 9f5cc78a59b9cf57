/** Unicode white space and trimming. */
module Text {
  /** The code points with the Unicode `White_Space` property. */
  predicate IsWhite(c: char)
  {
    var n := c as int;
    || 0x09 <= n <= 0x0D || n == 0x20 || n == 0x85 || n == 0xA0 || n == 0x1680
    || 0x2000 <= n <= 0x200A || n == 0x2028 || n == 0x2029 || n == 0x202F || n == 0x205F || n == 0x3000
  }

  function TrimStart(s: string): string
  {
    if s != [] && IsWhite(s[0]) then TrimStart(s[1..]) else s
  }

  function TrimEnd(s: string): string
  {
    if s != [] && IsWhite(s[|s| - 1]) then TrimEnd(s[..|s| - 1]) else s
  }

  function Trim(s: string): string { TrimEnd(TrimStart(s)) }

  /** No white space at either end. */
  predicate Tight(s: string) { s != [] ==> !IsWhite(s[0]) && !IsWhite(s[|s| - 1]) }

  lemma {:induction false} TrimEndTight(s: string)
    ensures TrimEnd(s) <= s && (TrimEnd(s) != [] ==> !IsWhite(TrimEnd(s)[|TrimEnd(s)| - 1]))
    decreases |s|
  {
    if s != [] && IsWhite(s[|s| - 1]) { TrimEndTight(s[..|s| - 1]); }
  }

  lemma {:induction false} TrimStartTight(s: string)
    ensures TrimStart(s) != [] ==> !IsWhite(TrimStart(s)[0])
    decreases |s|
  {
    if s != [] && IsWhite(s[0]) { TrimStartTight(s[1..]); }
  }

  /** Trimming removes exactly the white space at the ends. */
  lemma TrimTight(s: string)
    ensures Tight(Trim(s)) && (Tight(s) ==> Trim(s) == s)
  {
    TrimStartTight(s);
    TrimEndTight(TrimStart(s));
  }

  predicate AllWhite(s: string) { forall i :: 0 <= i < |s| ==> IsWhite(s[i]) }

  lemma {:induction false} TrimStartSplits(s: string)
    ensures |TrimStart(s)| <= |s| && TrimStart(s) == s[|s| - |TrimStart(s)|..]
    ensures AllWhite(s[..|s| - |TrimStart(s)|])
    decreases |s|
  {
    if s != [] && IsWhite(s[0]) {
      TrimStartSplits(s[1..]);
      var n := |s[1..]| - |TrimStart(s[1..])|;
      assert s[..n + 1] == [s[0]] + s[1..][..n];
    }
  }

  lemma {:induction false} TrimEndSplits(s: string)
    ensures TrimEnd(s) <= s && AllWhite(s[|TrimEnd(s)|..])
    decreases |s|
  {
    if s != [] && IsWhite(s[|s| - 1]) {
      var t := s[..|s| - 1];
      TrimEndSplits(t);
      assert s[|TrimEnd(t)|..] == t[|TrimEnd(t)|..] + [s[|s| - 1]];
    }
  }

  /** Trimming takes only white space away, from the two ends. */
  lemma TrimSplits(s: string) returns (before: string, after: string)
    ensures s == before + Trim(s) + after && AllWhite(before) && AllWhite(after) && Tight(Trim(s))
  {
    hide TrimStart, TrimEnd, IsWhite;
    var mid := TrimStart(s);
    TrimStartSplits(s);
    TrimEndSplits(mid);
    TrimTight(s);
    before, after := s[..|s| - |mid|], mid[|Trim(s)|..];
    assert mid == Trim(s) + after;
    assert s == before + mid;
  }
}
