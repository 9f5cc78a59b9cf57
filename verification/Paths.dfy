/** Lexical normalization, resolution and prefix matching of the paths in policy rules. */
module Paths {
  import opened Bytes
  import opened Text

  datatype Path = Path(absolute: bool, trailing: bool, segments: seq<string>)

  // ----------------------------------------------------------- normalization

  function Slashed(s: string): (r: string)
    ensures |r| == |s| && forall i :: 0 <= i < |s| ==> r[i] == if s[i] == '\\' then '/' else s[i]
  {
    seq(|s|, i requires 0 <= i < |s| => if s[i] == '\\' then '/' else s[i])
  }

  function Components(value: string): seq<string> { SplitOn(Slashed(Trim(value)), '/') }

  /** One component acting on the stack of segments; `..` is clamped at an absolute root. */
  function Step(absolute: bool, stack: seq<string>, component: string): seq<string>
  {
    if component == "" || component == "." then stack
    else if component != ".." then stack + [component]
    else if stack != [] && stack[|stack| - 1] != ".." then stack[..|stack| - 1]
    else if absolute then stack
    else stack + [".."]
  }

  function Walk(absolute: bool, stack: seq<string>, components: seq<string>): seq<string>
  {
    if components == [] then stack
    else Step(absolute, Walk(absolute, stack, components[..|components| - 1]), components[|components| - 1])
  }

  function Normalize(value: string): Path
  {
    var s := Slashed(Trim(value));
    var absolute := s != [] && s[0] == '/';
    Path(absolute, s != [] && s[|s| - 1] == '/', Walk(absolute, [], SplitOn(s, '/')))
  }

  method NormalizePathMatchValue(value: string) returns (p: Path)
    ensures p == Normalize(value)
  {
    hide Trim, Walk, SplitOn;
    var s := Slashed(Trim(value));
    var trailing := s != [] && s[|s| - 1] == '/';
    var absolute := s != [] && s[0] == '/';
    var components := SplitOn(s, '/');
    var segments: seq<string> := [];
    WalkBlank(absolute, []);
    for i := 0 to |components|
      invariant segments == Walk(absolute, [], components[..i])
    {
      var c := components[i];
      assert components[..i + 1] == components[..i] + [c];
      WalkSnoc(absolute, [], components[..i], c);
      if c == "" || c == "." { continue; }
      if c == ".." {
        if segments != [] && segments[|segments| - 1] != ".." {
          segments := segments[..|segments| - 1];
        } else if !absolute {
          segments := segments + [".."];
        }
      } else {
        segments := segments + [c];
      }
    }
    assert components[..|components|] == components;
    p := Path(absolute, trailing, segments);
  }

  // ------------------------------------------------------ the shape of results

  /** No separator of either kind. */
  predicate Clean(s: string) { '/' !in s && '\\' !in s }

  /** Real segments: clean, and neither empty nor `.`; `..` is one. */
  predicate Proper(segments: seq<string>)
  {
    forall i :: 0 <= i < |segments| ==> Clean(segments[i]) && segments[i] != "" && segments[i] != "."
  }

  /** `..` only as a leading run, and not at all under an absolute root. */
  predicate Reduced(absolute: bool, segments: seq<string>)
  {
    forall i :: 0 <= i < |segments| && segments[i] == ".." ==>
      !absolute && forall j :: 0 <= j <= i ==> segments[j] == ".."
  }

  predicate AllClean(components: seq<string>) { forall i :: 0 <= i < |components| ==> Clean(components[i]) }

  lemma {:induction false} WalkShape(absolute: bool, stack: seq<string>, components: seq<string>)
    requires Proper(stack) && Reduced(absolute, stack) && AllClean(components)
    ensures Proper(Walk(absolute, stack, components)) && Reduced(absolute, Walk(absolute, stack, components))
    decreases |components|
  {
    if components != [] {
      var front := components[..|components| - 1];
      WalkShape(absolute, stack, front);
      var s, c := Walk(absolute, stack, front), components[|components| - 1];
      assert Clean(c);
      if c == ".." && (s == [] || s[|s| - 1] == "..") && !absolute {
        assert forall j :: 0 <= j < |s| ==> s[j] == "..";
      }
    }
  }

  /** Normal forms are fixed by walking them again. */
  lemma {:induction false} WalkFixed(absolute: bool, segments: seq<string>)
    requires Proper(segments) && Reduced(absolute, segments)
    ensures Walk(absolute, [], segments) == segments
    decreases |segments|
  {
    if segments != [] {
      var front := segments[..|segments| - 1];
      WalkFixed(absolute, front);
      assert front + [segments[|segments| - 1]] == segments;
      if segments[|segments| - 1] == ".." && front != [] { assert segments[|front| - 1] == ".."; }
    }
  }

  lemma NormalizeShape(value: string)
    ensures AllClean(Components(value))
    ensures Proper(Normalize(value).segments) && Reduced(Normalize(value).absolute, Normalize(value).segments)
  {
    var s := Slashed(Trim(value));
    var c := Components(value);
    SplitPieces(s, '/');
    forall i | 0 <= i < |c| ensures Clean(c[i]) {
      forall j | 0 <= j < |c[i]| ensures c[i][j] != '/' && c[i][j] != '\\' {
        var k :| 0 <= k < |s| && s[k] == c[i][j];
      }
    }
    WalkShape(Normalize(value).absolute, [], c);
  }

  // ------------------------------------------------------------ stack action

  lemma {:induction false} WalkConcat(absolute: bool, stack: seq<string>, a: seq<string>, b: seq<string>)
    ensures Walk(absolute, stack, a + b) == Walk(absolute, Walk(absolute, stack, a), b)
    decreases |b|
  {
    if b == [] {
      assert a + b == a;
    } else {
      assert (a + b)[..|a + b| - 1] == a + b[..|b| - 1];
      WalkConcat(absolute, stack, a, b[..|b| - 1]);
    }
  }

  lemma WalkSnoc(absolute: bool, stack: seq<string>, a: seq<string>, c: string)
    ensures Walk(absolute, stack, a + [c]) == Step(absolute, Walk(absolute, stack, a), c)
  {
    assert (a + [c])[..|a|] == a;
  }

  /** Empty components do nothing. */
  lemma WalkBlank(absolute: bool, components: seq<string>)
    ensures Walk(absolute, [], components + [""]) == Walk(absolute, [], components)
    ensures Walk(absolute, [], [""] + components) == Walk(absolute, [], components)
    ensures Walk(absolute, [], [""]) == Walk(absolute, [], []) == []
  {
    WalkSnoc(absolute, [], components, "");
    WalkSnoc(absolute, [], [], "");
    assert [] + [""] == [""];
    WalkConcat(absolute, [], [""], components);
  }

  /** Relative components act on any stack as their normal form does. */
  lemma {:induction false} WalkNormalForm(absolute: bool, stack: seq<string>, components: seq<string>)
    requires AllClean(components)
    ensures Walk(absolute, stack, Walk(false, [], components)) == Walk(absolute, stack, components)
    decreases |components|
  {
    if components != [] {
      var front, c := components[..|components| - 1], components[|components| - 1];
      WalkNormalForm(absolute, stack, front);
      WalkShape(false, [], front);
      var n := Walk(false, [], front);
      assert Walk(false, [], components) == Step(false, n, c);
      if c == ".." && n != [] && n[|n| - 1] != ".." {
        var init, x := n[..|n| - 1], n[|n| - 1];
        assert n == init + [x];
        WalkSnoc(absolute, stack, init, x);
        var w := Walk(absolute, stack, init);
        assert (w + [x])[..|w|] == w;
      } else {
        WalkSnoc(absolute, stack, n, c);
      }
    }
  }

  // --------------------------------------------------------------- rendering

  function Join(segments: seq<string>): string
  {
    if segments == [] then "" else if |segments| == 1 then segments[0] else segments[0] + "/" + Join(segments[1..])
  }

  function Rendered(p: Path): string
  {
    if p.absolute then "/" + Join(p.segments) else Join(p.segments)
  }

  lemma {:induction false} JoinSnoc(q: seq<string>, x: string)
    requires q != []
    ensures Join(q + [x]) == Join(q) + "/" + x
  {
    if |q| == 1 {
      assert (q + [x])[1..] == [x];
    } else {
      assert (q + [x])[1..] == q[1..] + [x];
      JoinSnoc(q[1..], x);
    }
  }

  lemma {:induction false} JoinConcat(a: seq<string>, b: seq<string>)
    requires a != [] && b != []
    ensures Join(a + b) == Join(a) + "/" + Join(b)
  {
    if |a| == 1 {
      assert (a + b)[1..] == b;
    } else {
      assert (a + b)[1..] == a[1..] + b;
      JoinConcat(a[1..], b);
    }
  }

  lemma {:induction false} SplitJoin(q: seq<string>)
    requires AllClean(q) && q != []
    ensures SplitOn(Join(q), '/') == q
    decreases |q|
  {
    SplitOne(q[0], '/');
    if |q| > 1 {
      SplitConcat(q[0], '/', Join(q[1..]));
      SplitJoin(q[1..]);
    }
  }

  lemma {:induction false} JoinPlain(q: seq<string>)
    requires Proper(q)
    ensures '\\' !in Join(q) && (q == [] ==> Join(q) == []) &&
            (q != [] ==> Join(q) != [] && Join(q)[0] != '/' && Join(q)[|Join(q)| - 1] != '/')
    decreases |q|
  {
    if |q| > 1 { JoinPlain(q[1..]); }
  }

  // -------------------------------------------------------------- resolution

  /** Appending a path to a path buffer. */
  function PushPath(base: string, p: string): string
  {
    if p != [] && p[0] == '/' then p
    else if base != [] && base[|base| - 1] != '/' then base + "/" + p
    else base + p
  }

  function ResolvedAgainst(p: Path, base: Path): Path
  {
    if p.absolute then p else Normalize(PushPath(Rendered(base), Join(p.segments)))
  }

  // ---------------------------------------------------------------- matching

  /** Lower-casing works on each segment by itself and keeps segments apart. */
  ghost predicate Casing(lower: string -> string)
  {
    && (forall a, b :: lower(a + "/" + b) == lower(a) + "/" + lower(b))
    && (forall a :: '/' !in a ==> '/' !in lower(a))
    && (forall a :: lower(a) == [] <==> a == [])
  }

  function PrefixMatches(lower: string -> string, candidate: string, prefix: string, boundary: bool): bool
  {
    if prefix == [] then false
    else
      var c, p := lower(candidate), lower(prefix);
      if boundary then c == p || (p <= c && c[|p|..] != [] && c[|p|] == '/') else p <= c
  }

  function Matches(lower: string -> string, p: Path, prefix: Path): bool
  {
    var wanted := Join(prefix.segments);
    if wanted == [] then false
    else if prefix.absolute then p.absolute && PrefixMatches(lower, Rendered(p), Rendered(prefix), prefix.trailing)
    else if p.absolute then
      exists i :: 0 <= i < |p.segments| && PrefixMatches(lower, Join(p.segments[i..]), wanted, prefix.trailing)
    else PrefixMatches(lower, Join(p.segments), wanted, prefix.trailing)
  }

  function Lowered(lower: string -> string, q: seq<string>): (r: seq<string>)
    ensures |r| == |q| && forall i :: 0 <= i < |q| ==> r[i] == lower(q[i])
  {
    seq(|q|, i requires 0 <= i < |q| => lower(q[i]))
  }

  /**
   * Segment by segment: with a boundary the prefix segments must equal the first candidate
   * segments; without one the last prefix segment need only begin its counterpart.
   */
  predicate SegmentsMatch(candidate: seq<string>, prefix: seq<string>, boundary: bool)
    requires prefix != []
  {
    var n := |prefix|;
    && n <= |candidate| && candidate[..n - 1] == prefix[..n - 1]
    && if boundary then candidate[n - 1] == prefix[n - 1] else prefix[n - 1] <= candidate[n - 1]
  }

  predicate Apart(q: seq<string>) { forall i :: 0 <= i < |q| ==> '/' !in q[i] && q[i] != [] }

  lemma {:induction false} JoinLowered(lower: string -> string, q: seq<string>)
    requires Casing(lower)
    ensures lower(Join(q)) == Join(Lowered(lower, q))
  {
    if |q| > 1 {
      JoinLowered(lower, q[1..]);
      assert Lowered(lower, q)[1..] == Lowered(lower, q[1..]);
    }
  }

  /** Without its head, a joined sequence keeps its prefix relation. */
  lemma HeadPrefix(p: string, s: string, c: string, t: string)
    requires '/' !in p && '/' !in c
    ensures p + "/" + s <= c + "/" + t <==> p == c && s <= t
    ensures p <= c + "/" + t <==> p <= c
    ensures !(p + "/" + s <= c)
  {
    var a, b := p + "/" + s, c + "/" + t;
    assert a[|p|] == '/' && b[|c|] == '/';
    if a <= b {
      assert b[|p|] == '/' && forall i :: 0 <= i < |p| ==> b[i] == p[i];
      assert |p| == |c|;
      assert p == b[..|p|] == c;
      assert s == a[|p| + 1..] && t == b[|p| + 1..];
    }
    if p == c && s <= t { assert b == a + t[|s|..]; }
    if p <= b {
      assert forall i :: 0 <= i < |p| ==> p[i] == b[i];
      assert |p| <= |c|;
      assert forall i :: 0 <= i < |p| ==> b[i] == c[i];
    }
    if |a| <= |c| { assert a[|p|] != c[|p|]; }
  }

  lemma {:induction false} JoinPrefix(candidate: seq<string>, prefix: seq<string>)
    requires Apart(candidate) && Apart(prefix) && prefix != []
    ensures Join(prefix) <= Join(candidate) <==> SegmentsMatch(candidate, prefix, false)
    ensures Join(prefix) + "/" <= Join(candidate) <==> SegmentsMatch(candidate, prefix, true) && |prefix| < |candidate|
    decreases |prefix|
  {
    hide Join;
    var p, c := prefix, candidate;
    JoinCases(p);
    JoinCases(c);
    if c != [] {
      if |p| == 1 {
        HeadPrefix(p[0], "", c[0], if |c| > 1 then Join(c[1..]) else "");
        assert p[0] + "/" == p[0] + "/" + "";
      } else if |c| == 1 {
        HeadPrefix(p[0], Join(p[1..]), c[0], "");
        HeadPrefix(p[0], Join(p[1..]) + "/", c[0], "");
        assert Join(p) + "/" == p[0] + "/" + (Join(p[1..]) + "/");
      } else {
        HeadPrefix(p[0], Join(p[1..]), c[0], Join(c[1..]));
        HeadPrefix(p[0], Join(p[1..]) + "/", c[0], Join(c[1..]));
        assert Join(p) + "/" == p[0] + "/" + (Join(p[1..]) + "/");
        JoinPrefix(c[1..], p[1..]);
        MatchHead(c, p, false);
        MatchHead(c, p, true);
      }
    }
  }

  lemma JoinCases(q: seq<string>)
    ensures Join(q) == if q == [] then "" else if |q| == 1 then q[0] else q[0] + "/" + Join(q[1..])
  {
  }

  lemma MatchHead(c: seq<string>, p: seq<string>, boundary: bool)
    requires |p| > 1 && |c| > 1
    ensures SegmentsMatch(c, p, boundary) <==> c[0] == p[0] && SegmentsMatch(c[1..], p[1..], boundary)
  {
    var n := |p|;
    if n <= |c| {
      assert c[..n - 1] == [c[0]] + c[1..][..n - 2];
      assert p[..n - 1] == [p[0]] + p[1..][..n - 2];
    }
  }

  lemma {:induction false} JoinInjective(a: seq<string>, b: seq<string>)
    requires Apart(a) && Apart(b) && a != [] && Join(a) == Join(b)
    ensures a == b
  {
    hide Join, SegmentsMatch;
    JoinPrefix(b, a);
    JoinCases(b);
    JoinCases(a);
    if b == [] { ApartNonEmpty(a); }
    JoinPrefix(a, b);
    MutualMatch(a, b);
  }

  lemma ApartNonEmpty(a: seq<string>)
    requires Apart(a) && a != []
    ensures Join(a) != []
  {
  }

  lemma MutualMatch(a: seq<string>, b: seq<string>)
    requires a != [] && b != [] && SegmentsMatch(a, b, false) && SegmentsMatch(b, a, false)
    ensures a == b
  {
    var n := |a|;
    assert |b| == n && a[n - 1] == a[n - 1][..|b[n - 1]|] == b[n - 1];
    assert a == a[..n - 1] + [a[n - 1]] && b == b[..n - 1] + [b[n - 1]];
  }

  /** The string comparison on joined text decides the segment relation. */
  lemma PrefixMatchesMeans(lower: string -> string, candidate: seq<string>, prefix: seq<string>, boundary: bool)
    requires Casing(lower) && Proper(candidate) && Proper(prefix) && prefix != []
    ensures PrefixMatches(lower, Join(candidate), Join(prefix), boundary) <==>
              SegmentsMatch(Lowered(lower, candidate), Lowered(lower, prefix), boundary)
  {
    hide Join, SegmentsMatch;
    JoinLowered(lower, candidate);
    JoinLowered(lower, prefix);
    var c, p := Lowered(lower, candidate), Lowered(lower, prefix);
    ProperApart(lower, candidate);
    ProperApart(lower, prefix);
    JoinPlain(prefix);
    JoinPrefix(c, p);
    BoundaryMatches(c, p);
    BoundaryText(Join(c), Join(p));
  }

  lemma ProperApart(lower: string -> string, q: seq<string>)
    requires Casing(lower) && Proper(q)
    ensures Apart(Lowered(lower, q))
  {
  }

  lemma BoundaryText(c: string, p: string)
    ensures p <= c && c[|p|..] != [] && c[|p|] == '/' <==> p + "/" <= c
  {
    if p <= c && c[|p|..] != [] && c[|p|] == '/' { assert c[..|p| + 1] == p + "/"; }
    if p + "/" <= c { assert (p + "/")[|p|] == '/' && c[..|p| + 1] == p + "/" && c[..|p|] == p; }
  }

  lemma BoundaryMatches(c: seq<string>, p: seq<string>)
    requires Apart(c) && Apart(p) && p != []
    ensures Join(c) == Join(p) || Join(p) + "/" <= Join(c) <==> SegmentsMatch(c, p, true)
  {
    hide Join;
    JoinPrefix(c, p);
    if Join(c) == Join(p) { JoinInjective(p, c); }
    if SegmentsMatch(c, p, true) && |c| == |p| {
      var n := |p|;
      assert c == c[..n - 1] + [c[n - 1]] && p == p[..n - 1] + [p[n - 1]];
    }
  }

  /**
   * A rule's path prefix, against any normalized path: an absolute prefix matches absolute paths
   * whose leading segments it names; a relative one matches the leading segments of a relative
   * path, or a run of segments anywhere in an absolute path. Case is ignored throughout.
   */
  lemma MatchesMeans(lower: string -> string, p: Path, prefix: Path)
    requires Casing(lower) && Proper(p.segments) && Proper(prefix.segments)
    ensures Matches(lower, p, prefix) <==>
              && prefix.segments != []
              && var c, w := Lowered(lower, p.segments), Lowered(lower, prefix.segments);
              if prefix.absolute then p.absolute && SegmentsMatch(c, w, prefix.trailing)
              else if p.absolute then exists i :: 0 <= i < |c| && SegmentsMatch(c[i..], w, prefix.trailing)
              else SegmentsMatch(c, w, prefix.trailing)
  {
    hide Join, SegmentsMatch, PrefixMatches;
    JoinPlain(prefix.segments);
    if prefix.segments != [] {
      var c, w := Lowered(lower, p.segments), Lowered(lower, prefix.segments);
      PrefixMatchesMeans(lower, p.segments, prefix.segments, prefix.trailing);
      if prefix.absolute && p.absolute {
        RootedMatches(lower, Join(p.segments), Join(prefix.segments), prefix.trailing);
      }
      forall i | 0 <= i < |c|
        ensures PrefixMatches(lower, Join(p.segments[i..]), Join(prefix.segments), prefix.trailing) <==>
                SegmentsMatch(c[i..], w, prefix.trailing)
      {
        PrefixMatchesMeans(lower, p.segments[i..], prefix.segments, prefix.trailing);
        assert Lowered(lower, p.segments[i..]) == c[i..];
      }
    }
  }

  /** A common leading separator does not matter. */
  lemma RootedMatches(lower: string -> string, c: string, p: string, boundary: bool)
    requires Casing(lower) && p != []
    ensures PrefixMatches(lower, "/" + c, "/" + p, boundary) <==> PrefixMatches(lower, c, p, boundary)
  {
    assert "/" + c == "" + "/" + c && "/" + p == "" + "/" + p;
    assert lower("" + "/" + c) == lower("") + "/" + lower(c) && lower("" + "/" + p) == lower("") + "/" + lower(p);
    var lc, lp := lower(c), lower(p);
    assert lower("/" + c) == "/" + lc && lower("/" + p) == "/" + lp;
    assert ("/" + lc)[1..] == lc && ("/" + lp)[1..] == lp;
    assert "/" + lp <= "/" + lc <==> lp <= lc by {
      if lp <= lc { assert "/" + lc == "/" + lp + lc[|lp|..]; }
      if "/" + lp <= "/" + lc {
        assert forall i :: 0 <= i < |lp| ==> lp[i] == ("/" + lp)[i + 1] == ("/" + lc)[i + 1] == lc[i];
      }
    }
    if lp <= lc { assert ("/" + lc)[|lp| + 1..] == lc[|lp|..]; }
  }

  // ---------------------------------------------------------- rule arguments

  /** A JSON argument value as far as path matching looks at it. */
  datatype Value = Str(text: string) | Arr(items: seq<Value>) | Other

  type Arguments = map<string, Value>

  const PATH_KEYS: seq<string> := ["path", "paths", "directory", "cwd", "namespace_path"]
  const BASE_PATH_KEYS: seq<string> := ["directory", "cwd"]

  /** The strings of a list, other values skipped. */
  function Strings(items: seq<Value>): seq<string>
  {
    if items == [] then []
    else Strings(items[..|items| - 1]) + match items[|items| - 1] case Str(s) => [s] case _ => []
  }

  function PathsAt(arguments: Arguments, key: string): seq<string>
  {
    if key !in arguments then []
    else match arguments[key]
      case Str(s) => [s]
      case Arr(items) => Strings(items)
      case Other => []
  }

  function PathValues(arguments: Arguments, keys: seq<string>): seq<string>
  {
    if keys == [] then [] else PathValues(arguments, keys[..|keys| - 1]) + PathsAt(arguments, keys[|keys| - 1])
  }

  method CollectPathValues(arguments: Arguments, keys: seq<string>) returns (values: seq<string>)
    ensures values == PathValues(arguments, keys)
  {
    values := [];
    for k := 0 to |keys|
      invariant values == PathValues(arguments, keys[..k])
    {
      assert keys[..k + 1][..k] == keys[..k];
      if keys[k] !in arguments { continue; }
      match arguments[keys[k]] {
        case Str(s) => { values := values + [s]; }
        case Arr(items) => {
          ghost var before := values;
          for i := 0 to |items|
            invariant values == before + Strings(items[..i])
          {
            assert items[..i + 1][..i] == items[..i];
            match items[i] {
              case Str(s) => { values := values + [s]; }
              case _ => {}
            }
          }
          assert items[..|items|] == items;
        }
        case Other => {}
      }
    }
    assert keys[..|keys|] == keys;
  }

  function NormalizeAll(values: seq<string>): (r: seq<Path>)
    ensures |r| == |values| && forall i :: 0 <= i < |r| ==> r[i] == Normalize(values[i])
  {
    seq(|values|, i requires 0 <= i < |values| => Normalize(values[i]))
  }

  /** The bases a relative path is also tried against: directory arguments, then the current directory. */
  function BaseTexts(arguments: Arguments, cwd: Option<string>): seq<string>
  {
    PathValues(arguments, BASE_PATH_KEYS) + match cwd case None => [] case Some(d) => [d]
  }

  /** The argument is the text, or a list that holds it. */
  predicate HasText(arguments: Arguments, key: string, text: string)
  {
    key in arguments &&
    (arguments[key] == Str(text) || (arguments[key].Arr? && Str(text) in arguments[key].items))
  }

  predicate IsPathText(arguments: Arguments, text: string)
  {
    || HasText(arguments, "path", text) || HasText(arguments, "paths", text) || HasText(arguments, "directory", text)
    || HasText(arguments, "cwd", text) || HasText(arguments, "namespace_path", text)
  }

  predicate IsBaseText(arguments: Arguments, cwd: Option<string>, text: string)
  {
    HasText(arguments, "directory", text) || HasText(arguments, "cwd", text) || cwd == Some(text)
  }

  ghost predicate ResolvedSomewhere(arguments: Arguments, cwd: Option<string>, p: Path, c: Path)
  {
    exists base :: IsBaseText(arguments, cwd, base) && c == ResolvedAgainst(p, Normalize(base))
  }

  /** Each path as given, and each relative path against each base. */
  ghost predicate IsCandidate(arguments: Arguments, cwd: Option<string>, c: Path)
  {
    exists text :: IsPathText(arguments, text) &&
      (c == Normalize(text) || (!Normalize(text).absolute && ResolvedSomewhere(arguments, cwd, Normalize(text), c)))
  }

  lemma {:induction false} StringsMembers(items: seq<Value>, text: string)
    ensures text in Strings(items) <==> Str(text) in items
    decreases |items|
  {
    if items != [] {
      StringsMembers(items[..|items| - 1], text);
      assert items == items[..|items| - 1] + [items[|items| - 1]];
    }
  }

  /** What is collected is exactly what some key's value holds. */
  lemma {:induction false} PathValuesMembers(arguments: Arguments, keys: seq<string>, text: string)
    ensures text in PathValues(arguments, keys) <==> exists k :: 0 <= k < |keys| && HasText(arguments, keys[k], text)
    decreases |keys|
  {
    if keys != [] {
      var front, last := keys[..|keys| - 1], keys[|keys| - 1];
      PathValuesMembers(arguments, front, text);
      assert forall k :: 0 <= k < |front| ==> front[k] == keys[k];
      if last in arguments && arguments[last].Arr? { StringsMembers(arguments[last].items, text); }
      assert text in PathsAt(arguments, last) <==> HasText(arguments, last, text);
    }
  }

  lemma PathKeys(arguments: Arguments, cwd: Option<string>, text: string)
    ensures text in PathValues(arguments, PATH_KEYS) <==> IsPathText(arguments, text)
    ensures text in BaseTexts(arguments, cwd) <==> IsBaseText(arguments, cwd, text)
  {
    hide PathValues, HasText;
    PathValuesMembers(arguments, PATH_KEYS, text);
    PathValuesMembers(arguments, BASE_PATH_KEYS, text);
    assert PATH_KEYS[0] == "path" && PATH_KEYS[1] == "paths" && PATH_KEYS[2] == "directory" && PATH_KEYS[3] == "cwd"
           && PATH_KEYS[4] == "namespace_path" && BASE_PATH_KEYS[0] == "directory" && BASE_PATH_KEYS[1] == "cwd";
  }

  /** The part of the candidates that the relative paths among `values` contribute. */
  function ResolvedAll(values: seq<Path>, bases: seq<Path>): seq<Path>
  {
    if values == [] then []
    else
      var p := values[|values| - 1];
      ResolvedAll(values[..|values| - 1], bases) + if p.absolute then [] else Against(p, bases)
  }

  function Against(p: Path, bases: seq<Path>): seq<Path>
  {
    seq(|bases|, j requires 0 <= j < |bases| => ResolvedAgainst(p, bases[j]))
  }

  method CollectPathCandidates(arguments: Arguments, cwd: Option<string>) returns (candidates: seq<Path>)
    ensures forall c :: c in candidates <==> IsCandidate(arguments, cwd, c)
  {
    hide Normalize, ResolvedAgainst, PathValues;
    var raw := CollectPathValues(arguments, PATH_KEYS);
    candidates := NormalizeAll(raw);
    var baseValues := CollectPathValues(arguments, BASE_PATH_KEYS);
    match cwd {
      case Some(d) => { baseValues := baseValues + [d]; }
      case None => {}
    }
    var bases := NormalizeAll(baseValues);
    assert baseValues == BaseTexts(arguments, cwd);
    var values := candidates;
    for i := 0 to |raw|
      invariant candidates == values + ResolvedAll(values[..i], bases)
    {
      assert values[..i + 1][..i] == values[..i];
      var p := values[i];
      if p.absolute { continue; }
      ghost var before := candidates;
      for j := 0 to |bases|
        invariant candidates == before + Against(p, bases)[..j]
      {
        candidates := candidates + [ResolvedAgainst(p, bases[j])];
      }
      assert Against(p, bases)[..|bases|] == Against(p, bases);
    }
    assert values[..|raw|] == values;
    forall c ensures c in candidates <==> IsCandidate(arguments, cwd, c) {
      ResolvedAllMembers(values, bases, c);
      CandidateCases(arguments, cwd, raw, values, bases, c);
    }
  }

  lemma {:induction false} ResolvedAllMembers(values: seq<Path>, bases: seq<Path>, c: Path)
    ensures c in ResolvedAll(values, bases) <==>
            exists i :: 0 <= i < |values| && !values[i].absolute && c in Against(values[i], bases)
  {
    hide Against;
    if values != [] {
      var front := values[..|values| - 1];
      ResolvedAllMembers(front, bases, c);
      assert forall i :: 0 <= i < |front| ==> front[i] == values[i];
    }
  }

  lemma CandidateCases(
      arguments: Arguments, cwd: Option<string>, raw: seq<string>, values: seq<Path>, bases: seq<Path>, c: Path)
    requires raw == PathValues(arguments, PATH_KEYS) && values == NormalizeAll(raw) &&
             bases == NormalizeAll(BaseTexts(arguments, cwd))
    ensures IsCandidate(arguments, cwd, c) <==>
              c in values || exists i :: 0 <= i < |values| && !values[i].absolute && c in Against(values[i], bases)
  {
    hide Normalize, ResolvedAgainst, PathValues, BaseTexts, IsPathText, IsBaseText;
    var texts := BaseTexts(arguments, cwd);
    forall text
      ensures text in raw <==> IsPathText(arguments, text)
      ensures text in texts <==> IsBaseText(arguments, cwd, text)
    {
      PathKeys(arguments, cwd, text);
    }
    forall i | 0 <= i < |values|
      ensures c in Against(values[i], bases) <==> ResolvedSomewhere(arguments, cwd, values[i], c)
    {
      assert forall j :: 0 <= j < |bases| ==> Against(values[i], bases)[j] == ResolvedAgainst(values[i], bases[j]);
      assert forall j :: 0 <= j < |bases| ==> texts[j] in texts && bases[j] == Normalize(texts[j]);
    }
    assert forall i :: 0 <= i < |values| ==> raw[i] in raw && values[i] == Normalize(raw[i]);
  }

  /** A rule applies iff some candidate matches its prefix. */
  method ArgumentsMatchPathPrefix(
      lower: string -> string, arguments: Option<Arguments>, prefix: string, cwd: Option<string>)
    returns (r: bool)
    ensures r <==>
            arguments.Some? && exists c :: IsCandidate(arguments.value, cwd, c) && Matches(lower, c, Normalize(prefix))
  {
    hide Normalize, Matches, IsCandidate;
    if arguments.None? { return false; }
    var wanted := NormalizePathMatchValue(prefix);
    var candidates := CollectPathCandidates(arguments.value, cwd);
    r := exists i :: 0 <= i < |candidates| && Matches(lower, candidates[i], wanted);
    if r {
      var i :| 0 <= i < |candidates| && Matches(lower, candidates[i], wanted);
      assert candidates[i] in candidates;
    }
  }
}
