/**
 * When resolving a path lexically is right. Resolution renders the segments, and normalizing the
 * rendered text trims it again, so white space at its ends matters.
 */
module PathResolution {
  import opened Bytes
  import opened Text
  import opened Paths

  // ------------------------------------------------------------ trimmed text

  function TrimFirst(q: seq<string>): (r: seq<string>)
    requires q != []
    ensures |r| == |q|
  {
    [TrimStart(q[0])] + q[1..]
  }

  function TrimLast(q: seq<string>): (r: seq<string>)
    requires q != []
    ensures |r| == |q|
  {
    q[..|q| - 1] + [TrimEnd(q[|q| - 1])]
  }

  lemma {:induction false} TrimEndAfterSlash(a: string, x: string)
    ensures TrimEnd(a + "/" + x) == a + "/" + TrimEnd(x)
    decreases |x|
  {
    var s := a + "/" + x;
    if x == [] {
      assert s[|s| - 1] == '/';
    } else {
      assert s[|s| - 1] == x[|x| - 1] && s[..|s| - 1] == a + "/" + x[..|x| - 1];
      if IsWhite(x[|x| - 1]) { TrimEndAfterSlash(a, x[..|x| - 1]); }
    }
  }

  lemma {:induction false} TrimStartBeforeSlash(x: string, a: string)
    ensures TrimStart(x + "/" + a) == TrimStart(x) + "/" + a
    decreases |x|
  {
    var s := x + "/" + a;
    if x == [] {
      assert s[0] == '/';
    } else {
      assert s[0] == x[0] && s[1..] == x[1..] + "/" + a;
      if IsWhite(x[0]) { TrimStartBeforeSlash(x[1..], a); }
    }
  }

  /** Trimming joined components trims the first and the last of them. */
  lemma TrimJoin(q: seq<string>)
    requires q != []
    ensures Trim(Join(q)) == Join(TrimLast(TrimFirst(q)))
  {
    hide TrimStart, TrimEnd;
    TrimStartJoin(q);
    TrimEndJoin(TrimFirst(q));
  }

  lemma TrimStartJoin(q: seq<string>)
    requires q != []
    ensures TrimStart(Join(q)) == Join(TrimFirst(q))
  {
    hide TrimStart;
    if |q| > 1 {
      TrimStartBeforeSlash(q[0], Join(q[1..]));
      assert TrimFirst(q)[1..] == q[1..];
    }
  }

  lemma TrimEndJoin(q: seq<string>)
    requires q != []
    ensures TrimEnd(Join(q)) == Join(TrimLast(q))
  {
    hide TrimEnd, Join;
    var init, x := q[..|q| - 1], q[|q| - 1];
    assert q == init + [x];
    if init == [] {
      JoinCases(q);
      JoinCases(TrimLast(q));
    } else {
      JoinSnoc(init, x);
      JoinSnoc(init, TrimEnd(x));
      TrimEndAfterSlash(Join(init), x);
    }
  }

  predicate Rooted(q: seq<string>) { |q| >= 2 && q[0] == "" }

  /** Normalizing joined components walks the trimmed ones. */
  lemma NormalizeJoin(q: seq<string>)
    requires AllClean(q) && q != []
    ensures var t, n := TrimLast(TrimFirst(q)), Normalize(Join(q));
            n.absolute == Rooted(t) && n.segments == Walk(Rooted(t), [], t)
  {
    hide Trim, Walk, Join;
    var t := TrimLast(TrimFirst(q));
    TrimJoin(q);
    TrimmedClean(q);
    SplitJoin(t);
    JoinStart(t);
    assert Slashed(Join(t)) == Join(t);
  }

  lemma TrimmedClean(q: seq<string>)
    requires AllClean(q) && q != []
    ensures AllClean(TrimLast(TrimFirst(q)))
  {
    TrimStartWithin(q[0]);
    var f := TrimFirst(q);
    assert AllClean(f);
    TrimEndTight(f[|f| - 1]);
  }

  lemma {:induction false} TrimStartWithin(s: string)
    ensures forall i :: 0 <= i < |TrimStart(s)| ==> TrimStart(s)[i] in s
    ensures |TrimStart(s)| <= |s| && (|TrimStart(s)| == |s| ==> TrimStart(s) == s)
    decreases |s|
  {
    if s != [] && IsWhite(s[0]) { TrimStartWithin(s[1..]); }
  }

  lemma {:induction false} JoinStart(q: seq<string>)
    requires AllClean(q) && q != []
    ensures '\\' !in Join(q) && (Join(q) != [] && Join(q)[0] == '/' <==> Rooted(q))
    decreases |q|
  {
    if |q| > 1 {
      JoinStart(q[1..]);
      assert Join(q) == q[0] + "/" + Join(q[1..]);
      if q[0] != [] { assert Join(q)[0] == q[0][0] && q[0][0] in q[0]; }
    } else if q[0] != [] {
      assert q[0][0] in q[0];
    }
  }

  // ---------------------------------------------------- what gets normalized

  /** The components of the text that resolution normalizes; blank ones stand for separators at its ends. */
  function Parts(p: Path, base: Path): seq<string>
  {
    (if base.absolute then [""] else []) + (base.segments + p.segments)
    + if p.segments == [] && (base.absolute || base.segments != []) then [""] else []
  }

  lemma RelativeText(b: seq<string>, q: seq<string>)
    requires Proper(b) && Proper(q)
    ensures PushPath(Join(b), Join(q)) == Join(if q == [] && b != [] then b + [""] else b + q)
  {
    hide Join, Proper;
    JoinPlain(q);
    JoinPlain(b);
    if q == [] {
      assert b + q == b;
      if b != [] { JoinSnoc(b, ""); }
    } else if b == [] {
      assert b + q == q;
    } else {
      JoinConcat(b, q);
    }
  }

  /** A leading separator stays in front. */
  lemma RootedText(b: string, q: string)
    requires (q == [] || q[0] != '/') && (b == [] || b[|b| - 1] != '/')
    ensures PushPath("/" + b, q) == "/" + PushPath(b, q)
  {
    if b == [] {
      assert "/" + b == "/" && b + q == q;
    } else {
      assert ("/" + b)[|b|] == b[|b| - 1];
      assert "/" + b + "/" + q == "/" + (b + "/" + q);
    }
  }

  lemma TextIsJoin(p: Path, base: Path)
    requires Proper(p.segments) && Proper(base.segments)
    ensures PushPath(Rendered(base), Join(p.segments)) == Join(Parts(p, base))
  {
    hide Join, PushPath, Proper;
    var b, q := base.segments, p.segments;
    RelativeText(b, q);
    JoinPlain(b);
    JoinPlain(q);
    RootedText(Join(b), Join(q));
    var whole := if q == [] && b != [] then b + [""] else b + q;
    if !base.absolute {
      assert Parts(p, base) == whole;
    } else if b == [] && q == [] {
      assert Parts(p, base) == ["", ""] && ["", ""][1..] == [""];
      JoinCases(["", ""]);
      JoinCases([""]);
      JoinCases(whole);
    } else {
      assert Parts(p, base) == [""] + whole && ([""] + whole)[1..] == whole;
      JoinCases([""] + whole);
    }
  }

  /** Empty parts do nothing, so untrimmed they walk where the base and the path lead. */
  lemma PartsWalk(p: Path, base: Path)
    requires Proper(base.segments) && Reduced(base.absolute, base.segments)
    ensures Walk(base.absolute, [], Parts(p, base)) == Walk(base.absolute, base.segments, p.segments)
  {
    hide Walk;
    var a, q := base.absolute, base.segments + p.segments;
    WalkConcat(a, [], base.segments, p.segments);
    WalkFixed(a, base.segments);
    var front := (if a then [""] else []) + q;
    WalkBlank(a, q);
    assert [] + q == q;
    WalkBlank(a, front);
    assert front + [] == front;
  }

  // -------------------------------------------------------------- conditions

  predicate StartsWhite(q: seq<string>) { q != [] && q[0] != [] && IsWhite(q[0][0]) }

  predicate EndsWhite(q: seq<string>)
  {
    q != [] && q[|q| - 1] != [] && IsWhite(q[|q| - 1][|q[|q| - 1]| - 1])
  }

  predicate Named(c: string) { c != "" && c != "." && c != ".." }
  predicate AllNamed(q: seq<string>) { forall i :: 0 <= i < |q| ==> Named(q[i]) }
  predicate AllDots(q: seq<string>) { forall i :: 0 <= i < |q| ==> q[i] == ".." }

  /** The path starts with `n` steps up. */
  predicate Cancels(q: seq<string>, n: nat) { n <= |q| && AllDots(q[..n]) }

  /** The result is where the base and then the path lead. */
  predicate ResolvesRight(p: Path, base: Path)
  {
    var r := ResolvedAgainst(p, base);
    r.absolute == base.absolute && r.segments == Walk(base.absolute, base.segments, p.segments)
  }

  /**
   * What a caller can see beforehand: the path does not end in white space, and if a relative
   * text starts with some, the segment it belongs to is one of the base, the path steps back over
   * the whole base, and the trimmed segment is still a name.
   */
  predicate Undisturbed(p: Path, base: Path)
  {
    var b, q := base.segments, p.segments;
    && !EndsWhite(q)
    && (!base.absolute && StartsWhite(b + q) ==> b != [] && Cancels(q, |b|) && Named(TrimStart(b[0])))
  }

  predicate Shaped(p: Path) { Proper(p.segments) && Reduced(p.absolute, p.segments) }

  // ------------------------------------------------------- comparing two walks

  lemma {:induction false} NamesPush(absolute: bool, stack: seq<string>, names: seq<string>)
    requires AllNamed(names)
    ensures Walk(absolute, stack, names) == stack + names
    decreases |names|
  {
    if names == [] {
      assert stack + names == stack;
    } else {
      NamesPush(absolute, stack, names[..|names| - 1]);
      assert stack + names == stack + names[..|names| - 1] + [names[|names| - 1]];
    }
  }

  lemma {:induction false} DotsPop(stack: seq<string>, names: seq<string>, dots: seq<string>)
    requires AllNamed(names) && AllDots(dots) && |dots| <= |names|
    ensures Walk(false, stack + names, dots) == stack + names[..|names| - |dots|]
    decreases |dots|
  {
    if dots == [] {
      assert names[..|names|] == names;
    } else {
      var front := dots[..|dots| - 1];
      DotsPop(stack, names, front);
      var left := names[..|names| - |front|];
      assert left[|left| - 1] == names[|left| - 1];
      assert (stack + left)[..|stack| + |left| - 1] == stack + names[..|names| - |dots|];
    }
  }

  /** Steps up that cannot be undone stay below whatever happens on top of them. */
  lemma {:induction false} FloorWalk(dots: seq<string>, stack: seq<string>, components: seq<string>)
    requires AllDots(dots)
    ensures Walk(false, dots + stack, components) == dots + Walk(false, stack, components)
    decreases |components|
  {
    if components != [] {
      var front, c := components[..|components| - 1], components[|components| - 1];
      FloorWalk(dots, stack, front);
      var s := Walk(false, stack, front);
      if c == ".." && s != [] && s[|s| - 1] != ".." {
        assert (dots + s)[..|dots + s| - 1] == dots + s[..|s| - 1];
      } else if c != "" && c != "." {
        assert dots + s + [c] == dots + (s + [c]);
        assert s == [] && dots != [] ==> (dots + s)[|dots + s| - 1] == "..";
      }
    }
  }

  /** What a first component leaves on an empty stack, and what a step up then leaves. */
  function Left(c: string): seq<string> { Step(false, [], c) }
  function Floor(c: string): seq<string> { Step(false, Left(c), "..") }

  lemma FloorMeans(c: string)
    ensures AllDots(Floor(c)) && (Floor(c) == [] <==> Named(c))
  {
  }

  /** Where two walks end that differ in their first component only. */
  predicate Compared(x: string, y: string, cancelled: bool, s: seq<string>, t: seq<string>)
  {
    if cancelled then t == Floor(y) + s
    else s != [] && s == [x] + s[1..] && t == Left(y) + s[1..]
  }

  lemma TwoWalks(x: string, y: string, names: seq<string>, q: seq<string>)
    requires Named(x) && AllNamed(names) && Proper(q) && Reduced(false, q)
    ensures Compared(x, y, Cancels(q, |names| + 1),
                     Walk(false, [], [x] + (names + q)), Walk(false, [], [y] + (names + q)))
  {
    hide Walk, Floor;
    if Cancels(q, |names| + 1) {
      WalkOver(x, names, q);
      WalkOver(y, names, q);
      FloorMeans(x);
      FloorMeans(y);
      var rest := q[|names| + 1..];
      FloorWalk(Floor(x), [], rest);
      FloorWalk(Floor(y), [], rest);
      assert Floor(x) == [] && Floor(x) + [] == [] && Floor(y) + [] == Floor(y);
      assert [] + Walk(false, [], rest) == Walk(false, [], rest);
    } else {
      var d := Lead(q);
      LeadMeans(q);
      WalkWithin(x, names, q, d);
      WalkWithin(y, names, q, d);
      var u := names[..|names| - d] + q[d..];
      assert Left(x) == [x];
      assert ([x] + u)[1..] == u;
    }
  }

  function Lead(q: seq<string>): (d: nat)
    ensures d <= |q| && AllDots(q[..d]) && (d < |q| ==> q[d] != "..")
  {
    if q != [] && q[0] == ".." then
      var d := 1 + Lead(q[1..]);
      assert q[..d] == [q[0]] + q[1..][..d - 1];
      d
    else 0
  }

  lemma LeadMeans(q: seq<string>)
    requires Proper(q) && Reduced(false, q)
    ensures AllNamed(q[Lead(q)..])
    ensures forall n: nat :: Cancels(q, n) <==> n <= Lead(q)
  {
    var d := Lead(q);
    forall i | d <= i < |q| ensures Named(q[i]) {
      assert q[d] != "..";
    }
    forall n: nat | n <= d ensures Cancels(q, n) { assert q[..n] == q[..d][..n]; }
    forall n: nat | d < n <= |q| ensures !Cancels(q, n) { assert q[..n][d] == q[d]; }
  }

  lemma WalkFrom(c: string, names: seq<string>, q: seq<string>)
    requires AllNamed(names)
    ensures Walk(false, [], [c] + (names + q)) == Walk(false, Left(c) + names, q)
  {
    hide Walk;
    assert [c] + (names + q) == ([] + [c]) + names + q;
    WalkSnoc(false, [], [], c);
    WalkBlank(false, []);
    WalkConcat(false, [], [] + [c], names);
    NamesPush(false, Left(c), names);
    WalkConcat(false, [], ([] + [c]) + names, q);
  }

  lemma WalkWithin(c: string, names: seq<string>, q: seq<string>, d: nat)
    requires AllNamed(names) && d <= |names| && d <= |q| && AllDots(q[..d]) && AllNamed(q[d..])
    ensures Walk(false, [], [c] + (names + q)) == Left(c) + (names[..|names| - d] + q[d..])
  {
    hide Walk;
    WalkFrom(c, names, q);
    assert q == q[..d] + q[d..];
    WalkConcat(false, Left(c) + names, q[..d], q[d..]);
    DotsPop(Left(c), names, q[..d]);
    NamesPush(false, Left(c) + names[..|names| - d], q[d..]);
  }

  lemma WalkOver(c: string, names: seq<string>, q: seq<string>)
    requires AllNamed(names) && Cancels(q, |names| + 1)
    ensures Walk(false, [], [c] + (names + q)) == Walk(false, Floor(c), q[|names| + 1..])
  {
    hide Walk;
    var n := |names|;
    WalkFrom(c, names, q);
    assert q == q[..n] + [q[n]] + q[n + 1..] && q[n] == q[..n + 1][n];
    assert AllDots(q[..n]) by { assert q[..n] == q[..n + 1][..n]; }
    WalkConcat(false, Left(c) + names, q[..n] + [q[n]], q[n + 1..]);
    WalkSnoc(false, Left(c) + names, q[..n], q[n]);
    DotsPop(Left(c), names, q[..n]);
    assert Left(c) + names[..0] == Left(c);
  }

  // ----------------------------------------------------------- exact condition

  lemma NotDots(x: string)
    requires x != [] && (IsWhite(x[|x| - 1]) || IsWhite(x[0]))
    ensures Named(x)
  {
  }

  /** How many names a stack holds. */
  function Names(s: seq<string>): nat
  {
    if s == [] then 0 else Names(s[..|s| - 1]) + if s[|s| - 1] == ".." then 0 else 1
  }

  lemma {:induction false} NamesAdd(a: seq<string>, b: seq<string>)
    ensures Names(a + b) == Names(a) + Names(b)
    decreases |b|
  {
    if b == [] {
      assert a + b == a;
    } else {
      assert (a + b)[..|a + b| - 1] == a + b[..|b| - 1];
      NamesAdd(a, b[..|b| - 1]);
    }
  }

  lemma {:induction false} NamesOfDots(s: seq<string>)
    requires AllDots(s)
    ensures Names(s) == 0
  {
    if s != [] { NamesOfDots(s[..|s| - 1]); }
  }

  lemma NamesOfOne(x: string)
    ensures Names([x]) == if x == ".." then 0 else 1
  {
    assert [x][..0] == [];
  }

  lemma NamesOfLeft(y: string)
    ensures Names(Left(y)) <= 1
  {
    NamesOfOne(y);
    assert [] + [y] == [y];
  }

  /** A last segment that loses characters cannot lead to the same place. */
  lemma StepDiffers(absolute: bool, w: seq<string>, w1: seq<string>, x: string, z: string)
    requires Named(x) && |z| < |x| && Names(w1) <= Names(w)
    ensures Step(absolute, w1, z) != Step(absolute, w, x)
  {
    var s := Step(absolute, w1, z);
    assert Step(absolute, w, x) == w + [x];
    NamesAdd(w, [x]);
    NamesOfOne(x);
    if z == ".." && w1 != [] && w1[|w1| - 1] != ".." {
      assert Names(s) <= Names(w1);
    } else if s != w1 {
      assert s[|s| - 1] != x && (w + [x])[|w|] == x;
    }
  }

  lemma ComparedNames(x: string, y: string, cancelled: bool, s: seq<string>, t: seq<string>)
    requires Named(x) && Compared(x, y, cancelled, s, t)
    ensures Names(t) <= Names(s)
  {
    hide Floor;
    if cancelled {
      FloorMeans(y);
      NamesOfDots(Floor(y));
      NamesAdd(Floor(y), s);
    } else {
      hide Names, Left;
      NamesAdd([x], s[1..]);
      NamesAdd(Left(y), s[1..]);
      NamesOfOne(x);
      NamesOfLeft(y);
    }
  }

  lemma ComparedEqual(x: string, y: string, cancelled: bool, s: seq<string>, t: seq<string>)
    requires Named(x) && |y| < |x| && Compared(x, y, cancelled, s, t)
    ensures s == t <==> cancelled && Named(y)
  {
    hide Floor;
    FloorMeans(y);
    if !cancelled && Left(y) != [] { assert s[0] == x && t[0] == Left(y)[0]; }
  }

  lemma TrimEndShorter(x: string)
    requires x != []
    ensures if IsWhite(x[|x| - 1]) then |TrimEnd(x)| < |x| else TrimEnd(x) == x
  {
    TrimEndTight(x);
  }

  lemma TrimStartShorter(x: string)
    requires x != []
    ensures if IsWhite(x[0]) then |TrimStart(x)| < |x| else TrimStart(x) == x
  {
    if IsWhite(x[0]) { TrimStartWithin(x[1..]); }
  }

  /** What resolution computes: the walk of the trimmed parts. */
  lemma ResolvedWalks(p: Path, base: Path)
    requires !p.absolute && Shaped(p) && Shaped(base)
    ensures var c, r := Parts(p, base), ResolvedAgainst(p, base);
            && (c == [] ==> !r.absolute && r.segments == [])
            && (c != [] ==>
                  var t := TrimLast(TrimFirst(c));
                  r.absolute == Rooted(t) && r.segments == Walk(Rooted(t), [], t))
  {
    hide Walk, Join, Normalize, PushPath, Rendered;
    TextIsJoin(p, base);
    var c := Parts(p, base);
    if c == [] {
      JoinCases(c);
      NothingNormalizes();
    } else {
      assert AllClean(c) by { PartsClean(p, base); }
      NormalizeJoin(c);
    }
  }

  lemma PartsClean(p: Path, base: Path)
    requires Proper(p.segments) && Proper(base.segments)
    ensures AllClean(Parts(p, base))
  {
  }

  lemma NothingNormalizes()
    ensures Normalize("") == Path(false, false, [])
  {
    assert Slashed(Trim("")) == "";
    WalkBlank(false, []);
  }

  /** Whether the result is right is a matter of two walks. */
  lemma RightMeans(p: Path, base: Path, t: seq<string>)
    requires !p.absolute && Shaped(p) && Shaped(base)
    requires Parts(p, base) != [] && t == TrimLast(TrimFirst(Parts(p, base)))
    ensures ResolvesRight(p, base) <==>
            Rooted(t) == base.absolute && Walk(Rooted(t), [], t) == Walk(base.absolute, [], Parts(p, base))
  {
    hide Walk, ResolvedAgainst, Parts, TrimLast, TrimFirst;
    ResolvedWalks(p, base);
    PartsWalk(p, base);
  }

  lemma NothingRight(p: Path, base: Path)
    requires !p.absolute && Shaped(p) && Shaped(base) && Parts(p, base) == []
    ensures ResolvesRight(p, base)
  {
    hide Walk, ResolvedAgainst;
    ResolvedWalks(p, base);
    PartsWalk(p, base);
    WalkBlank(false, []);
  }

  /** Trimming the end alone. */
  lemma EndWalks(absolute: bool, init: seq<string>, x: string)
    ensures if x != [] && IsWhite(x[|x| - 1])
            then Walk(absolute, [], init + [TrimEnd(x)]) != Walk(absolute, [], init + [x])
            else TrimEnd(x) == x
  {
    hide Walk, TrimEnd, Step;
    if x == [] {
      TrimBlank();
    } else {
      TrimEndShorter(x);
      if IsWhite(x[|x| - 1]) {
        NotDots(x);
        var w := Walk(absolute, [], init);
        WalkSnoc(absolute, [], init, x);
        WalkSnoc(absolute, [], init, TrimEnd(x));
        StepDiffers(absolute, w, w, x, TrimEnd(x));
      }
    }
  }

  lemma FirstStays(c: seq<string>)
    requires c != [] && !StartsWhite(c)
    ensures TrimFirst(c) == c
  {
    hide TrimStart;
    if c[0] != [] { TrimStartShorter(c[0]); } else { TrimBlank(); }
    assert c == [c[0]] + c[1..];
  }

  lemma PartsEnds(p: Path, base: Path)
    requires Proper(p.segments) && Proper(base.segments) && Parts(p, base) != []
    ensures var c := Parts(p, base);
            && EndsWhite(c) == EndsWhite(p.segments)
            && StartsWhite(c) == (!base.absolute && StartsWhite(base.segments + p.segments))
            && (base.absolute ==> Rooted(c)) && (!base.absolute ==> c[0] != "")
  {
    var c := Parts(p, base);
    assert p.segments != [] ==> c[|c| - 1] == p.segments[|p.segments| - 1];
    assert base.absolute ==> c[0] == "";
    assert !base.absolute ==> c[0] == (base.segments + p.segments)[0];
  }

  /** Against an absolute base, and against a relative one whose text does not start with white space. */
  lemma ResolveEnd(p: Path, base: Path)
    requires !p.absolute && Shaped(p) && Shaped(base) && (base.absolute || !StartsWhite(base.segments + p.segments))
    ensures ResolvesRight(p, base) <==> !EndsWhite(p.segments)
  {
    hide Walk, ResolvesRight, TrimStart, TrimEnd, TrimFirst, TrimLast, Parts, Rooted, EndsWhite, StartsWhite, Shaped;
    var c := Parts(p, base);
    if c == [] {
      NothingRight(p, base);
      PartsNothing(p, base);
    } else {
      assert Proper(p.segments) && Proper(base.segments) by { ShapedProper(p); ShapedProper(base); }
      PartsEnds(p, base);
      EndTrims(base.absolute, c);
      RightMeans(p, base, TrimLast(TrimFirst(c)));
    }
  }

  lemma ShapedProper(p: Path)
    requires Shaped(p)
    ensures Proper(p.segments)
  {
  }

  /** Components that do not start with white space, trimmed. */
  lemma EndTrims(absolute: bool, c: seq<string>)
    requires c != [] && !StartsWhite(c) && (absolute ==> Rooted(c)) && (!absolute ==> c[0] != "")
    ensures var t := TrimLast(TrimFirst(c));
            Rooted(t) == absolute && (Walk(absolute, [], t) == Walk(absolute, [], c) <==> !EndsWhite(c))
  {
    hide Walk, TrimStart, TrimEnd;
    FirstStays(c);
    var init, x := c[..|c| - 1], c[|c| - 1];
    assert c == init + [x];
    EndWalks(absolute, init, x);
    var t := init + [TrimEnd(x)];
    assert init != [] ==> t[0] == init[0] == c[0];
  }

  lemma PartsNothing(p: Path, base: Path)
    requires Parts(p, base) == []
    ensures p.segments == [] && !EndsWhite(p.segments)
  {
  }

  lemma TrimBlank()
    ensures TrimStart("") == "" && TrimEnd("") == ""
  {
  }

  lemma FirstNamed(q: seq<string>)
    requires Proper(q) && Reduced(false, q) && StartsWhite(q)
    ensures Named(q[0]) && AllNamed(q)
  {
    NotDots(q[0]);
    forall i | 0 <= i < |q| ensures Named(q[i]) {
      assert q[0] != "..";
    }
  }

  /** A relative text of one segment that starts with white space. */
  lemma ResolveAlone(p: Path, base: Path)
    requires !p.absolute && Shaped(p) && Shaped(base) && !base.absolute
    requires base.segments == [] && |p.segments| == 1 && StartsWhite(p.segments)
    ensures !ResolvesRight(p, base)
  {
    hide Walk, ResolvedAgainst, TrimStart, TrimEnd;
    var x := p.segments[0];
    var c := Parts(p, base);
    assert c == [x];
    ResolvedWalks(p, base);
    PartsWalk(p, base);
    TrimStartShorter(x);
    TrimEndTight(TrimStart(x));
    var z := TrimEnd(TrimStart(x));
    assert TrimLast(TrimFirst(c)) == [z];
    NotDots(x);
    assert [] + [x] == [x] && [] + [z] == [z];
    WalkSnoc(false, [], [], x);
    WalkSnoc(false, [], [], z);
    WalkBlank(false, []);
    StepDiffers(false, [], [], x, z);
  }

  lemma TailNamed(w: seq<string>)
    requires w != [] && Proper(w) && AllNamed(w)
    ensures AllNamed(w[1..]) && Proper(w[1..]) && Reduced(false, w[1..]) && !Cancels(w[1..], 1) && AllNamed([])
  {
    var q := w[1..];
    if q != [] { assert q[..1][0] == q[0]; }
  }

  /** The first segment, the names after it that belong to the base, and the path that follows. */
  lemma Divide(p: Path, base: Path) returns (x: string, names: seq<string>, q: seq<string>)
    requires Shaped(p) && !p.absolute && Shaped(base) && !base.absolute && StartsWhite(base.segments + p.segments)
    ensures base.segments + p.segments == [x] + (names + q) && Named(x) && IsWhite(x[0])
    ensures AllNamed(names) && Proper(q) && Reduced(false, q)
    ensures EndsWhite(p.segments) && names + q != [] ==> q != [] && EndsWhite(q)
    ensures p.segments == [] ==> q == []
    ensures Cancels(q, |names| + 1) <==> base.segments != [] && Cancels(p.segments, |base.segments|)
    ensures base.segments != [] ==> x == base.segments[0]
  {
    hide Cancels, Proper, Reduced, AllNamed;
    var b, w := base.segments, p.segments;
    if b == [] {
      assert b + w == w;
      FirstNamed(w);
      x, names, q := w[0], [], w[1..];
      assert w == [x] + ([] + q);
      TailNamed(w);
    } else {
      assert (b + w)[0] == b[0];
      FirstNamed(b);
      TailNamed(b);
      x, names, q := b[0], b[1..], w;
      assert b + w == [x] + (names + q);
    }
  }

  lemma ResolveStart(p: Path, base: Path)
    requires !p.absolute && Shaped(p) && Shaped(base) && !base.absolute && StartsWhite(base.segments + p.segments)
    ensures ResolvesRight(p, base) <==> Undisturbed(p, base)
  {
    hide Walk, ResolvedAgainst, TrimStart, TrimEnd, Cancels;
    var x, names, q := Divide(p, base);
    if names + q == [] && p.segments != [] {
      assert base.segments + p.segments == [x];
      assert |base.segments| + |p.segments| == 1;
      ResolveAlone(p, base);
    } else if EndsWhite(p.segments) {
      ResolveBoth(p, base, x, names, q);
    } else {
      ResolveFirst(p, base, x, names, q);
    }
  }

  lemma TrimAround(x: string, mid: seq<string>, l: string)
    ensures TrimLast(TrimFirst([x] + mid + [l])) == [TrimStart(x)] + mid + [TrimEnd(l)]
  {
    hide TrimStart, TrimEnd;
    assert ([x] + mid + [l])[1..] == mid + [l];
    assert TrimFirst([x] + mid + [l]) == [TrimStart(x)] + mid + [l];
  }

  lemma RelativeParts(p: Path, base: Path)
    requires !base.absolute
    ensures Parts(p, base) ==
            base.segments + p.segments + if p.segments == [] && base.segments != [] then [""] else []
  {
    assert [] + (base.segments + p.segments) == base.segments + p.segments;
  }

  lemma FrontShape(q: seq<string>)
    requires q != [] && Proper(q) && Reduced(false, q)
    ensures Proper(q[..|q| - 1]) && Reduced(false, q[..|q| - 1])
  {
  }

  /** Trimming both ends. */
  lemma BothWalk(x: string, names: seq<string>, init: seq<string>, l: string)
    requires Named(x) && AllNamed(names) && Proper(init) && Reduced(false, init) && l != [] && IsWhite(l[|l| - 1])
    ensures Walk(false, [], [TrimStart(x)] + (names + init) + [TrimEnd(l)]) !=
            Walk(false, [], [x] + (names + init) + [l])
  {
    hide Walk, Step, TrimStart, TrimEnd, Compared, Cancels, Proper, Reduced, AllNamed;
    var y, z := TrimStart(x), TrimEnd(l);
    TrimEndShorter(l);
    NotDots(l);
    TwoWalks(x, y, names, init);
    var w, w1 := Walk(false, [], [x] + (names + init)), Walk(false, [], [y] + (names + init));
    ComparedNames(x, y, Cancels(init, |names| + 1), w, w1);
    WalkSnoc(false, [], [x] + (names + init), l);
    WalkSnoc(false, [], [y] + (names + init), z);
    StepDiffers(false, w, w1, l, z);
  }

  /** White space at both ends. */
  lemma ResolveBoth(p: Path, base: Path, x: string, names: seq<string>, q: seq<string>)
    requires !p.absolute && Shaped(p) && Shaped(base) && !base.absolute && EndsWhite(p.segments)
    requires base.segments + p.segments == [x] + (names + q) && Named(x) && AllNamed(names)
    requires Proper(q) && Reduced(false, q) && q != [] && EndsWhite(q)
    ensures !ResolvesRight(p, base)
  {
    hide Walk, ResolvesRight, TrimStart, TrimEnd, Parts, Proper, Reduced, AllNamed, TrimFirst, TrimLast;
    var init, l := q[..|q| - 1], q[|q| - 1];
    RelativeParts(p, base);
    assert q == init + [l];
    assert Parts(p, base) == [x] + (names + init) + [l];
    TrimAround(x, names + init, l);
    var t := [TrimStart(x)] + (names + init) + [TrimEnd(l)];
    RightMeans(p, base, t);
    FrontShape(q);
    BothWalk(x, names, init, l);
  }

  /** Trimming the front alone. */
  lemma FrontWalk(x: string, names: seq<string>, q: seq<string>, tail: seq<string>)
    requires Named(x) && x != [] && IsWhite(x[0]) && AllNamed(names) && Proper(q) && Reduced(false, q)
    requires tail == [] || tail == [""]
    ensures Walk(false, [], [TrimStart(x)] + (names + q) + tail) == Walk(false, [], [x] + (names + q) + tail) <==>
            Cancels(q, |names| + 1) && Named(TrimStart(x))
  {
    hide Walk, TrimStart, Compared, Cancels, Proper, Reduced, AllNamed;
    var y := TrimStart(x);
    TrimStartShorter(x);
    TwoWalks(x, y, names, q);
    TailBlank([x] + (names + q), tail);
    TailBlank([y] + (names + q), tail);
    var p := names + q;
    ComparedEqual(x, y, Cancels(q, |names| + 1), Walk(false, [], [x] + p), Walk(false, [], [y] + p));
  }

  lemma TailBlank(c: seq<string>, tail: seq<string>)
    requires tail == [] || tail == [""]
    ensures Walk(false, [], c + tail) == Walk(false, [], c)
  {
    hide Walk;
    if tail == [] { assert c + tail == c; } else { WalkBlank(false, c); }
  }

  /** White space in front only. */
  lemma ResolveFirst(p: Path, base: Path, x: string, names: seq<string>, q: seq<string>)
    requires !p.absolute && Shaped(p) && Shaped(base) && !base.absolute && !EndsWhite(p.segments)
    requires base.segments + p.segments == [x] + (names + q)
    requires Named(x) && x != [] && IsWhite(x[0]) && AllNamed(names)
    requires Proper(q) && Reduced(false, q) && (names + q != [] || p.segments == [])
    ensures ResolvesRight(p, base) <==> Cancels(q, |names| + 1) && Named(TrimStart(x))
  {
    hide Walk, ResolvesRight, TrimStart, TrimEnd, Parts, Proper, Reduced, AllNamed, Cancels;
    var tail := if p.segments == [] then [""] else [];
    RelativeParts(p, base);
    var c, t := Parts(p, base), [TrimStart(x)] + (names + q) + tail;
    assert base.segments != [] || p.segments != [];
    assert c == [x] + (names + q) + tail;
    LastStays(p, base, x, names + q + tail);
    assert [TrimStart(x)] + (names + q + tail) == t;
    RightMeans(p, base, t);
    FrontWalk(x, names, q, tail);
    assert names + q + tail != [];
    assert Rooted(t) <==> TrimStart(x) == "";
  }

  lemma LastStays(p: Path, base: Path, x: string, rest: seq<string>)
    requires Proper(p.segments) && Proper(base.segments) && !EndsWhite(p.segments) && !base.absolute
    requires rest != [] && Parts(p, base) == [x] + rest
    ensures TrimLast(TrimFirst(Parts(p, base))) == [TrimStart(x)] + rest
  {
    hide TrimStart, TrimEnd, Parts;
    PartsEnds(p, base);
    var mid, l := rest[..|rest| - 1], rest[|rest| - 1];
    assert rest == mid + [l] && [x] + rest == [x] + mid + [l];
    TrimAround(x, mid, l);
    if l == [] { TrimBlank(); } else { TrimEndShorter(l); }
    assert [TrimStart(x)] + mid + [l] == [TrimStart(x)] + rest;
  }

  /**
   * Resolving normal forms leads where the base and then the path lead iff no white space that
   * matters is trimmed, for absolute and relative bases alike.
   */
  lemma ResolveExact(p: Path, base: Path)
    requires !p.absolute && Shaped(p) && Shaped(base)
    ensures ResolvesRight(p, base) <==> Undisturbed(p, base)
  {
    hide ResolvesRight, Cancels, TrimStart;
    if !base.absolute && StartsWhite(base.segments + p.segments) {
      ResolveStart(p, base);
    } else {
      ResolveEnd(p, base);
    }
  }

  // ------------------------------------------------------------------- texts

  /** In terms of the texts: the components of the base text are walked, then those of the relative text. */
  lemma ResolveWalks(baseText: string, relText: string)
    requires !Normalize(relText).absolute
    ensures var b, p := Normalize(baseText), Normalize(relText);
            var r, walked := ResolvedAgainst(p, b), Walk(b.absolute, [], Components(baseText) + Components(relText));
            r.absolute == b.absolute && r.segments == walked <==> Undisturbed(p, b)
  {
    hide Trim, ResolvedAgainst, Undisturbed, SplitOn, Slashed;
    var b, p := Normalize(baseText), Normalize(relText);
    NormalizeShape(baseText);
    NormalizeShape(relText);
    var cb, cr := Components(baseText), Components(relText);
    assert b.segments == Walk(b.absolute, [], cb) && p.segments == Walk(false, [], cr);
    WalkConcat(b.absolute, [], cb, cr);
    WalkNormalForm(b.absolute, b.segments, cr);
    ResolveExact(p, b);
  }

  /** Normalizing two texts joined by a separator walks the components of the one and then of the other. */
  lemma NormalizeJoined(baseText: string, relText: string)
    requires baseText != [] && Tight(baseText) && Tight(relText)
    ensures var n := Normalize(baseText + "/" + relText);
            && n.absolute == Normalize(baseText).absolute
            && n.segments == Walk(n.absolute, [], Components(baseText) + Components(relText))
  {
    hide Trim, Walk, SplitOn;
    var text := baseText + "/" + relText;
    TrimTight(baseText);
    TrimTight(relText);
    assert text[|text| - 1] == if relText == [] then '/' else relText[|relText| - 1];
    TrimTight(text);
    assert Slashed(text) == Slashed(baseText) + ['/'] + Slashed(relText);
    SplitConcat(Slashed(baseText), '/', Slashed(relText));
  }

  /** Resolving a relative path is normalizing the joined text, under the same exact condition. */
  lemma ResolveIsJoin(baseText: string, relText: string)
    requires baseText != [] && Tight(baseText) && Tight(relText) && !Normalize(relText).absolute
    ensures var r, n := ResolvedAgainst(Normalize(relText), Normalize(baseText)), Normalize(baseText + "/" + relText);
            r.absolute == n.absolute && r.segments == n.segments <==>
              Undisturbed(Normalize(relText), Normalize(baseText))
  {
    hide ResolvedAgainst, Walk, Components, Normalize, Undisturbed;
    NormalizeJoined(baseText, relText);
    ResolveWalks(baseText, relText);
  }

  /** Normalizing a rendered normal form gives it back iff it has no white space at its ends. */
  lemma NormalizeRendered(value: string)
    ensures var p := Normalize(value);
            var n := Normalize(Rendered(p));
            n.absolute == p.absolute && n.segments == p.segments <==> Tight(Rendered(p))
  {
    hide Normalize, Walk, Join, TrimStart;
    var p := Normalize(value);
    var q, top := Path(false, false, p.segments), Path(p.absolute, false, []);
    NormalizeShape(value);
    assert Shaped(q) && Shaped(top);
    JoinPlain(p.segments);
    JoinCases([]);
    assert PushPath(Rendered(top), Join(q.segments)) == Rendered(p);
    ResolveExact(q, top);
    WalkFixed(p.absolute, p.segments);
    assert [] + p.segments == p.segments;
    RenderedEnds(p);
  }

  lemma RenderedEnds(p: Path)
    requires Proper(p.segments)
    ensures Tight(Rendered(p)) <==> !EndsWhite(p.segments) && (p.absolute || !StartsWhite(p.segments))
  {
    hide Join;
    var q := p.segments;
    JoinCases(q);
    if q != [] {
      var init, x := q[..|q| - 1], q[|q| - 1];
      assert q == init + [x];
      if init != [] { JoinSnoc(init, x); }
      JoinPlain(q);
      assert Join(q)[0] == q[0][0];
    }
  }

  // --------------------------------------------------------------- witnesses

  /** Trimming can even turn a relative result absolute: the first rendered segment may be blank. */
  lemma BlankSegmentEscapes()
    ensures var b, p := Normalize("./ /y"), Normalize("a");
            !b.absolute && !p.absolute && ResolvedAgainst(p, b).absolute
  {
    hide Normalize, ResolvedAgainst;
    BlankNormalizes();
    PlainNormalizes();
    EscapesFrom(Normalize("a"), Normalize("./ /y"));
  }

  /** A normal form that changes when it is normalized again. */
  lemma BlankIsLost()
    ensures var p := Normalize("./ a");
            p.segments == [" a"] && Normalize(Rendered(p)).segments != p.segments
  {
    hide Walk, SplitOn;
    var value := "./ a";
    assert Slashed(Trim(value)) == value;
    assert value == "." + ['/'] + " a";
    SplitConcat(".", '/', " a");
    SplitOne(".", '/');
    SplitOne(" a", '/');
    assert SplitOn(value, '/') == ([] + ["."]) + [" a"];
    WalkSnoc(false, [], [] + ["."], " a");
    WalkSnoc(false, [], [], ".");
    WalkBlank(false, []);
    assert Rendered(Normalize(value)) == " a";
    NormalizeRendered(value);
  }

  lemma BlankNormalizes()
    ensures Normalize("./ /y") == Path(false, false, [" ", "y"])
  {
    hide Walk, SplitOn;
    var base := "./ /y";
    assert Slashed(Trim(base)) == base;
    assert base == "." + ['/'] + (" " + ['/'] + "y");
    SplitConcat(".", '/', " " + ['/'] + "y");
    SplitConcat(" ", '/', "y");
    SplitOne(".", '/');
    SplitOne(" ", '/');
    SplitOne("y", '/');
    assert SplitOn(base, '/') == ([] + ["."] + [" "]) + ["y"];
    WalkSnoc(false, [], [] + ["."] + [" "], "y");
    WalkSnoc(false, [], [] + ["."], " ");
    WalkSnoc(false, [], [], ".");
    WalkBlank(false, []);
  }

  lemma PlainNormalizes()
    ensures Normalize("a") == Path(false, false, ["a"])
  {
    hide Walk, SplitOn;
    assert Slashed(Trim("a")) == "a";
    SplitOne("a", '/');
    assert ["a"] == [] + ["a"];
    WalkSnoc(false, [], [], "a");
    WalkBlank(false, []);
  }

  lemma EscapesFrom(p: Path, base: Path)
    requires p == Path(false, false, ["a"]) && base == Path(false, false, [" ", "y"])
    ensures ResolvedAgainst(p, base).absolute
  {
    hide Walk, SplitOn;
    assert base.segments[1..] == ["y"];
    var text := PushPath(Rendered(base), Join(p.segments));
    assert text == " /y/a" && text[1..] == "/y/a";
  }
}
