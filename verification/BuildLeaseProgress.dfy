/** The protocol gets somewhere: free outputs can be built and cleaned, and cleaners start exactly when they may. */
module BuildLeaseProgress {
  import opened Bytes
  import opened BuildLease
  import opened BuildLeaseSafety

  /** No description holds `lock`. */
  predicate Unheld(s: State, lock: Lock) { forall o :: o in s.locks ==> s.locks[o].lock != lock }

  // ------------------------------------------------------------------ cleaners

  /** A cleaner is admitted iff nobody is past the admission lock; otherwise it gives up. */
  lemma CleanerWaits(s: State, p: Pid, root: Path)
    requires Inv(s) && ProcOf(s, p) == CleanWait(root)
    ensures var s1 := CleanerStep(s, p);
            if Unheld(s, Admission)
            then ProcOf(s1, p) == CleanAdmitted(s.next, root)
                 && s1.locks == s.locks[s.next := Held(Admission, Exclusive)]
            else ProcOf(s1, p) == Idle && s1.locks == s.locks
  {
    hide Inv;
  }

  /**
   * An admitted cleaner starts to clean, holding the output alone, iff the output has a lock file that
   * nobody holds; otherwise it gives up and lets the next one in.
   */
  lemma CleanerStarts(s: State, p: Pid, adm: Ofd, root: Path)
    requires Inv(s) && ProcOf(s, p) == CleanAdmitted(adm, root)
    ensures var s1 := CleanerStep(s, p);
            if root in s.files && Unheld(s, Output(root))
            then ProcOf(s1, p) == Cleaning(adm, s.next, root)
                 && s1.locks == s.locks[s.next := Held(Output(root), Exclusive)]
            else ProcOf(s1, p) == Idle && s1.locks == s.locks - {adm} && Unheld(s1, Admission)
  {
    assert Known(s, p);
    if !(root in s.files && Unheld(s, Output(root))) {
      AdmissionAlone(s, p);
      assert Uses(ProcOf(s, p)) == {adm};
      assert CleanerStep(s, p) == Exit(s, p);
    }
  }

  /** The admission lock has one holder, which nobody else uses. */
  lemma AdmissionAlone(s: State, p: Pid)
    requires Inv(s) && HasAdmission(ProcOf(s, p))
    ensures var adm := ProcOf(s, p).adm;
            && adm in s.locks && s.locks[adm] == Held(Admission, Exclusive) && !UsedElsewhere(s, p, adm)
            && forall o :: o in s.locks && s.locks[o].lock == Admission ==> o == adm
  {
    hide Covers;
    assert Known(s, p);
    var adm := ProcOf(s, p).adm;
    assert adm in Uses(ProcOf(s, p)) && SharedUse(s, p);
    assert forall q :: q in s.procs ==> ProcOf(s, q) == s.procs[q];
  }

  /** A look at an output succeeds iff it has a lock file and nobody holds it, or all share it and so does the look. */
  lemma LookTaken(s: State, p: Pid, root: Path, mode: Mode)
    requires Inv(s) && ProcOf(s, p) == Idle
    ensures var s1 := Happen(s, Look(p, root, mode));
            if root in s.files && (Unheld(s, Output(root)) || (mode == Shared && SharedOnly(s, Output(root))))
            then ProcOf(s1, p) == Onlooker(s.next, root, mode)
                 && s1.locks == s.locks[s.next := Held(Output(root), mode)]
            else s1 == s
  {
    hide Inv;
  }

  /** A lock file that another repository creates above a root is still leased by the second pass. */
  lemma LateFileLeased(s: State, p: Pid)
    requires Inv(s) && ProcOf(s, p).Second?
    requires var b := ProcOf(s, p); b.i < |b.roots| && b.k < |b.roots[b.i]| && b.roots[b.i][..b.k] !in b.descs
    requires var b := ProcOf(s, p); Unheld(s, Output(b.roots[b.i][..b.k]))
    ensures var b := ProcOf(s, p);
            var above := b.roots[b.i][..b.k];
            var s1 := Happen(Happen(s, Foreign(above)), Step(p, true));
            && ProcOf(s1, p) == Second(b.adm, b.roots, b.i, b.k + 1, b.descs[above := s.next])
            && s1.locks == s.locks[s.next := Held(Output(above), Shared)]
  {
    hide Inv;
    var b := ProcOf(s, p);
    var s0 := Happen(s, Foreign(b.roots[b.i][..b.k]));
    HappenKeeps(s, Foreign(b.roots[b.i][..b.k]));
    AboveTaken(s0, p, true);
  }

  // ------------------------------------------------------------------ builders

  /** Some description holds `lock`, and all that do hold it shared. */
  predicate SharedOnly(s: State, lock: Lock)
  {
    !Unheld(s, lock) && forall o :: o in s.locks && s.locks[o].lock == lock ==> s.locks[o].mode == Shared
  }

  /**
   * A builder takes a root alone iff nobody holds it, and then registers it iff the directory is vacant
   * and no lock file lies below; it shares a root iff all others do and it is registered; else it gives up.
   */
  lemma RootTaken(s: State, p: Pid, vacant: bool)
    requires Inv(s) && ProcOf(s, p).First?
    requires var b := ProcOf(s, p); b.i < |b.roots| && b.k >= |b.roots[b.i]| && b.roots[b.i] !in b.descs
    ensures var s1, b := BuilderStep(s, p, vacant), ProcOf(s, p);
            var path := b.roots[b.i];
            && s1.files == s.files + {path}
            && s1.registered == (if Unheld(s, Output(path)) && vacant && (forall f :: f in s.files ==> !Below(f, path))
                                 then s.registered + {path} else s.registered)
            && if Unheld(s, Output(path)) || (SharedOnly(s, Output(path)) && path in s.registered)
               then ProcOf(s1, p) == First(b.adm, b.roots, b.i + 1, 0, b.descs[path := s.next])
                    && s1.locks == s.locks[s.next :=
                         Held(Output(path), if Unheld(s, Output(path)) then Exclusive else Shared)]
               else ProcOf(s1, p) == Idle
  {
    hide Inv, Close;
  }

  /** A directory above a root is leased iff it has a lock file the builder lacks, and stops it iff held alone. */
  lemma AboveTaken(s: State, p: Pid, vacant: bool)
    requires Inv(s) && (ProcOf(s, p).First? || ProcOf(s, p).Second?)
    requires var b := ProcOf(s, p); b.i < |b.roots| && b.k < |b.roots[b.i]|
    ensures var s1, b := BuilderStep(s, p, vacant), ProcOf(s, p);
            var above := b.roots[b.i][..b.k];
            if above in b.descs || above !in s.files then s1 == Become(s, p, b.(k := b.k + 1))
            else if Unheld(s, Output(above)) || SharedOnly(s, Output(above))
            then ProcOf(s1, p) == b.(k := b.k + 1, descs := b.descs[above := s.next])
                 && s1.locks == s.locks[s.next := Held(Output(above), Shared)]
            else ProcOf(s1, p) == Idle
  {
    hide Inv, Close;
  }

  /** Events of process `p` alone. */
  predicate By(p: Pid, events: seq<Event>)
  {
    forall i :: 0 <= i < |events| ==> events[i] == Step(p, true) || (events[i].Pick? && events[i].pid == p)
  }

  /** Process `p`, stepping alone, takes the system from `s` to `s1`. */
  ghost predicate Reaches(p: Pid, s: State, s1: State) { exists events :: By(p, events) && Run(s, events) == s1 }

  lemma {:induction false} RunConcat(s: State, a: seq<Event>, b: seq<Event>)
    ensures Run(s, a + b) == Run(Run(s, a), b)
    decreases |b|
  {
    hide Happen;
    if b == [] {
      assert a + b == a;
    } else {
      assert (a + b)[..|a + b| - 1] == a + b[..|b| - 1];
      RunConcat(s, a, b[..|b| - 1]);
    }
  }

  lemma ReachesOne(p: Pid, s: State, e: Event, s1: State)
    requires e == Step(p, true) || (e.Pick? && e.pid == p)
    requires Reaches(p, Happen(s, e), s1)
    ensures Reaches(p, s, s1)
  {
    hide Happen;
    var events :| By(p, events) && Run(Happen(s, e), events) == s1;
    RunConcat(s, [e], events);
    assert Run(s, []) == s && [e][..0] == [];
    assert By(p, [e] + events);
  }

  lemma ReachesSelf(p: Pid, s: State)
    ensures Reaches(p, s, s)
  {
    assert By(p, []) && Run(s, []) == s;
  }

  lemma ReachesOn(p: Pid, s: State, s1: State, s2: State)
    requires Reaches(p, s, s1) && Reaches(p, s1, s2)
    ensures Reaches(p, s, s2)
  {
    hide Happen;
    var a :| By(p, a) && Run(s, a) == s1;
    var b :| By(p, b) && Run(s1, b) == s2;
    RunConcat(s, a, b);
    assert By(p, a + b);
  }

  /** The directories above each root, and the root itself, are held by nobody but this builder. */
  ghost predicate Clear(s: State, roots: seq<Path>, descs: map<Path, Ofd>)
  {
    forall i, k :: 0 <= i < |roots| && 0 <= k <= |roots[i]| ==>
      roots[i][..k] in descs || Unheld(s, Output(roots[i][..k]))
  }

  /** Neither another root nor an old lock file lies below `root`. */
  ghost predicate NoneBelow(files: set<Path>, roots: seq<Path>, root: Path)
  {
    (forall f :: f in files ==> !Below(f, root)) && forall i :: 0 <= i < |roots| ==> !Below(roots[i], root)
  }

  /** What the builder has claimed so far, of an output with nothing below it. */
  ghost predicate Claims(s: State, files: set<Path>, roots: seq<Path>, descs: map<Path, Ofd>)
  {
    && (forall f :: f in s.files ==> f in files || f in roots)
    && forall r :: r in roots && r in descs && NoneBelow(files, roots, r) ==> r in s.registered && r in s.files
  }

  /** Since `start` only this builder has moved, and every lock that is new is one it uses. */
  ghost predicate Alone(start: State, s: State, p: Pid)
  {
    && (forall q :: q != p ==> ProcOf(s, q) == ProcOf(start, q))
    && forall o :: o in s.locks ==> o in start.locks || o in Uses(ProcOf(s, p))
  }

  ghost predicate Building(start: State, s: State, p: Pid)
  {
    var b := ProcOf(s, p);
    && Inv(s) && Alone(start, s, p) && IsBuilder(b)
    && Clear(s, b.roots, b.descs) && Claims(s, start.files, b.roots, b.descs)
  }

  lemma Skips(start: State, s: State, p: Pid, b: Proc)
    requires Building(start, s, p) && IsBuilder(b) && Inv(Become(s, p, b))
    requires b.roots == ProcOf(s, p).roots && b.descs == ProcOf(s, p).descs && Uses(ProcOf(s, p)) <= Uses(b)
    ensures Building(start, Become(s, p, b), p)
  {
    hide Inv, Uses;
  }

  lemma Leases(start: State, s: State, p: Pid, path: Path, b: Proc)
    requires Building(start, s, p) && IsBuilder(b) && path !in ProcOf(s, p).descs
    requires b.roots == ProcOf(s, p).roots && b.descs == ProcOf(s, p).descs[path := s.next]
    requires Uses(ProcOf(s, p)) <= Uses(b) && (path in b.roots ==> exists r :: r in b.roots && Below(r, path))
    requires Inv(Become(Take(s, Output(path), Shared), p, b))
    ensures Building(start, Become(Take(s, Output(path), Shared), p, b), p)
  {
    hide Inv;
    var s1 := Become(Take(s, Output(path), Shared), p, b);
    assert s.next in b.descs.Values && s.next in Uses(b) by { assert b.descs[path] == s.next; }
  }

  lemma LocksRoot(start: State, s: State, p: Pid, path: Path, b: Proc)
    requires Building(start, s, p) && IsBuilder(b) && path !in ProcOf(s, p).descs && path in b.roots
    requires b.roots == ProcOf(s, p).roots && b.descs == ProcOf(s, p).descs[path := s.next]
    requires Uses(ProcOf(s, p)) <= Uses(b) && Unheld(s, Output(path)) && Inv(LockRoot(s, p, path, true, b))
    ensures Building(start, LockRoot(s, p, path, true, b), p) && ProcOf(LockRoot(s, p, path, true, b), p) == b
  {
    hide Inv;
    var s1 := LockRoot(s, p, path, true, b);
    assert Free(s, Output(path), Exclusive);
    assert s.next in b.descs.Values && s.next in Uses(b) by { assert b.descs[path] == s.next; }
  }

  /** How far a builder still is from the end of a pass. */
  function RootsLeft(b: Proc): nat
    requires b.First? || b.Second?
  {
    if b.i < |b.roots| then |b.roots| - b.i else 0
  }

  function StepsLeft(b: Proc): nat
    requires b.First? || b.Second?
  {
    if b.i < |b.roots| && b.k < |b.roots[b.i]| then |b.roots[b.i]| - b.k else 0
  }

  predicate GoesOn(b: Proc, b1: Proc)
    requires b.First? || b.Second?
  {
    && ((b.First? && b1.First?) || (b.Second? && b1.Second?)) && b1.roots == b.roots && b1.adm == b.adm
    && (RootsLeft(b1) < RootsLeft(b) || (RootsLeft(b1) == RootsLeft(b) && StepsLeft(b1) < StepsLeft(b)))
  }

  /** The first pass over the roots locks each of them. */
  lemma {:induction false} FirstPass(start: State, s: State, p: Pid) returns (s1: State)
    requires Building(start, s, p) && ProcOf(s, p).First?
    ensures Reaches(p, s, s1) && Building(start, s1, p)
    ensures ProcOf(s1, p).Second? && ProcOf(s1, p).roots == ProcOf(s, p).roots
    decreases RootsLeft(ProcOf(s, p)), StepsLeft(ProcOf(s, p))
  {
    hide Building, Reaches, BuilderStep, Inv, RootsLeft, StepsLeft;
    var s0 := Happen(s, Step(p, true));
    FirstStep(start, s, p);
    if ProcOf(s0, p).Second? {
      s1 := s0;
      ReachesSelf(p, s1);
    } else {
      s1 := FirstPass(start, s0, p);
    }
    ReachesOne(p, s, Step(p, true), s1);
  }

  lemma FirstStep(start: State, s: State, p: Pid)
    requires Building(start, s, p) && ProcOf(s, p).First?
    ensures var s0, b := Happen(s, Step(p, true)), ProcOf(s, p);
            && Building(start, s0, p)
            && (GoesOn(b, ProcOf(s0, p)) || (ProcOf(s0, p).Second? && ProcOf(s0, p).roots == b.roots))
  {
    hide Inv, Alone, Claims, LockRoot, Free;
    HappenKeeps(s, Step(p, true));
    var s0 := Happen(s, Step(p, true));
    var First(adm, roots, i, k, descs) := ProcOf(s, p);
    if i >= |roots| {
      Skips(start, s, p, Second(adm, roots, 0, 0, descs));
    } else if k < |roots[i]| {
      var above := roots[i][..k];
      assert above in descs || Unheld(s, Output(above));
      if above in descs || above !in s.files {
        Skips(start, s, p, First(adm, roots, i, k + 1, descs));
      } else {
        assert Free(s, Output(above), Shared) by { UnheldFree(s, Output(above), Shared); }
        assert roots[i] in roots && Below(roots[i], above);
        ValuesGrow(descs, above, s.next);
        Leases(start, s, p, above, First(adm, roots, i, k + 1, descs[above := s.next]));
      }
    } else if roots[i] in descs {
      Skips(start, s, p, First(adm, roots, i + 1, 0, descs));
    } else {
      assert roots[i][..|roots[i]|] == roots[i];
      ValuesGrow(descs, roots[i], s.next);
      LocksRoot(start, s, p, roots[i], First(adm, roots, i + 1, 0, descs[roots[i] := s.next]));
    }
  }

  lemma ValuesGrow(descs: map<Path, Ofd>, path: Path, o: Ofd)
    requires path !in descs
    ensures descs.Values <= descs[path := o].Values
  {
    forall v | v in descs.Values ensures v in descs[path := o].Values {
      var q :| q in descs && descs[q] == v;
      assert descs[path := o][q] == v;
    }
  }

  lemma UnheldFree(s: State, lock: Lock, mode: Mode)
    requires Unheld(s, lock)
    ensures Free(s, lock, mode)
  {
  }

  /** The second pass leases what appeared above the roots meanwhile. */
  lemma {:induction false} SecondPass(start: State, s: State, p: Pid) returns (s1: State)
    requires Building(start, s, p) && ProcOf(s, p).Second?
    ensures Reaches(p, s, s1) && Building(start, s1, p)
    ensures ProcOf(s1, p).Down? && ProcOf(s1, p).pending.None? && ProcOf(s1, p).roots == ProcOf(s, p).roots
    decreases RootsLeft(ProcOf(s, p)), StepsLeft(ProcOf(s, p))
  {
    hide Building, Reaches, BuilderStep, Inv, RootsLeft, StepsLeft;
    var s0 := Happen(s, Step(p, true));
    SecondStep(start, s, p);
    if ProcOf(s0, p).Down? {
      s1 := s0;
      ReachesSelf(p, s1);
    } else {
      s1 := SecondPass(start, s0, p);
    }
    ReachesOne(p, s, Step(p, true), s1);
  }

  lemma SecondStep(start: State, s: State, p: Pid)
    requires Building(start, s, p) && ProcOf(s, p).Second?
    ensures var s0, b := Happen(s, Step(p, true)), ProcOf(s, p);
            var b0 := ProcOf(s0, p);
            && Building(start, s0, p)
            && (GoesOn(b, b0) || (b0.Down? && b0.pending.None? && b0.roots == b.roots))
  {
    hide Inv, Alone, Claims, Free;
    HappenKeeps(s, Step(p, true));
    var s0 := Happen(s, Step(p, true));
    var Second(adm, roots, i, k, descs) := ProcOf(s, p);
    if i >= |roots| {
      Skips(start, s, p, Down(adm, roots, descs.Keys, None, descs));
    } else if k < |roots[i]| {
      var above := roots[i][..k];
      assert above in descs || Unheld(s, Output(above));
      if above in descs || above !in s.files {
        Skips(start, s, p, Second(adm, roots, i, k + 1, descs));
      } else {
        assert Free(s, Output(above), Shared) by { UnheldFree(s, Output(above), Shared); }
        assert roots[i] in roots && Below(roots[i], above);
        ValuesGrow(descs, above, s.next);
        Leases(start, s, p, above, Second(adm, roots, i, k + 1, descs[above := s.next]));
      }
    } else {
      Skips(start, s, p, Second(adm, roots, i + 1, 0, descs));
    }
  }

  // ---------------------------------------------------------------- downgrade

  /** Every exclusive lock is turned into a shared one. */
  lemma {:induction false} DownPass(start: State, s: State, p: Pid) returns (s1: State)
    requires Building(start, s, p) && ProcOf(s, p).Down? && ProcOf(s, p).pending.None?
    ensures Reaches(p, s, s1) && Building(start, s1, p)
    ensures ProcOf(s1, p) == ProcOf(s, p).(todo := {})
    decreases ProcOf(s, p).todo
  {
    hide Building, Reaches, DownPick, BuilderStep, Inv;
    if ProcOf(s, p).todo == {} {
      s1 := s;
      ReachesSelf(p, s);
    } else {
      var path :| path in ProcOf(s, p).todo;
      var s0 := OneDown(start, s, p, path);
      s1 := DownPass(start, s0, p);
      ReachesOn(p, s, s0, s1);
    }
  }

  lemma OneDown(start: State, s: State, p: Pid, path: Path) returns (s1: State)
    requires Building(start, s, p) && ProcOf(s, p).Down? && ProcOf(s, p).pending.None? && path in ProcOf(s, p).todo
    ensures Reaches(p, s, s1) && Building(start, s1, p)
    ensures ProcOf(s1, p) == ProcOf(s, p).(todo := ProcOf(s, p).todo - {path})
  {
    hide Building, Reaches, DownPick, BuilderStep, Inv;
    var s0 := Happen(s, Pick(p, path));
    Picked(start, s, p, path);
    s1 := s0;
    if ProcOf(s0, p).pending.Some? {
      s1 := Happen(s0, Step(p, true));
      Relocked(start, s0, p, path);
      ReachesSelf(p, s1);
      ReachesOne(p, s0, Step(p, true), s1);
    } else {
      ReachesSelf(p, s1);
    }
    ReachesOne(p, s, Pick(p, path), s1);
  }

  lemma Picked(start: State, s: State, p: Pid, path: Path)
    requires Building(start, s, p) && ProcOf(s, p).Down? && ProcOf(s, p).pending.None? && path in ProcOf(s, p).todo
    ensures var s0, b := Happen(s, Pick(p, path)), ProcOf(s, p);
            && Building(start, s0, p)
            && (ProcOf(s0, p) == b.(todo := b.todo - {path})
                || (ProcOf(s0, p) == b.(todo := b.todo - {path}, pending := Some(path)) && Unheld(s0, Output(path))))
  {
    hide Inv, HoldsPath, Claims, Clear;
    HappenKeeps(s, Pick(p, path));
    PathHeld(s, p, path);
    var b, s0 := ProcOf(s, p), Happen(s, Pick(p, path));
    ClearAfter(s, s0, b.roots, b.descs);
    ClaimsAfter(s, s0, start.files, b.roots, b.descs);
  }

  lemma PathHeld(s: State, p: Pid, path: Path)
    requires Inv(s) && ProcOf(s, p).Down? && ProcOf(s, p).pending.None? && path in ProcOf(s, p).todo
    ensures path in ProcOf(s, p).descs
    ensures var o := ProcOf(s, p).descs[path];
            && o in s.locks && s.locks[o].lock == Output(path)
            && (s.locks[o].mode == Exclusive ==>
                  forall o1 :: o1 in s.locks && o1 != o ==> s.locks[o1].lock != Output(path))
  {
    hide Covers, SharedUse;
    assert Known(s, p);
    assert HoldsPath(s.locks, ProcOf(s, p), path);
  }

  lemma Relocked(start: State, s: State, p: Pid, path: Path)
    requires Building(start, s, p) && ProcOf(s, p).Down? && ProcOf(s, p).pending == Some(path)
    requires Unheld(s, Output(path))
    ensures var s0 := Happen(s, Step(p, true));
            Building(start, s0, p) && ProcOf(s0, p) == ProcOf(s, p).(pending := None)
  {
    hide Covers, SharedUse;
    HappenKeeps(s, Step(p, true));
    assert Known(s, p);
    UnheldFree(s, Output(path), Shared);
  }

  lemma GoesLive(start: State, s: State, p: Pid)
    requires Building(start, s, p) && ProcOf(s, p).Down? && ProcOf(s, p).pending.None? && ProcOf(s, p).todo == {}
    ensures var s1, b := Happen(s, Step(p, true)), ProcOf(s, p);
            Building(start, s1, p) && ProcOf(s1, p) == Live(b.roots, b.descs) && Unheld(s1, Admission)
  {
    hide Inv, Claims, Clear;
    HappenKeeps(s, Step(p, true));
    AdmissionAlone(s, p);
    var s1 := Happen(s, Step(p, true));
    assert s1.locks == Close(s, p, ProcOf(s, p).descs.Values);
    NotAmongPaths(s, p);
    assert forall o :: o in s1.locks ==> o in s.locks && s1.locks[o] == s.locks[o];
    assert Clear(s1, ProcOf(s, p).roots, ProcOf(s, p).descs) by {
      ClearAfter(s, s1, ProcOf(s, p).roots, ProcOf(s, p).descs);
    }
    assert Claims(s1, start.files, ProcOf(s, p).roots, ProcOf(s, p).descs) by {
      ClaimsAfter(s, s1, start.files, ProcOf(s, p).roots, ProcOf(s, p).descs);
    }
  }

  lemma ClearAfter(s: State, s1: State, roots: seq<Path>, descs: map<Path, Ofd>)
    requires Clear(s, roots, descs) && forall o :: o in s1.locks ==> o in s.locks && s1.locks[o] == s.locks[o]
    ensures Clear(s1, roots, descs)
  {
  }

  lemma ClaimsAfter(s: State, s1: State, files: set<Path>, roots: seq<Path>, descs: map<Path, Ofd>)
    requires Claims(s, files, roots, descs) && s1.files == s.files && s1.registered == s.registered
    ensures Claims(s1, files, roots, descs)
  {
  }

  /** The admission description is none of the output ones. */
  lemma NotAmongPaths(s: State, p: Pid)
    requires Inv(s) && ProcOf(s, p).Down? && ProcOf(s, p).pending.None?
    ensures ProcOf(s, p).adm !in ProcOf(s, p).descs.Values
  {
    hide Covers, SharedUse;
    assert Known(s, p);
    var b := ProcOf(s, p);
    forall path | path in b.descs ensures b.descs[path] != b.adm { assert HoldsPath(s.locks, b, path); }
  }

  lemma Admitted(start: State, s: State, p: Pid, roots: seq<Path>)
    requires Building(start, s, p) && ProcOf(s, p) == Waiting(roots, map[]) && Unheld(s, Admission)
    ensures var s1 := Happen(s, Step(p, true));
            Building(start, s1, p) && ProcOf(s1, p) == First(s.next, roots, 0, 0, map[])
  {
    hide Inv;
    HappenKeeps(s, Step(p, true));
  }

  /** Nobody holds the roots of a build, any directory above them, or the admission lock. */
  ghost predicate AllFree(s: State, roots: seq<Path>)
  {
    Unheld(s, Admission) &&
    forall i, k :: 0 <= i < |roots| && 0 <= k <= |roots[i]| ==> Unheld(s, Output(roots[i][..k]))
  }

  /** The build is live, every root is leased shared, and whoever is next can be admitted. */
  ghost predicate Leased(start: State, s: State, p: Pid, roots: seq<Path>)
  {
    && Inv(s) && Alone(start, s, p) && Unheld(s, Admission) && ProcOf(s, p).Live? && ProcOf(s, p).roots == roots
    && (forall r :: r in roots ==>
          && r in ProcOf(s, p).descs && ProcOf(s, p).descs[r] in s.locks
          && s.locks[ProcOf(s, p).descs[r]] == Held(Output(r), Shared))
    && forall r :: r in roots && NoneBelow(start.files, roots, r) ==> r in s.registered && r in s.files
  }

  /**
   * A build of any roots that nobody holds, left to itself, goes live with every root leased; the
   * roots with nothing below them are then registered as its own.
   */
  lemma BuildGoesLive(s: State, p: Pid, roots: seq<Path>) returns (s1: State)
    requires Inv(s) && ProcOf(s, p) == Idle && AllFree(s, roots)
    ensures Reaches(p, Happen(s, Build(p, roots)), s1) && Leased(s, s1, p, roots)
  {
    hide Building, Reaches, BuilderStep, Inv, Leased, AllFree;
    var s0 := Happen(s, Build(p, roots));
    Begins(s, p, roots);
    Admitted(s, s0, p, roots);
    var a := Happen(s0, Step(p, true));
    var b := FirstPass(s, a, p);
    var c := SecondPass(s, b, p);
    var d := DownPass(s, c, p);
    GoesLive(s, d, p);
    s1 := Happen(d, Step(p, true));
    ReachesSelf(p, s1);
    ReachesOne(p, d, Step(p, true), s1);
    ReachesOn(p, c, d, s1);
    ReachesOn(p, b, c, s1);
    ReachesOn(p, a, b, s1);
    ReachesOne(p, s0, Step(p, true), s1);
    LiveLeased(s, s1, p);
  }

  lemma Begins(s: State, p: Pid, roots: seq<Path>)
    requires Inv(s) && ProcOf(s, p) == Idle && AllFree(s, roots)
    ensures var s0 := Happen(s, Build(p, roots));
            Building(s, s0, p) && ProcOf(s0, p) == Waiting(roots, map[]) && Unheld(s0, Admission)
  {
    hide Inv;
    HappenKeeps(s, Build(p, roots));
  }

  lemma LiveLeased(start: State, s: State, p: Pid)
    requires Building(start, s, p) && ProcOf(s, p).Live? && Unheld(s, Admission)
    ensures Leased(start, s, p, ProcOf(s, p).roots)
  {
    hide SharedUse, Exclusion, Clear, Alone;
    assert Known(s, p);
    var b := ProcOf(s, p);
    forall r | r in b.roots
      ensures r in b.descs && b.descs[r] in s.locks && s.locks[b.descs[r]] == Held(Output(r), Shared)
    {
      assert HoldsPath(s.locks, b, r);
    }
  }

  /** A registered output that nobody holds can be cleaned. */
  lemma CleanGoesAhead(s: State, p: Pid, root: Path)
    requires Inv(s) && ProcOf(s, p) == Idle && root in s.registered && root in s.files
    requires Unheld(s, Admission) && Unheld(s, Output(root))
    ensures var s1 := Happen(Happen(Happen(s, Clean(p, root)), Step(p, true)), Step(p, true));
            && ProcOf(s1, p) == Cleaning(s.next, s.next + 1, root)
            && s1.locks == s.locks[s.next := Held(Admission, Exclusive)][s.next + 1 := Held(Output(root), Exclusive)]
  {
    hide Inv;
    var a := Happen(s, Clean(p, root));
    HappenKeeps(s, Clean(p, root));
    CleanerWaits(a, p, root);
    var b := Happen(a, Step(p, true));
    HappenKeeps(a, Step(p, true));
    CleanerStarts(b, p, s.next, root);
  }

  /** Once a build that began alone is left, nothing is locked. */
  lemma NothingLocked(s: State, p: Pid, roots: seq<Path>)
    requires Leased(EMPTY, s, p, roots)
    ensures Exit(s, p).locks == map[] && forall q :: ProcOf(Exit(s, p), q) == Idle
  {
    hide Inv;
    assert forall q :: q in s.procs ==> ProcOf(s, q) == s.procs[q];
  }

  lemma LeftClean(root: Path, s: State)
    requires Leased(EMPTY, s, 0, [root])
    ensures var s1 := Happen(s, Leave(0));
            && Inv(s1) && ProcOf(s1, 1) == Idle && root in s1.registered && root in s1.files
            && Unheld(s1, Admission) && Unheld(s1, Output(root))
  {
    hide Inv, Alone;
    NothingLocked(s, 0, [root]);
    HappenKeeps(s, Leave(0));
    assert root in [root] && NoneBelow(EMPTY.files, [root], root);
  }

  /** From nothing, any output can be built, left, and cleaned. */
  lemma CleaningReached(root: Path) returns (events: seq<Event>)
    ensures var s := Run(EMPTY, events);
            && ProcOf(s, 1).Cleaning? && ProcOf(s, 1).root == root
            && ProcOf(s, 1).out in s.locks && s.locks[ProcOf(s, 1).out] == Held(Output(root), Exclusive)
  {
    hide Inv, Happen, Leased, Alone, Holds;
    EmptyInv();
    var live := BuildGoesLive(EMPTY, 0, [root]);
    var started := Happen(EMPTY, Build(0, [root]));
    var steps :| By(0, steps) && Run(started, steps) == live;
    LeftClean(root, live);
    var left := Happen(live, Leave(0));
    CleanGoesAhead(left, 1, root);
    events := [Build(0, [root])] + steps + [Leave(0)] + [Clean(1, root)] + [Step(1, true)] + [Step(1, true)];
    RunOne(EMPTY, Build(0, [root]));
    RunConcat(EMPTY, [Build(0, [root])], steps);
    RunSnoc(EMPTY, [Build(0, [root])] + steps, Leave(0));
    RunSnoc(EMPTY, [Build(0, [root])] + steps + [Leave(0)], Clean(1, root));
    RunSnoc(EMPTY, [Build(0, [root])] + steps + [Leave(0)] + [Clean(1, root)], Step(1, true));
    RunSnoc(EMPTY, [Build(0, [root])] + steps + [Leave(0)] + [Clean(1, root)] + [Step(1, true)], Step(1, true));
  }

  lemma RunOne(s: State, e: Event)
    ensures Run(s, [e]) == Happen(s, e)
  {
    hide Happen;
    assert [e][..0] == [];
  }

  lemma RunSnoc(s: State, events: seq<Event>, e: Event)
    ensures Run(s, events + [e]) == Happen(Run(s, events), e)
  {
    hide Happen;
    assert (events + [e])[..|events|] == events;
  }
}
