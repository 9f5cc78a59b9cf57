/** Builders and cleaners never overlap on an output: in every interleaving of the protocol. */
module BuildLeaseSafety {
  import opened Bytes
  import opened BuildLease

  /** Two descriptions share a lock only if both hold it shared. */
  ghost predicate Exclusion(locks: map<Ofd, Held>)
  {
    forall o1, o2 :: o1 in locks && o2 in locks && o1 != o2 && locks[o1].lock == locks[o2].lock ==>
      locks[o1].mode == Shared && locks[o2].mode == Shared
  }

  predicate HasAdmission(b: Proc) { b.First? || b.Second? || b.Down? || b.CleanAdmitted? || b.Cleaning? }

  /** What a builder holds on one of its paths: nothing in the middle of a downgrade, else its lock. */
  predicate HoldsPath(locks: map<Ofd, Held>, b: Proc, path: Path)
    requires IsBuilder(b) && path in b.descs
  {
    var o := b.descs[path];
    if b.Down? && b.pending == Some(path) then o !in locks
    else
      && o in locks && locks[o].lock == Output(path)
      && (b.Waiting? || b.Live? || (b.Down? && path !in b.todo) ==> locks[o].mode == Shared)
  }

  ghost predicate Holds(locks: map<Ofd, Held>, b: Proc)
  {
    && (HasAdmission(b) ==> b.adm in locks && locks[b.adm] == Held(Admission, Exclusive))
    && (IsBuilder(b) ==> forall path :: path in b.descs ==> HoldsPath(locks, b, path))
    && (b.Down? ==> b.todo <= b.descs.Keys)
    && (b.Down? && b.pending.Some? ==> b.pending.value in b.descs && b.pending.value !in b.todo)
    && (b.Cleaning? ==> b.out in locks && locks[b.out] == Held(Output(b.root), Exclusive))
    && (b.Onlooker? ==> b.out in locks && locks[b.out] == Held(Output(b.root), b.mode))
  }

  /** The roots leased so far. */
  ghost predicate Covers(b: Proc)
  {
    match b
    case First(_, roots, i, _, descs) => i <= |roots| && forall j :: 0 <= j < i ==> roots[j] in descs
    case Second(_, roots, i, _, descs) => i <= |roots| && forall j :: 0 <= j < |roots| ==> roots[j] in descs
    case Down(_, roots, _, _, descs) => forall j :: 0 <= j < |roots| ==> roots[j] in descs
    case Live(roots, descs) => forall j :: 0 <= j < |roots| ==> roots[j] in descs
    case _ => true
  }

  /** A description used by two processes is held shared. */
  ghost predicate SharedUse(s: State, p: Pid)
  {
    forall q, o :: q != p && o in Uses(ProcOf(s, p)) && o in Uses(ProcOf(s, q)) ==>
      o in s.locks && s.locks[o].mode == Shared
  }

  ghost predicate Known(s: State, p: Pid)
  {
    && Holds(s.locks, ProcOf(s, p)) && Covers(ProcOf(s, p)) && SharedUse(s, p)
    && forall o :: o in Uses(ProcOf(s, p)) ==> o < s.next
  }

  ghost predicate Inv(s: State)
  {
    && Exclusion(s.locks) && (forall o :: o in s.locks ==> o < s.next)
    && forall p :: Known(s, p)
  }

  /** A step of `p` leaves the other processes and the descriptions they use alone. */
  ghost predicate Frame(s: State, s1: State, p: Pid)
  {
    && s.files <= s1.files && s.next <= s1.next
    && (forall q :: q != p ==> ProcOf(s1, q) == ProcOf(s, q))
    && (forall q, o :: q != p && o in Uses(ProcOf(s, q)) ==>
          (o in s1.locks <==> o in s.locks) && (o in s.locks ==> s1.locks[o] == s.locks[o]))
  }

  lemma HoldsDepends(locks: map<Ofd, Held>, locks1: map<Ofd, Held>, b: Proc)
    requires Holds(locks, b)
    requires forall o :: o in Uses(b) ==> (o in locks1 <==> o in locks) && (o in locks ==> locks1[o] == locks[o])
    ensures Holds(locks1, b)
  {
    if IsBuilder(b) {
      forall path | path in b.descs ensures HoldsPath(locks1, b, path) {
        assert b.descs[path] in b.descs.Values;
        assert HoldsPath(locks, b, path);
      }
    }
  }

  /** What is left to show after a step: that the stepping process itself is in order. */
  lemma FrameKeeps(s: State, s1: State, p: Pid)
    requires Inv(s) && Frame(s, s1, p) && Exclusion(s1.locks) && (forall o :: o in s1.locks ==> o < s1.next)
    requires Known(s1, p)
    ensures Inv(s1)
  {
    hide Holds, Covers, Uses, Exclusion;
    forall q ensures Known(s1, q) {
      if q != p {
        assert Known(s, q);
        HoldsDepends(s.locks, s1.locks, ProcOf(s, q));
        forall r, o | r != q && o in Uses(ProcOf(s1, q)) && o in Uses(ProcOf(s1, r))
          ensures o in s1.locks && s1.locks[o].mode == Shared
        {
          if r == p { assert SharedUse(s1, p); } else { assert SharedUse(s, q); }
        }
      }
    }
  }

  // ----------------------------------------------------------- kinds of step

  lemma TakeExclusion(s: State, lock: Lock, mode: Mode)
    requires Exclusion(s.locks) && (forall o :: o in s.locks ==> o < s.next) && Free(s, lock, mode)
    ensures Exclusion(Take(s, lock, mode).locks) && forall o :: o in Take(s, lock, mode).locks ==> o < s.next + 1
  {}

  lemma TakeFrame(s: State, files: set<Path>, p: Pid, lock: Lock, mode: Mode, b: Proc)
    requires Inv(s) && s.files <= files
    ensures Frame(s, Become(Take(s.(files := files), lock, mode), p, b), p)
  {
    hide Uses, Holds, Covers, Exclusion, SharedUse;
    forall q, o | q != p && o in Uses(ProcOf(s, q)) ensures o < s.next { assert Known(s, q); }
  }

  lemma BecomeFrame(s: State, p: Pid, b: Proc)
    ensures Frame(s, Become(s, p, b), p)
  {
    hide Uses;
  }

  /** Giving up every lock leaves the others in order. */
  lemma ExitKeeps(s: State, p: Pid)
    requires Inv(s)
    ensures Inv(Exit(s, p))
  {
    hide Holds, Covers, SharedUse, Uses;
    var s1 := Exit(s, p);
    CloseFrame(s, p, {}, Idle);
    CloseExclusion(s, p, {});
    IdleKnown(s1, p);
    FrameKeeps(s, s1, p);
  }

  lemma CloseExclusion(s: State, p: Pid, keep: set<Ofd>)
    requires Inv(s)
    ensures Exclusion(Close(s, p, keep)) && forall o :: o in Close(s, p, keep) ==> o < s.next
  {
    hide Known, Uses;
  }

  lemma CloseFrame(s: State, p: Pid, keep: set<Ofd>, b: Proc)
    ensures Frame(s, Become(s.(locks := Close(s, p, keep)), p, b), p)
  {
    hide Uses;
    forall q, o | q != p && o in Uses(ProcOf(s, q)) && o in s.locks ensures o in Close(s, p, keep) {
      if o in Uses(ProcOf(s, p)) { assert q in s.procs by { UsesNothing(s, q); } }
    }
  }

  lemma UsesNothing(s: State, q: Pid)
    ensures q !in s.procs ==> Uses(ProcOf(s, q)) == {}
  {}

  lemma IdleKnown(s: State, p: Pid)
    requires ProcOf(s, p).Idle? || ProcOf(s, p).CleanWait?
    ensures Known(s, p)
  {}

  lemma FilesKeep(s: State, files: set<Path>)
    requires Inv(s) && s.files <= files
    ensures Inv(s.(files := files))
  {
    hide Holds, Uses, Exclusion;
    var s1 := s.(files := files);
    forall p ensures Known(s1, p) {
      assert Known(s, p);
      assert SharedUse(s, p) ==> SharedUse(s1, p) by { assert forall q :: ProcOf(s1, q) == ProcOf(s, q); }
    }
  }

  lemma BecomeKeeps(s: State, p: Pid, b: Proc)
    requires Inv(s) && Holds(s.locks, b) && Covers(b) && Uses(b) <= Uses(ProcOf(s, p))
    ensures Inv(Become(s, p, b))
  {
    hide Holds, Covers, Uses, Exclusion;
    assert Known(s, p);
    BecomeFrame(s, p, b);
    FrameKeeps(s, Become(s, p, b), p);
  }

  lemma TakeKeeps(s: State, files: set<Path>, p: Pid, lock: Lock, mode: Mode, b: Proc)
    requires Inv(s) && s.files <= files && Free(s, lock, mode)
    requires var s1 := Take(s.(files := files), lock, mode); Holds(s1.locks, b) && Covers(b)
    requires Uses(b) <= Uses(ProcOf(s, p)) + {s.next}
    ensures Inv(Become(Take(s.(files := files), lock, mode), p, b))
  {
    hide Holds, Covers, Uses;
    var s1 := Become(Take(s.(files := files), lock, mode), p, b);
    assert Known(s, p);
    TakeExclusion(s, lock, mode);
    TakeFrame(s, files, p, lock, mode, b);
    forall q, o | q != p && o in Uses(b) && o in Uses(ProcOf(s1, q))
      ensures o in s1.locks && s1.locks[o].mode == Shared
    {
      assert Known(s, q);
      assert o < s.next;
      assert SharedUse(s, p);
    }
    FrameKeeps(s, s1, p);
  }

  /** A builder that adds a new description for `path` still holds everything else. */
  lemma AddHolds(s: State, p: Pid, path: Path, mode: Mode, b: Proc, b1: Proc)
    requires Inv(s) && b == ProcOf(s, p) && ((b.First? && b1.First?) || (b.Second? && b1.Second?))
    requires b1.adm == b.adm && path !in b.descs && b1.descs == b.descs[path := s.next]
    ensures Holds(Take(s, Output(path), mode).locks, b1)
    ensures Uses(b1) <= Uses(b) + {s.next}
  {
    hide Covers, SharedUse, Exclusion;
    assert Known(s, p);
    var locks1 := Take(s, Output(path), mode).locks;
    forall x | x in b1.descs ensures HoldsPath(locks1, b1, x) {
      if x != path { assert HoldsPath(s.locks, b, x) && b.descs[x] in b.descs.Values; }
    }
  }

  lemma SameHolds(locks: map<Ofd, Held>, b: Proc, b1: Proc)
    requires Holds(locks, b) && (b.First? || b.Second?) && (b1.First? || b1.Second?) && b1.adm == b.adm &&
             b1.descs == b.descs
    ensures Holds(locks, b1) && Uses(b1) == Uses(b)
  {
    forall path | path in b1.descs ensures HoldsPath(locks, b1, path) { assert HoldsPath(locks, b, path); }
  }

  lemma WaitingKeeps(s: State, p: Pid, vacant: bool)
    requires Inv(s) && ProcOf(s, p).Waiting?
    ensures Inv(BuilderStep(s, p, vacant))
  {
    hide SharedUse, Exclusion;
    var b := ProcOf(s, p);
    assert Known(s, p);
    if Free(s, Admission, Exclusive) {
      var b1 := First(s.next, b.roots, 0, 0, b.descs);
      var locks1 := Take(s, Admission, Exclusive).locks;
      forall path | path in b1.descs ensures HoldsPath(locks1, b1, path) {
        assert HoldsPath(s.locks, b, path) && b.descs[path] in b.descs.Values;
      }
      assert s.(files := s.files) == s;
      TakeKeeps(s, s.files, p, Admission, Exclusive, b1);
    }
  }

  lemma FirstKeeps(s: State, p: Pid, vacant: bool)
    requires Inv(s) && ProcOf(s, p).First?
    ensures Inv(BuilderStep(s, p, vacant))
  {
    hide SharedUse, Exclusion, Holds, Uses, Inv;
    var b := ProcOf(s, p);
    InvKnown(s, p);
    assert s.(files := s.files) == s;
    var First(adm, roots, i, k, descs) := b;
    if i >= |roots| {
      var b1 := Second(adm, roots, 0, 0, descs);
      SameHolds(s.locks, b, b1);
      BecomeKeeps(s, p, b1);
    } else {
      var path := roots[i];
      if k < |path| {
        match AncestorStep(s, path[..k], descs)
        case Skip =>
          SameHolds(s.locks, b, First(adm, roots, i, k + 1, descs));
          BecomeKeeps(s, p, First(adm, roots, i, k + 1, descs));
        case Lease =>
          var b1 := First(adm, roots, i, k + 1, descs[path[..k] := s.next]);
          AddHolds(s, p, path[..k], Shared, b, b1);
          TakeKeeps(s, s.files, p, Output(path[..k]), Shared, b1);
        case Blocked => ExitKeeps(s, p);
      } else if path in descs {
        SameHolds(s.locks, b, First(adm, roots, i + 1, 0, descs));
        BecomeKeeps(s, p, First(adm, roots, i + 1, 0, descs));
      } else {
        LockRootKeeps(s, p, vacant);
      }
    }
  }

  lemma InvKnown(s: State, p: Pid)
    requires Inv(s)
    ensures Known(s, p)
  {}

  /** What is registered does not bear on the locks. */
  lemma RegisteredKeeps(s: State, registered: set<Path>)
    requires Inv(s)
    ensures Inv(s.(registered := registered))
  {
    hide Holds, Covers, Uses, Exclusion;
    var s1 := s.(registered := registered);
    forall p ensures Known(s1, p) {
      assert Known(s, p);
      assert forall q :: ProcOf(s1, q) == ProcOf(s, q);
    }
  }

  lemma LockRootKeeps(s: State, p: Pid, vacant: bool)
    requires Inv(s) && ProcOf(s, p).First?
    requires var b := ProcOf(s, p); b.i < |b.roots| && b.k >= |b.roots[b.i]| && b.roots[b.i] !in b.descs
    ensures Inv(BuilderStep(s, p, vacant))
  {
    hide SharedUse, Exclusion, Holds, Uses, Inv, Claimed;
    var b := ProcOf(s, p);
    InvKnown(s, p);
    var path, files := b.roots[b.i], s.files + {b.roots[b.i]};
    var b1 := First(b.adm, b.roots, b.i + 1, 0, b.descs[path := s.next]);
    if Free(s, Output(path), Exclusive) {
      AddHolds(s, p, path, Exclusive, b, b1);
      TakeKeeps(s, files, p, Output(path), Exclusive, b1);
      RegisteredKeeps(Become(Take(s.(files := files), Output(path), Exclusive), p, b1), Claimed(s, path, vacant));
    } else if Free(s, Output(path), Shared) && path in s.registered {
      AddHolds(s, p, path, Shared, b, b1);
      TakeKeeps(s, files, p, Output(path), Shared, b1);
    } else {
      FilesKeep(s, files);
      ExitKeeps(s.(files := files), p);
    }
  }

  lemma SecondKeeps(s: State, p: Pid, vacant: bool)
    requires Inv(s) && ProcOf(s, p).Second?
    ensures Inv(BuilderStep(s, p, vacant))
  {
    hide SharedUse, Exclusion, Holds, Uses, Inv;
    var b := ProcOf(s, p);
    InvKnown(s, p);
    assert s.(files := s.files) == s;
    var Second(adm, roots, i, k, descs) := b;
    if i >= |roots| {
      var b1 := Down(adm, roots, descs.Keys, None, descs);
      DownHolds(s.locks, b, b1);
      BecomeKeeps(s, p, b1);
    } else {
      var path := roots[i];
      if k < |path| {
        match AncestorStep(s, path[..k], descs)
        case Skip =>
          SameHolds(s.locks, b, Second(adm, roots, i, k + 1, descs));
          BecomeKeeps(s, p, Second(adm, roots, i, k + 1, descs));
        case Lease =>
          var b1 := Second(adm, roots, i, k + 1, descs[path[..k] := s.next]);
          AddHolds(s, p, path[..k], Shared, b, b1);
          TakeKeeps(s, s.files, p, Output(path[..k]), Shared, b1);
        case Blocked => ExitKeeps(s, p);
      } else {
        SameHolds(s.locks, b, Second(adm, roots, i + 1, 0, descs));
        BecomeKeeps(s, p, Second(adm, roots, i + 1, 0, descs));
      }
    }
  }

  lemma DownHolds(locks: map<Ofd, Held>, b: Proc, b1: Proc)
    requires Holds(locks, b) && b.Second? && b1.Down? && b1.adm == b.adm && b1.descs == b.descs &&
             b1.todo == b.descs.Keys && b1.pending == None
    ensures Holds(locks, b1) && Uses(b1) == Uses(b)
  {
    forall path | path in b1.descs ensures HoldsPath(locks, b1, path) { assert HoldsPath(locks, b, path); }
  }

  /** Turning the last lock shared: the builder re-acquires the path it had dropped. */
  lemma ReacquireKeeps(s: State, p: Pid)
    requires Inv(s) && ProcOf(s, p).Down? && ProcOf(s, p).pending.Some?
    ensures Inv(DownStep(s, p))
  {
    hide Covers;
    var b := ProcOf(s, p);
    var path := b.pending.value;
    assert Known(s, p);
    if Free(s, Output(path), Shared) {
      var o, s1 := b.descs[path], DownStep(s, p);
      assert o in b.descs.Values && HoldsPath(s.locks, b, path);
      var b1 := b.(pending := None);
      forall x | x in b1.descs ensures HoldsPath(s1.locks, b1, x) { assert HoldsPath(s.locks, b, x); }
      forall q, r | q != p && r in Uses(ProcOf(s, q)) ensures r != o {
        assert SharedUse(s, p);
      }
      assert Frame(s, s1, p);
      CoversPending(b);
      assert Exclusion(s1.locks);
      SharedSubset(s, s1, p);
      assert Holds(s1.locks, b1);
      FrameKeeps(s, s1, p);
    }
  }

  lemma CoversPending(b: Proc)
    requires b.Down? && Covers(b)
    ensures forall todo, pending :: Covers(b.(todo := todo, pending := pending))
    ensures Covers(Live(b.roots, b.descs))
  {}

  /** If nobody else's descriptions changed, and what we use only shrank, sharing is as before. */
  lemma SharedSubset(s: State, s1: State, p: Pid)
    requires SharedUse(s, p) && Frame(s, s1, p) && Uses(ProcOf(s1, p)) <= Uses(ProcOf(s, p))
    ensures SharedUse(s1, p)
  {
    hide Uses;
  }

  lemma PickKeeps(s: State, p: Pid, path: Path)
    requires Inv(s)
    ensures Inv(DownPick(s, p, path))
  {
    hide Covers;
    var b := ProcOf(s, p);
    var s1 := DownPick(s, p, path);
    if b.Down? && b.pending.None? && path in b.todo && path in b.descs && b.descs[path] in s.locks {
      assert Known(s, p);
      var o := b.descs[path];
      assert o in b.descs.Values && HoldsPath(s.locks, b, path);
      var b1 := ProcOf(s1, p);
      forall x | x in b1.descs ensures HoldsPath(s1.locks, b1, x) {
        assert HoldsPath(s.locks, b, x);
      }
      if s.locks[o].mode != Shared {
        forall q, r | q != p && r in Uses(ProcOf(s, q)) ensures r != o {
          assert SharedUse(s, p);
        }
      }
      assert Frame(s, s1, p);
      CoversPending(b);
      SharedSubset(s, s1, p);
      assert Holds(s1.locks, b1);
      FrameKeeps(s, s1, p);
    }
  }

  lemma GoLiveKeeps(s: State, p: Pid)
    requires Inv(s) && ProcOf(s, p).Down? && ProcOf(s, p).pending.None? && ProcOf(s, p).todo == {}
    ensures Inv(DownStep(s, p))
  {
    hide Covers, Exclusion;
    var b, s1 := ProcOf(s, p), DownStep(s, p);
    assert Known(s, p);
    CloseFrame(s, p, b.descs.Values, Live(b.roots, b.descs));
    CloseExclusion(s, p, b.descs.Values);
    CoversPending(b);
    forall path | path in b.descs ensures HoldsPath(s1.locks, ProcOf(s1, p), path) {
      assert HoldsPath(s.locks, b, path) && b.descs[path] in b.descs.Values;
    }
    SharedSubset(s, s1, p);
    FrameKeeps(s, s1, p);
  }

  lemma BuilderKeeps(s: State, p: Pid, vacant: bool)
    requires Inv(s) && IsBuilder(ProcOf(s, p))
    ensures Inv(BuilderStep(s, p, vacant))
  {
    hide Inv, AncestorStep, DownStep;
    match ProcOf(s, p)
    case Waiting(_, _) => WaitingKeeps(s, p, vacant);
    case First(_, _, _, _, _) => FirstKeeps(s, p, vacant);
    case Second(_, _, _, _, _) => SecondKeeps(s, p, vacant);
    case Down(_, _, todo, pending, _) =>
      if pending.Some? { ReacquireKeeps(s, p); } else if todo == {} { GoLiveKeeps(s, p); } else { DownWaits(s, p); }
    case _ =>
  }

  lemma DownWaits(s: State, p: Pid)
    requires ProcOf(s, p).Down? && ProcOf(s, p).pending.None? && ProcOf(s, p).todo != {}
    ensures DownStep(s, p) == s
  {}

  lemma CleanerKeeps(s: State, p: Pid)
    requires Inv(s)
    ensures Inv(CleanerStep(s, p))
  {
    hide SharedUse, Exclusion;
    var b := ProcOf(s, p);
    assert Known(s, p);
    assert s.(files := s.files) == s;
    ExitKeeps(s, p);
    if b.CleanWait? && Free(s, Admission, Exclusive) {
      TakeKeeps(s, s.files, p, Admission, Exclusive, CleanAdmitted(s.next, b.root));
    }
    if b.CleanAdmitted? && b.root in s.files && Free(s, Output(b.root), Exclusive) {
      TakeKeeps(s, s.files, p, Output(b.root), Exclusive, Cleaning(b.adm, s.next, b.root));
    }
  }

  lemma SpawnKeeps(s: State, p: Pid, parent: Pid, roots: seq<Path>)
    requires Inv(s) && p != parent && ProcOf(s, p).Idle? && ProcOf(s, parent).Live?
    ensures Inv(Become(s, p, Waiting(roots, ProcOf(s, parent).descs)))
  {
    hide Exclusion;
    var d := ProcOf(s, parent);
    var b, s1 := Waiting(roots, d.descs), Become(s, p, Waiting(roots, d.descs));
    assert Known(s, parent);
    forall path | path in b.descs ensures HoldsPath(s.locks, b, path) { assert HoldsPath(s.locks, d, path); }
    BecomeFrame(s, p, b);
    forall q, o | q != p && o in Uses(b) && o in Uses(ProcOf(s1, q)) ensures o in s.locks && s.locks[o].mode == Shared {
      var path :| path in d.descs && d.descs[path] == o;
      assert HoldsPath(s.locks, d, path);
    }
    FrameKeeps(s, s1, p);
  }

  lemma LookKeeps(s: State, p: Pid, root: Path, mode: Mode)
    requires Inv(s) && ProcOf(s, p).Idle? && Free(s, Output(root), mode)
    ensures Inv(Become(Take(s, Output(root), mode), p, Onlooker(s.next, root, mode)))
  {
    hide SharedUse, Exclusion;
    assert s.(files := s.files) == s;
    TakeKeeps(s, s.files, p, Output(root), mode, Onlooker(s.next, root, mode));
  }

  lemma StartKeeps(s: State, p: Pid, b: Proc)
    requires Inv(s) && ProcOf(s, p).Idle? && (b.CleanWait? || (b.Waiting? && b.descs == map[]))
    ensures Inv(Become(s, p, b))
  {
    hide SharedUse, Exclusion;
    BecomeKeeps(s, p, b);
  }

  lemma HappenKeeps(s: State, e: Event)
    requires Inv(s)
    ensures Inv(Happen(s, e))
  {
    hide Inv, BuilderStep, CleanerStep, DownPick, Exit;
    match e
    case Build(p, roots) => if ProcOf(s, p).Idle? { StartKeeps(s, p, Waiting(roots, map[])); }
    case Spawn(p, parent, roots) =>
      if p != parent && ProcOf(s, p).Idle? && ProcOf(s, parent).Live? { SpawnKeeps(s, p, parent, roots); }
    case Clean(p, root) => if ProcOf(s, p).Idle? && root in s.registered { StartKeeps(s, p, CleanWait(root)); }
    case Look(p, root, mode) =>
      if ProcOf(s, p).Idle? && root in s.files && Free(s, Output(root), mode) { LookKeeps(s, p, root, mode); }
    case Step(p, vacant) => if IsBuilder(ProcOf(s, p)) { BuilderKeeps(s, p, vacant); } else { CleanerKeeps(s, p); }
    case Pick(p, path) => PickKeeps(s, p, path);
    case Leave(p) => ExitKeeps(s, p);
    case Foreign(path) => FilesKeep(s, s.files + {path});
  }

  lemma {:induction false} RunKeeps(s: State, events: seq<Event>)
    requires Inv(s)
    ensures Inv(Run(s, events))
    decreases |events|
  {
    hide Inv, Happen;
    if events != [] {
      RunKeeps(s, events[..|events| - 1]);
      HappenKeeps(Run(s, events[..|events| - 1]), events[|events| - 1]);
    }
  }

  /**
   * In every interleaving: no cleaner is inside its checks-and-delete section for an output that a
   * builder holds, from the moment the builder has locked it, through the downgrade, to the end of
   * the build, and the same for a build started by a build.
   */
  lemma LeaseExcludesClean(events: seq<Event>, c: Pid, b: Pid)
    requires ProcOf(Run(EMPTY, events), c).Cleaning? && IsBuilder(ProcOf(Run(EMPTY, events), b))
    ensures ProcOf(Run(EMPTY, events), c).root !in ProcOf(Run(EMPTY, events), b).descs
  {
    hide Run, Covers, SharedUse;
    EmptyInv();
    RunKeeps(EMPTY, events);
    var s := Run(EMPTY, events);
    var cleaner, builder := ProcOf(s, c), ProcOf(s, b);
    assert Known(s, c) && Known(s, b);
    if cleaner.root in builder.descs {
      assert HoldsPath(s.locks, builder, cleaner.root);
      if HasAdmission(builder) { SameAdmission(s, b, c); }
    }
  }

  lemma EmptyInv()
    ensures Inv(EMPTY)
  {
    forall p ensures Known(EMPTY, p) { IdleKnown(EMPTY, p); }
  }

  /** Only one process at a time is past the admission lock. */
  lemma SameAdmission(s: State, p: Pid, q: Pid)
    requires Inv(s) && HasAdmission(ProcOf(s, p)) && HasAdmission(ProcOf(s, q))
    ensures p == q
  {
    hide Covers;
    assert Known(s, p) && Known(s, q);
    var a, b := ProcOf(s, p).adm, ProcOf(s, q).adm;
    assert a == b;
    assert a in Uses(ProcOf(s, p)) && a in Uses(ProcOf(s, q));
  }
}
