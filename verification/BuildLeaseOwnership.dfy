/** No cleaner ever works above a path that a builder holds: receipts close the gap the locks leave. */
module BuildLeaseOwnership {
  import opened BuildLease
  import opened BuildLeaseSafety

  /** Whatever is registered above a held path is held too. */
  ghost predicate Closed(descs: map<Path, Ofd>, registered: set<Path>)
  {
    forall x, m: nat :: x in descs && m < |x| && x[..m] in registered ==> x[..m] in descs
  }

  /** A builder on its way down to a root holds what is registered above it so far. */
  ghost predicate Descends(b: Proc, registered: set<Path>)
  {
    (b.First? || b.Second?) && b.i < |b.roots| ==>
      forall m: nat :: m < b.k && m < |b.roots[b.i]| && b.roots[b.i][..m] in registered ==> b.roots[b.i][..m] in b.descs
  }

  predicate IsCleaner(b: Proc) { b.CleanWait? || b.CleanAdmitted? || b.Cleaning? }

  ghost predicate Entitled(s: State, b: Proc)
  {
    && (IsBuilder(b) ==> b.descs.Keys <= s.files && Closed(b.descs, s.registered) && Descends(b, s.registered))
    && (IsCleaner(b) ==> b.root in s.registered)
  }

  ghost predicate Owned(s: State)
  {
    s.registered <= s.files && forall p :: Entitled(s, ProcOf(s, p))
  }

  /** One process steps, and nothing new is registered. */
  ghost predicate OnlyMoves(s: State, s1: State, p: Pid)
  {
    && s.files <= s1.files && s1.registered == s.registered
    && forall q :: q != p ==> ProcOf(s1, q) == ProcOf(s, q)
  }

  lemma MoveKeeps(s: State, s1: State, p: Pid)
    requires Owned(s) && OnlyMoves(s, s1, p) && Entitled(s1, ProcOf(s1, p))
    ensures Owned(s1)
  {
    hide Closed, Descends;
    forall q ensures Entitled(s1, ProcOf(s1, q)) {
      if q != p { assert Entitled(s, ProcOf(s, q)); }
    }
  }

  lemma ExitOwned(s: State, p: Pid)
    requires Owned(s)
    ensures Owned(Exit(s, p))
  {
    hide Close, Closed, Descends;
    MoveKeeps(s, Exit(s, p), p);
  }

  lemma FilesOwned(s: State, files: set<Path>)
    requires Owned(s) && s.files <= files
    ensures Owned(s.(files := files))
  {
    hide Closed, Descends;
    var s1 := s.(files := files);
    forall p ensures Entitled(s1, ProcOf(s1, p)) { assert Entitled(s, ProcOf(s, p)); }
  }

  // ----------------------------------------------------------------- climbing

  /** A held ancestor keeps the held paths closed, because what is above it was settled before. */
  lemma LeaseCloses(b: Proc, b1: Proc, path: Path, k: nat, o: Ofd, registered: set<Path>)
    requires (b.First? || b.Second?) && b.i < |b.roots| && path == b.roots[b.i] && b.k == k < |path|
    requires Closed(b.descs, registered) && Descends(b, registered)
    requires (b1.First? || b1.Second?) && b1.roots == b.roots && b1.i == b.i && b1.k == k + 1
    requires b1.descs == b.descs[path[..k] := o]
    ensures Closed(b1.descs, registered) && Descends(b1, registered)
  {
    forall x, m: nat | x in b1.descs && m < |x| && x[..m] in registered ensures x[..m] in b1.descs {
      if x == path[..k] { assert x[..m] == path[..m]; } else { assert x in b.descs; }
    }
  }

  lemma SkipCloses(b: Proc, b1: Proc, path: Path, k: nat, registered: set<Path>)
    requires (b.First? || b.Second?) && b.i < |b.roots| && path == b.roots[b.i] && b.k == k < |path|
    requires Descends(b, registered) && (path[..k] in registered ==> path[..k] in b.descs)
    requires (b1.First? || b1.Second?) && b1.roots == b.roots && b1.i == b.i && b1.k == k + 1 && b1.descs == b.descs
    ensures Descends(b1, registered)
  {
    forall m: nat | m < k + 1 && m < |path| && path[..m] in registered ensures path[..m] in b.descs {
      if m != k { assert m < k; }
    }
  }

  /** The root itself, once everything above it is settled. */
  lemma RootCloses(b: Proc, path: Path, o: Ofd, registered: set<Path>)
    requires b.First? && b.i < |b.roots| && path == b.roots[b.i] && b.k >= |path|
    requires Closed(b.descs, registered) && Descends(b, registered)
    ensures Closed(b.descs[path := o], registered)
  {
    var descs := b.descs[path := o];
    forall x, m: nat | x in descs && m < |x| && x[..m] in registered ensures x[..m] in descs {
      if x != path { assert x in b.descs; }
    }
  }

  // -------------------------------------------------------------------- steps

  lemma AncestorOwned(s: State, p: Pid, vacant: bool)
    requires Owned(s) && (ProcOf(s, p).First? || ProcOf(s, p).Second?)
    requires var b := ProcOf(s, p); b.i < |b.roots| && b.k < |b.roots[b.i]|
    ensures Owned(BuilderStep(s, p, vacant))
  {
    hide Closed, Descends, Exit, Free;
    var b, s1 := ProcOf(s, p), BuilderStep(s, p, vacant);
    var path, k := b.roots[b.i], b.k;
    assert Entitled(s, b);
    match AncestorStep(s, path[..k], b.descs) {
      case Skip => {
        SkipCloses(b, ProcOf(s1, p), path, k, s.registered);
        MoveKeeps(s, s1, p);
      }
      case Lease => {
        LeaseCloses(b, ProcOf(s1, p), path, k, s.next, s.registered);
        MoveKeeps(s, s1, p);
      }
      case Blocked => { ExitOwned(s, p); }
    }
  }

  /** Registering a path concerns nobody else: no lock file lies below it, and nobody else is climbing. */
  lemma ClaimOwned(s: State, s1: State, p: Pid, path: Path, vacant: bool)
    requires Inv(s) && Owned(s) && HasAdmission(ProcOf(s, p)) && s1.files == s.files + {path}
    requires s1.registered == Claimed(s, path, vacant) && forall q :: q != p ==> ProcOf(s1, q) == ProcOf(s, q)
    requires Entitled(s1, ProcOf(s1, p))
    ensures Owned(s1)
  {
    hide Inv;
    forall q ensures Entitled(s1, ProcOf(s1, q)) {
      if q != p {
        var b := ProcOf(s, q);
        assert Entitled(s, b);
        if HasAdmission(b) { SameAdmission(s, p, q); }
        if IsBuilder(b) { ClaimCloses(s, b.descs, path, vacant); }
      }
    }
  }

  lemma ClaimCloses(s: State, descs: map<Path, Ofd>, path: Path, vacant: bool)
    requires descs.Keys <= s.files && Closed(descs, s.registered)
    ensures Closed(descs, Claimed(s, path, vacant))
  {
    forall x, m: nat | x in descs && m < |x| && x[..m] in Claimed(s, path, vacant) ensures x[..m] in descs {
      assert x in s.files && Below(x, x[..m]);
    }
  }

  lemma LockRootOwned(s: State, p: Pid, vacant: bool)
    requires Inv(s) && Owned(s) && ProcOf(s, p).First?
    requires var b := ProcOf(s, p); b.i < |b.roots| && b.k >= |b.roots[b.i]| && b.roots[b.i] !in b.descs
    ensures Owned(BuilderStep(s, p, vacant))
  {
    hide Inv, Free, Exit, Claimed, Closed, Descends;
    var b, s1 := ProcOf(s, p), BuilderStep(s, p, vacant);
    var path := b.roots[b.i];
    assert Entitled(s, b);
    RootCloses(b, path, s.next, s.registered);
    var b1 := First(b.adm, b.roots, b.i + 1, 0, b.descs[path := s.next]);
    if Free(s, Output(path), Exclusive) {
      ClaimedRoot(s, b1.descs, path, vacant);
      FreshDescends(b1, s1.registered);
      ClaimOwned(s, s1, p, path, vacant);
    } else if Free(s, Output(path), Shared) && path in s.registered {
      FreshDescends(b1, s1.registered);
      MoveKeeps(s, s1, p);
    } else {
      FilesOwned(s, s.files + {path});
      ExitOwned(s.(files := s.files + {path}), p);
    }
  }

  /** The claimed root is itself above nothing that is held. */
  lemma ClaimedRoot(s: State, descs: map<Path, Ofd>, path: Path, vacant: bool)
    requires descs.Keys <= s.files + {path} && Closed(descs, s.registered)
    ensures Closed(descs, Claimed(s, path, vacant))
  {
    forall x, m: nat | x in descs && m < |x| && x[..m] in Claimed(s, path, vacant) ensures x[..m] in descs {
      assert x != path ==> x in s.files && Below(x, x[..m]);
    }
  }

  lemma FreshDescends(b: Proc, registered: set<Path>)
    requires (b.First? || b.Second?) && b.k == 0
    ensures Descends(b, registered)
  {
  }

  lemma BuilderOwned(s: State, p: Pid, vacant: bool)
    requires Inv(s) && Owned(s) && IsBuilder(ProcOf(s, p))
    ensures Owned(BuilderStep(s, p, vacant))
  {
    hide Inv, Closed, Descends, Free, Close, Claimed, LockRoot, AncestorStep;
    var b, s1 := ProcOf(s, p), BuilderStep(s, p, vacant);
    assert Entitled(s, b);
    if (b.First? || b.Second?) && b.i < |b.roots| && b.k < |b.roots[b.i]| {
      AncestorOwned(s, p, vacant);
    } else if b.First? && b.i < |b.roots| && b.roots[b.i] !in b.descs {
      LockRootOwned(s, p, vacant);
    } else {
      var b1 := ProcOf(s1, p);
      if (b1.First? || b1.Second?) && b1.k == 0 { FreshDescends(b1, s.registered); }
      PlainStep(s, p, vacant);
      MoveKeeps(s, s1, p);
    }
  }

  /** The other steps leave the held paths as they are. */
  lemma PlainStep(s: State, p: Pid, vacant: bool)
    requires var b := ProcOf(s, p);
             && IsBuilder(b) && Descends(b, s.registered)
             && !((b.First? || b.Second?) && b.i < |b.roots| && b.k < |b.roots[b.i]|)
             && !(b.First? && b.i < |b.roots| && b.roots[b.i] !in b.descs)
    ensures var s1 := BuilderStep(s, p, vacant);
            && OnlyMoves(s, s1, p) && IsBuilder(ProcOf(s1, p)) && ProcOf(s1, p).descs == ProcOf(s, p).descs
            && s1.files == s.files && Descends(ProcOf(s1, p), s.registered)
  {
    hide Free, Close, LockRoot, AncestorStep;
  }

  lemma HappenOwned(s: State, e: Event)
    requires Inv(s) && Owned(s)
    ensures Owned(Happen(s, e))
  {
    hide Inv, BuilderStep, Exit, Closed, Free;
    match e {
      case Step(p, vacant) => {
        if IsBuilder(ProcOf(s, p)) { BuilderOwned(s, p, vacant); } else { CleanerOwned(s, p); }
      }
      case Leave(p) => { ExitOwned(s, p); }
      case Foreign(path) => { FilesOwned(s, s.files + {path}); }
      case Build(p, _) => { StartOwned(s, e, p); }
      case Spawn(p, _, _) => { StartOwned(s, e, p); }
      case Clean(p, _) => { StartOwned(s, e, p); }
      case Look(p, _, _) => { StartOwned(s, e, p); }
      case Pick(p, _) => { StartOwned(s, e, p); }
    }
  }

  lemma CleanerOwned(s: State, p: Pid)
    requires Owned(s)
    ensures Owned(CleanerStep(s, p))
  {
    hide Exit, Free, Closed, Descends;
    ExitOwned(s, p);
    assert Entitled(s, ProcOf(s, p));
    var s1 := CleanerStep(s, p);
    if s1 != Exit(s, p) { MoveKeeps(s, s1, p); }
  }

  lemma StartOwned(s: State, e: Event, p: Pid)
    requires Owned(s) && (e.Build? || e.Spawn? || e.Clean? || e.Look? || e.Pick?) && e.pid == p
    ensures Owned(Happen(s, e))
  {
    hide Exit, Free;
    assert Entitled(s, ProcOf(s, p));
    if e.Spawn? { assert Entitled(s, ProcOf(s, e.parent)); }
    var s1 := Happen(s, e);
    MoveKeeps(s, s1, p);
  }

  lemma {:induction false} RunOwned(events: seq<Event>)
    ensures Inv(Run(EMPTY, events)) && Owned(Run(EMPTY, events))
    decreases |events|
  {
    hide Inv, Happen;
    if events == [] {
      EmptyInv();
    } else {
      var front := events[..|events| - 1];
      RunOwned(front);
      HappenKeeps(Run(EMPTY, front), events[|events| - 1]);
      HappenOwned(Run(EMPTY, front), events[|events| - 1]);
    }
  }

  /**
   * In every interleaving no cleaner is at work on a path that a builder holds, nor on any
   * directory above one, whenever the lock file of that directory appeared.
   */
  lemma NothingAboveCleaned(events: seq<Event>, c: Pid, b: Pid, path: Path, m: nat)
    requires ProcOf(Run(EMPTY, events), c).Cleaning? && IsBuilder(ProcOf(Run(EMPTY, events), b))
    requires path in ProcOf(Run(EMPTY, events), b).descs && m <= |path|
    ensures ProcOf(Run(EMPTY, events), c).root != path[..m]
  {
    hide Run, Inv, Descends;
    RunOwned(events);
    var s := Run(EMPTY, events);
    assert Entitled(s, ProcOf(s, c)) && Entitled(s, ProcOf(s, b));
    LeaseExcludesClean(events, c, b);
    if m == |path| { assert path[..m] == path; }
  }

  /** So a live lease protects each of its roots and every directory above them. */
  lemma LiveLeaseProtects(events: seq<Event>, c: Pid, b: Pid, j: nat, m: nat)
    requires ProcOf(Run(EMPTY, events), c).Cleaning? && ProcOf(Run(EMPTY, events), b).Live?
    requires j < |ProcOf(Run(EMPTY, events), b).roots| && m <= |ProcOf(Run(EMPTY, events), b).roots[j]|
    ensures ProcOf(Run(EMPTY, events), c).root != ProcOf(Run(EMPTY, events), b).roots[j][..m]
  {
    hide Run, Holds, SharedUse, Exclusion;
    EmptyInv();
    RunKeeps(EMPTY, events);
    assert Known(Run(EMPTY, events), b);
    NothingAboveCleaned(events, c, b, ProcOf(Run(EMPTY, events), b).roots[j], m);
  }
}
