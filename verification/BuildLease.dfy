/**
 * The build-output lease and cleanup protocol: builders, cleaners and onlookers as processes that
 * step over one table of advisory file locks. Locks belong to open file descriptions, which a
 * builder passes on to the builds it starts; every check the script makes may refuse.
 */
module BuildLease {
  import opened Bytes

  type Path = seq<string>
  type Pid = nat
  type Ofd = nat

  datatype Lock = Admission | Output(path: Path)
  datatype Mode = Shared | Exclusive
  datatype Held = Held(lock: Lock, mode: Mode)

  /** What a builder knows: what it must lease, what it holds, and how far it is. */
  datatype Proc =
    | Idle
    | Waiting(roots: seq<Path>, descs: map<Path, Ofd>)
    | First(adm: Ofd, roots: seq<Path>, i: nat, k: nat, descs: map<Path, Ofd>)
    | Second(adm: Ofd, roots: seq<Path>, i: nat, k: nat, descs: map<Path, Ofd>)
    | Down(adm: Ofd, roots: seq<Path>, todo: set<Path>, pending: Option<Path>, descs: map<Path, Ofd>)
    | Live(roots: seq<Path>, descs: map<Path, Ofd>)
    | CleanWait(root: Path)
    | CleanAdmitted(adm: Ofd, root: Path)
    | Cleaning(adm: Ofd, out: Ofd, root: Path)
    | Onlooker(out: Ofd, root: Path, mode: Mode)

  /**
   * `files` are the outputs whose lock file exists, beside the output in its parent directory;
   * nobody deletes them. `registered` are the outputs with an ownership receipt.
   */
  datatype State = State(
    files: set<Path>, registered: set<Path>, locks: map<Ofd, Held>, procs: map<Pid, Proc>, next: Ofd)

  const EMPTY := State({}, {}, map[], map[], 0)

  function ProcOf(s: State, p: Pid): Proc { if p in s.procs then s.procs[p] else Idle }

  predicate IsBuilder(b: Proc) { b.Waiting? || b.First? || b.Second? || b.Down? || b.Live? }

  function Uses(b: Proc): set<Ofd>
  {
    match b
    case Idle | CleanWait(_) => {}
    case Waiting(_, descs) => descs.Values
    case First(adm, _, _, _, descs) => {adm} + descs.Values
    case Second(adm, _, _, _, descs) => {adm} + descs.Values
    case Down(adm, _, _, _, descs) => {adm} + descs.Values
    case Live(_, descs) => descs.Values
    case CleanAdmitted(adm, _) => {adm}
    case Cleaning(adm, out, _) => {adm, out}
    case Onlooker(out, _, _) => {out}
  }

  /** Could a new description take `lock` in `mode` now? */
  predicate Free(s: State, lock: Lock, mode: Mode)
  {
    forall o :: o in s.locks && s.locks[o].lock == lock ==> mode == Shared && s.locks[o].mode == Shared
  }

  function Become(s: State, p: Pid, b: Proc): State { s.(procs := s.procs[p := b]) }

  /** Open a lock file and lock it; the new description is `s.next`. */
  function Take(s: State, lock: Lock, mode: Mode): State
  {
    s.(locks := s.locks[s.next := Held(lock, mode)], next := s.next + 1)
  }

  predicate UsedElsewhere(s: State, p: Pid, o: Ofd)
  {
    exists q :: q in s.procs && q != p && o in Uses(s.procs[q])
  }

  /** Close everything `p` holds; a lock goes when its last user closes it. */
  function Close(s: State, p: Pid, keep: set<Ofd>): map<Ofd, Held>
  {
    map o | o in s.locks && (o !in Uses(ProcOf(s, p)) || o in keep || UsedElsewhere(s, p, o)) :: s.locks[o]
  }

  function Exit(s: State, p: Pid): State { Become(s.(locks := Close(s, p, {})), p, Idle) }

  // --------------------------------------------------------------- builders

  /** One ancestor of a root: lease it if its lock file exists and we do not hold it already. */
  datatype Ancestor = Skip | Lease | Blocked

  function AncestorStep(s: State, ancestor: Path, descs: map<Path, Ofd>): Ancestor
  {
    if ancestor in descs || ancestor !in s.files then Skip
    else if Free(s, Output(ancestor), Shared) then Lease
    else Blocked
  }

  predicate Below(path: Path, ancestor: Path) { |ancestor| < |path| && path[..|ancestor|] == ancestor }

  /**
   * Claiming an output under its exclusive lock. One that has a receipt keeps it; any other gets
   * one only if its directory is `vacant`, which it is not if a lock file lies below it. An
   * output left unclaimed may still be built in, or the builder gives up.
   */
  function Claimed(s: State, path: Path, vacant: bool): set<Path>
  {
    if vacant && forall f :: f in s.files ==> !Below(f, path) then s.registered + {path} else s.registered
  }

  /** Lock an output as its only user and claim it, or share it with users who have claimed it. */
  function LockRoot(s: State, p: Pid, path: Path, vacant: bool, next: Proc): State
  {
    var made := s.(files := s.files + {path});
    if Free(s, Output(path), Exclusive)
    then Become(Take(made, Output(path), Exclusive), p, next).(registered := Claimed(s, path, vacant))
    else if Free(s, Output(path), Shared) && path in s.registered then Become(Take(made, Output(path), Shared), p, next)
    else Exit(made, p)
  }

  function BuilderStep(s: State, p: Pid, vacant: bool): State
  {
    match ProcOf(s, p)
    case Waiting(roots, descs) =>
      if Free(s, Admission, Exclusive)
      then Become(Take(s, Admission, Exclusive), p, First(s.next, roots, 0, 0, descs)) else s
    case First(adm, roots, i, k, descs) =>
      if i >= |roots| then Become(s, p, Second(adm, roots, 0, 0, descs))
      else
        var path := roots[i];
        if k < |path| then
          match AncestorStep(s, path[..k], descs)
          case Skip => Become(s, p, First(adm, roots, i, k + 1, descs))
          case Lease =>
            Become(Take(s, Output(path[..k]), Shared), p, First(adm, roots, i, k + 1, descs[path[..k] := s.next]))
          case Blocked => Exit(s, p)
        else if path in descs then Become(s, p, First(adm, roots, i + 1, 0, descs))
        else LockRoot(s, p, path, vacant, First(adm, roots, i + 1, 0, descs[path := s.next]))
    case Second(adm, roots, i, k, descs) =>
      if i >= |roots| then Become(s, p, Down(adm, roots, descs.Keys, None, descs))
      else
        var path := roots[i];
        if k < |path| then
          match AncestorStep(s, path[..k], descs)
          case Skip => Become(s, p, Second(adm, roots, i, k + 1, descs))
          case Lease =>
            Become(Take(s, Output(path[..k]), Shared), p, Second(adm, roots, i, k + 1, descs[path[..k] := s.next]))
          case Blocked => Exit(s, p)
        else Become(s, p, Second(adm, roots, i + 1, 0, descs))
    case Down(adm, roots, todo, pending, descs) => DownStep(s, p)
    case _ => s
  }

  /**
   * Turning an exclusive lock into a shared one is not atomic: the lock is dropped, then asked for
   * again, which waits. When nothing is left to turn, the admission lock is released.
   */
  function DownStep(s: State, p: Pid): State
    requires ProcOf(s, p).Down?
  {
    var b := ProcOf(s, p);
    if b.pending.Some? then
      var path := b.pending.value;
      if path !in b.descs || !Free(s, Output(path), Shared) then s
      else Become(s.(locks := s.locks[b.descs[path] := Held(Output(path), Shared)]), p, b.(pending := None))
    else if b.todo == {} then Become(s.(locks := Close(s, p, b.descs.Values)), p, Live(b.roots, b.descs))
    else s
  }

  /** Start on one of the paths still to be turned into shared; one that is shared stays as it is. */
  function DownPick(s: State, p: Pid, path: Path): State
  {
    var b := ProcOf(s, p);
    if !b.Down? || b.pending.Some? || path !in b.todo || path !in b.descs || b.descs[path] !in s.locks then s
    else if s.locks[b.descs[path]].mode == Shared then Become(s, p, b.(todo := b.todo - {path}))
    else Become(s.(locks := s.locks - {b.descs[path]}), p, b.(todo := b.todo - {path}, pending := Some(path)))
  }

  // --------------------------------------------------------------- cleaners

  function CleanerStep(s: State, p: Pid): State
  {
    match ProcOf(s, p)
    case CleanWait(root) =>
      if Free(s, Admission, Exclusive)
      then Become(Take(s, Admission, Exclusive), p, CleanAdmitted(s.next, root)) else Exit(s, p)
    case CleanAdmitted(adm, root) =>
      if root in s.files && Free(s, Output(root), Exclusive)
      then Become(Take(s, Output(root), Exclusive), p, Cleaning(adm, s.next, root)) else Exit(s, p)
    case _ => s
  }

  datatype Event =
    | Build(pid: Pid, roots: seq<Path>)
    | Spawn(pid: Pid, parent: Pid, roots: seq<Path>)
    | Clean(pid: Pid, root: Path)
    | Look(pid: Pid, root: Path, mode: Mode)
    | Step(pid: Pid, vacant: bool)
    | Pick(pid: Pid, path: Path)
    | Leave(pid: Pid)
    | Foreign(path: Path)

  /**
   * `Leave` is the end of a build or of a cleanup, or any refusal on the way. Only a registered
   * output is ever cleaned. `Look` is a status
   * query or another repository's process on one of the outputs; `Foreign` is a lock file another
   * repository creates.
   */
  function Happen(s: State, e: Event): State
  {
    match e
    case Build(p, roots) => if ProcOf(s, p).Idle? then Become(s, p, Waiting(roots, map[])) else s
    case Spawn(p, parent, roots) =>
      if p != parent && ProcOf(s, p).Idle? && ProcOf(s, parent).Live?
      then Become(s, p, Waiting(roots, ProcOf(s, parent).descs)) else s
    case Clean(p, root) => if ProcOf(s, p).Idle? && root in s.registered then Become(s, p, CleanWait(root)) else s
    case Look(p, root, mode) =>
      if ProcOf(s, p).Idle? && root in s.files && Free(s, Output(root), mode)
      then Become(Take(s, Output(root), mode), p, Onlooker(s.next, root, mode)) else s
    case Step(p, vacant) => if IsBuilder(ProcOf(s, p)) then BuilderStep(s, p, vacant) else CleanerStep(s, p)
    case Pick(p, path) => DownPick(s, p, path)
    case Leave(p) => Exit(s, p)
    case Foreign(path) => s.(files := s.files + {path})
  }

  function Run(s: State, events: seq<Event>): State
  {
    if events == [] then s else Happen(Run(s, events[..|events| - 1]), events[|events| - 1])
  }
}
