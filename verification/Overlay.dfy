/**
 * The `/agent` overlay as concurrent calls over one locked table. Every locked section and every
 * call to another file server is one atomic step; between its steps a call can be overtaken by
 * any number of others. `Advance` takes one call one step further.
 */
module Overlay {
  import opened Bytes

  type Fid = nat
  const ROOT: Fid := 0

  datatype Server = Proc | Agent(id: nat)

  /** A fid the overlay holds on one of the servers behind it. */
  datatype Handle = Handle(server: Server, number: nat)

  datatype Node =
    | Root
    | AgentRoot(pid: string, server: nat)
    | AgentChildren(pid: string)
    | AgentFile(pid: string, server: nat, number: nat)
    | ProcFile(number: nat, pid: string, names: seq<string>)

  function NodeHandles(node: Node): set<Handle>
  {
    match node
    case AgentFile(_, server, n) => {Handle(Agent(server), n)}
    case ProcFile(n, _, _) => {Handle(Proc, n)}
    case _ => {}
  }

  /** Where a call is. A walk still to validate a pid remembers whose child it must be. */
  datatype Call =
    | Done
    // walk
    | WalkCheck(fid: Fid, newfid: Fid, names: seq<string>)
    | WalkNode(fid: Fid, newfid: Fid, names: seq<string>)
    | Lookup(newfid: Fid, name: string, rest: seq<string>, parent: Option<string>)
    | CheckPid(newfid: Fid, pid: string, server: nat, rest: seq<string>, parent: Option<string>)
    | PidHeld(held: Handle, newfid: Fid, pid: string, server: nat, rest: seq<string>, parent: Option<string>)
    | ReadParent(newfid: Fid, pid: string, server: nat, rest: seq<string>, parent: Option<string>)
    | ParentHeld(held: Handle, newfid: Fid, pid: string, server: nat, rest: seq<string>, parent: Option<string>)
    | BackingWalk(newfid: Fid, pid: string, server: nat, rest: seq<string>)
    | ProcWalk(newfid: Fid, pid: string, bound: seq<string>)
    | QueryQid(newfid: Fid, node: Node)
    | ChildHeld(held: Handle, newfid: Fid, pid: string)
    | Insert(newfid: Fid, node: Node)
    | Release(held: Handle)
    // create
    | CreateCheck(fid: Fid, newfid: Fid, name: string)
    | CreateNode(fid: Fid, newfid: Fid, name: string)
    | CreateAgent(newfid: Fid, pid: string, server: nat)
    | CreateProc(newfid: Fid, pid: string, bound: seq<string>)
    | CreateFailed(unmade: Handle)
    | CreateInsert(newfid: Fid, node: Node)
    | Rollback(held: Handle)
    // clunk
    | ClunkEntry(fid: Fid)
    // registration of a process
    | BindParent(pid: string, server: nat)
    | BindHeld(held: Handle, pid: string, server: nat)
    | BindInsert(pid: string, server: nat)
    // listings (read and stat of an agent directory or its children)
    | ChildRead(pid: string)
    | ChildReadHeld(held: Handle, pid: string)
    | ListNode(fid: Fid)
    | ListBacking(pid: string, server: nat)
    | ListProc(pid: string)
    | ListOpen(held: Handle, next: Option<string>)
    | ListStat(held: Handle, next: Option<string>)
    | ListClunk(held: Handle, next: Option<string>)

  function Holding(c: Call): set<Handle>
  {
    match c
    case PidHeld(h, _, _, _, _, _) => {h}
    case ParentHeld(h, _, _, _, _, _) => {h}
    case QueryQid(_, node) => NodeHandles(node)
    case ChildHeld(h, _, _) => {h}
    case Insert(_, node) => NodeHandles(node)
    case Release(h) => {h}
    case CreateInsert(_, node) => NodeHandles(node)
    case Rollback(h) => {h}
    case BindHeld(h, _, _) => {h}
    case ChildReadHeld(h, _) => {h}
    case ListOpen(h, _) => {h}
    case ListStat(h, _) => {h}
    case ListClunk(h, _) => {h}
    case _ => {}
  }

  type Tid = nat

  datatype State = State(
    agents: map<string, nat>, rootPid: Option<string>,
    fids: map<Fid, Node>,
    nextBacking: nat, nextProc: nat,
    live: set<Handle>, leaked: set<Handle>,
    calls: map<Tid, Call>)

  /** How the server behind the overlay answers: it may refuse anything. */
  datatype Reply = Yes | No | More

  predicate IsProcOverlayName(name: string)
  {
    name in {"status", "parent", "credentials", "exit", "ctl", "namespace", "io"}
  }

  predicate IsReservedName(name: string) { name in {"children", "io"} || IsProcOverlayName(name) }

  function CallOf(s: State, t: Tid): Call { if t in s.calls then s.calls[t] else Done }
  function Go(s: State, t: Tid, c: Call): State { s.(calls := s.calls[t := c]) }

  /** A server accepts a new handle only if it is not already in use there. */
  function Acquire(s: State, t: Tid, h: Handle, reply: Reply, yes: Call, no: Call): State
  {
    if reply == Yes && h !in s.live then Go(s.(live := s.live + {h}), t, yes) else Go(s, t, no)
  }

  function Drop(s: State, t: Tid, h: Handle, next: Call): State { Go(s.(live := s.live - {h}), t, next) }

  function FreshBacking(s: State): State { s.(nextBacking := s.nextBacking + 1) }
  function FreshProc(s: State): State { s.(nextProc := s.nextProc + 1) }

  /** The branches of a walk below one agent's directory. */
  function BindAgent(newfid: Fid, pid: string, server: nat, names: seq<string>): Call
  {
    if names == [] then QueryQid(newfid, AgentRoot(pid, server))
    else if names[0] == "children" then BindChild(newfid, pid, names[1..])
    else if IsProcOverlayName(names[0]) then ProcWalk(newfid, pid, names)
    else BackingWalk(newfid, pid, server, names)
  }

  function BindChild(newfid: Fid, parent: string, names: seq<string>): Call
  {
    if names == [] then QueryQid(newfid, AgentChildren(parent))
    else if names[0] == "root" then Done
    else Lookup(newfid, names[0], names[1..], Some(parent))
  }

  function BindFrom(s: State, node: Node, newfid: Fid, names: seq<string>): Call
  {
    match node
    case Root => if names == [] then QueryQid(newfid, Root) else Lookup(newfid, names[0], names[1..], None)
    case AgentRoot(pid, server) => BindAgent(newfid, pid, server, names)
    case AgentChildren(pid) => BindChild(newfid, pid, names)
    case AgentFile(pid, server, _) => BackingWalk(newfid, pid, server, names)
    case ProcFile(_, pid, bound) => ProcWalk(newfid, pid, bound + names)
  }

  predicate Taken(s: State, fid: Fid) { fid == ROOT || fid in s.fids }

  function LookupNode(s: State, fid: Fid): Option<Node>
  {
    if fid == ROOT then Some(Root) else if fid in s.fids then Some(s.fids[fid]) else None
  }

  /** Insert under the lock, or give the handle up if the fid was taken meanwhile. */
  function InsertStep(s: State, t: Tid, newfid: Fid, node: Node, undo: Handle -> Call): State
  {
    if !Taken(s, newfid) then Go(s.(fids := s.fids[newfid := node]), t, Done)
    else match node
      case AgentFile(_, server, n) => Go(s, t, undo(Handle(Agent(server), n)))
      case ProcFile(n, _, _) => Go(s, t, undo(Handle(Proc, n)))
      case _ => Go(s, t, Done)
  }

  function ReleaseNode(node: Node): Call
  {
    match node
    case AgentFile(_, server, n) => Release(Handle(Agent(server), n))
    case ProcFile(n, _, _) => Release(Handle(Proc, n))
    case _ => Done
  }

  function AfterListing(next: Option<string>): Call { if next.Some? then ListProc(next.value) else Done }

  /** One step of the call on thread `t`: a walk here, then the other kinds of call. */
  function Advance(s: State, t: Tid, reply: Reply): State
  {
    match CallOf(s, t)
    case WalkCheck(fid, newfid, names) => Go(s, t, if Taken(s, newfid) then Done else WalkNode(fid, newfid, names))
    case WalkNode(fid, newfid, names) =>
      Go(s, t, match LookupNode(s, fid) case None => Done case Some(node) => BindFrom(s, node, newfid, names))
    case Lookup(newfid, name, rest, parent) =>
      var pid := if name == "root" && parent.None? then s.rootPid else Some(name);
      Go(s, t, if pid.None? || pid.value !in s.agents then Done
               else CheckPid(newfid, pid.value, s.agents[pid.value], rest, parent))
    case CheckPid(newfid, pid, server, rest, parent) =>
      var h := Handle(Proc, s.nextProc);
      Acquire(FreshProc(s), t, h, reply, PidHeld(h, newfid, pid, server, rest, parent), Done)
    case PidHeld(h, newfid, pid, server, rest, parent) =>
      Drop(s, t, h, if parent.None? then BindAgent(newfid, pid, server, rest)
                    else ReadParent(newfid, pid, server, rest, parent))
    case ReadParent(newfid, pid, server, rest, parent) =>
      var h := Handle(Proc, s.nextProc);
      Acquire(FreshProc(s), t, h, reply, ParentHeld(h, newfid, pid, server, rest, parent), Done)
    case ParentHeld(h, newfid, pid, server, rest, parent) =>
      Drop(s, t, h, if reply == Yes then BindAgent(newfid, pid, server, rest) else Done)
    case BackingWalk(newfid, pid, server, _) =>
      var h := Handle(Agent(server), s.nextBacking);
      Acquire(FreshBacking(s), t, h, reply, QueryQid(newfid, AgentFile(pid, server, s.nextBacking)), Done)
    case ProcWalk(newfid, pid, bound) =>
      var h := Handle(Proc, s.nextProc);
      Acquire(FreshProc(s), t, h, reply, QueryQid(newfid, ProcFile(s.nextProc, pid, bound)), Done)
    case QueryQid(newfid, node) =>
      if reply == Yes then Go(s, t, Insert(newfid, node))
      else if reply == More && node.AgentChildren? then
        var h := Handle(Proc, s.nextProc);
        Acquire(FreshProc(s), t, h, Yes, ChildHeld(h, newfid, node.pid), QueryQid(newfid, node))
      else Go(s, t, ReleaseNode(node))
    case ChildHeld(h, newfid, pid) => Drop(s, t, h, if reply == No then Done else QueryQid(newfid, AgentChildren(pid)))
    case Insert(newfid, node) => InsertStep(s, t, newfid, node, h => Release(h))
    case Release(h) => Drop(s, t, h, Done)
    case _ => AdvanceCreate(s, t, reply)
  }

  function AdvanceCreate(s: State, t: Tid, reply: Reply): State
  {
    match CallOf(s, t)
    case CreateCheck(fid, newfid, name) => Go(s, t, if Taken(s, newfid) then Done else CreateNode(fid, newfid, name))
    case CreateNode(fid, newfid, name) =>
      Go(s, t, match LookupNode(s, fid)
               case None => Done
               case Some(AgentRoot(pid, server)) =>
                 if IsReservedName(name) then Done else CreateAgent(newfid, pid, server)
               case Some(AgentFile(pid, server, _)) => CreateAgent(newfid, pid, server)
               case Some(ProcFile(_, pid, bound)) => CreateProc(newfid, pid, bound + [name])
               case Some(_) => Done)
    case CreateAgent(newfid, pid, server) =>
      var h := Handle(Agent(server), s.nextBacking);
      Acquire(FreshBacking(s), t, h, reply, CreateInsert(newfid, AgentFile(pid, server, s.nextBacking)),
        CreateFailed(h))
    case CreateProc(newfid, pid, bound) =>
      var h := Handle(Proc, s.nextProc);
      Acquire(FreshProc(s), t, h, reply, CreateInsert(newfid, ProcFile(s.nextProc, pid, bound)), Done)
    case CreateFailed(h) => Drop(s, t, h, Done)
    case CreateInsert(newfid, node) => InsertStep(s, t, newfid, node, h => Rollback(h))
    case Rollback(h) => if reply == Yes then Drop(s, t, h, Done) else Go(s, t, Release(h))
    case _ => AdvanceRest(s, t, reply)
  }

  /** Clunks, listings and registrations. */
  function AdvanceRest(s: State, t: Tid, reply: Reply): State
  {
    match CallOf(s, t)
    case ClunkEntry(fid) =>
      if fid == ROOT || fid !in s.fids then Go(s, t, Done)
      else Go(s.(fids := s.fids - {fid}), t, ReleaseNode(s.fids[fid]))
    case ListNode(fid) =>
      Go(s, t, match LookupNode(s, fid)
               case Some(AgentRoot(pid, server)) => ListBacking(pid, server)
               case Some(AgentChildren(pid)) => ChildRead(pid)
               case _ => Done)
    case ChildRead(pid) =>
      if reply != More then Go(s, t, Done)
      else
        var h := Handle(Proc, s.nextProc);
        Acquire(FreshProc(s), t, h, Yes, ChildReadHeld(h, pid), ChildRead(pid))
    case ChildReadHeld(h, pid) => Drop(s, t, h, if reply == No then Done else ChildRead(pid))
    case BindParent(pid, server) =>
      var h := Handle(Proc, s.nextProc);
      Acquire(FreshProc(s), t, h, reply, BindHeld(h, pid, server), BindInsert(pid, server))
    case BindHeld(h, pid, server) => Drop(s, t, h, BindInsert(pid, server))
    case BindInsert(pid, server) => Go(s.(agents := s.agents[pid := server]), t, Done)
    case ListBacking(pid, server) =>
      var h := Handle(Agent(server), s.nextBacking);
      Acquire(FreshBacking(s), t, h, reply, ListOpen(h, Some(pid)), Done)
    case ListProc(pid) =>
      var h := Handle(Proc, s.nextBacking);
      Acquire(FreshBacking(s), t, h, reply, ListOpen(h, None), Done)
    case ListOpen(h, next) =>
      if reply == Yes then Go(s, t, ListStat(h, next)) else Go(s.(leaked := s.leaked + {h}), t, Done)
    case ListStat(h, next) =>
      if reply == Yes then Go(s, t, ListClunk(h, next)) else Go(s.(leaked := s.leaked + {h}), t, Done)
    case ListClunk(h, next) => Drop(s, t, h, if reply == Yes then AfterListing(next) else Done)
    case _ => s
  }

  predicate Fresh(c: Call)
  {
    c.WalkCheck? || c.CreateCheck? || c.ClunkEntry? || c.ListNode? || c.BindParent?
  }

  datatype Event =
    | Start(tid: Tid, call: Call)
    | Step(tid: Tid, reply: Reply)
    | UnbindProcess(pid: string)
    | SetRoot(pid: string)

  /** A call starts on an idle thread; registrations change at any time. */
  function Happen(s: State, e: Event): State
  {
    match e
    case Start(t, c) => if CallOf(s, t) == Done && Fresh(c) then Go(s, t, c) else s
    case Step(t, reply) => Advance(s, t, reply)
    case UnbindProcess(pid) =>
      s.(agents := s.agents - {pid}, rootPid := if s.rootPid == Some(pid) then None else s.rootPid)
    case SetRoot(pid) => s.(rootPid := Some(pid))
  }

  function Run(s: State, events: seq<Event>): State
  {
    if events == [] then s else Happen(Run(s, events[..|events| - 1]), events[|events| - 1])
  }

  const EMPTY := State(map[], None, map[], 1_000_000, 2_000_000, {}, {}, map[])
}
