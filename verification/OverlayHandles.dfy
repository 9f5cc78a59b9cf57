/** Handle conservation: who owns each handle the overlay holds, in every interleaving. */
module OverlayHandles {
  import opened Bytes
  import opened Overlay

  datatype Owner = Table(fid: Fid) | Thread(tid: Tid) | Leak

  function Held(s: State, o: Owner): set<Handle>
  {
    match o
    case Table(f) => if f in s.fids then NodeHandles(s.fids[f]) else {}
    case Thread(t) => Holding(CallOf(s, t))
    case Leak => s.leaked
  }

  /** Every live handle has exactly one owner, and only live handles are owned. */
  ghost predicate Owned(s: State)
  {
    && (forall o, h :: h in Held(s, o) ==> h in s.live)
    && (forall h :: h in s.live ==> exists o :: h in Held(s, o))
    && (forall o1, o2, h :: h in Held(s, o1) && h in Held(s, o2) ==> o1 == o2)
  }

  /** Agent handle numbers were all drawn from the counter; a failed create's number is not live. */
  ghost predicate Numbered(s: State)
  {
    && ROOT !in s.fids
    && (forall h :: h in s.live && h.server.Agent? ==> h.number < s.nextBacking)
    && (forall t :: CallOf(s, t).CreateFailed? ==>
          var h := CallOf(s, t).unmade; h.server.Agent? && h.number < s.nextBacking && h !in s.live)
  }

  ghost predicate Inv(s: State) { Owned(s) && Numbered(s) }

  /** What one event does to ownership. */
  datatype Transfer =
    | Keep
    | Gain(to: Owner, h: Handle)
    | Lose(from: Owner, h: Handle)
    | Move(from: Owner, to: Owner, h: Handle)

  /** Only the leak owner can hold more than one handle. */
  ghost predicate Transfers(s: State, s1: State, x: Transfer)
  {
    match x
    case Keep => s1.live == s.live && forall o :: Held(s1, o) == Held(s, o)
    case Gain(to, h) =>
      && h !in s.live && s1.live == s.live + {h}
      && forall o :: Held(s1, o) == Held(s, o) + (if o == to then {h} else {})
    case Lose(from, h) =>
      && h in Held(s, from) && s1.live == s.live - {h}
      && forall o :: Held(s1, o) == Held(s, o) - (if o == from then {h} else {})
    case Move(from, to, h) =>
      && from != to && h in Held(s, from) && s1.live == s.live
      && forall o :: Held(s1, o) == (Held(s, o) - (if o == from then {h} else {})) + (if o == to then {h} else {})
  }

  lemma TransferOwned(s: State, s1: State, x: Transfer)
    requires Owned(s) && Transfers(s, s1, x)
    ensures Owned(s1)
  {
    hide Held;
    forall h | h in s1.live ensures exists o :: h in Held(s1, o) {
      if x.Gain? && h == x.h {
        assert h in Held(s1, x.to);
      } else {
        var o :| h in Held(s, o);
        if x.Move? && h == x.h { assert h in Held(s1, x.to); } else { assert h in Held(s1, o); }
      }
    }
  }

  // ------------------------------------------------------- the kinds of step

  /** `s` and `s1` agree on what the table and the leaks hold and on which handles are live. */
  predicate SameStore(s: State, s1: State) { s1.fids == s.fids && s1.leaked == s.leaked && s1.live == s.live }

  lemma GoKeeps(s: State, s0: State, t: Tid, c: Call)
    requires SameStore(s, s0) && s0.calls == s.calls && Holding(c) == Holding(CallOf(s, t))
    ensures Transfers(s, Go(s0, t, c), Keep)
  {
    hide Holding, NodeHandles;
  }

  lemma AcquireGains(s: State, s0: State, t: Tid, h: Handle, reply: Reply, yes: Call, no: Call) returns (x: Transfer)
    requires SameStore(s, s0) && s0.calls == s.calls
    requires Holding(CallOf(s, t)) == {} && Holding(yes) == {h} && Holding(no) == {}
    ensures Transfers(s, Acquire(s0, t, h, reply, yes, no), x)
  {
    hide Holding, NodeHandles;
    x := if reply == Yes && h !in s.live then Gain(Thread(t), h) else Keep;
  }

  lemma DropLoses(s: State, t: Tid, h: Handle, next: Call)
    requires Holding(CallOf(s, t)) == {h} && Holding(next) == {}
    ensures Transfers(s, Drop(s, t, h, next), Lose(Thread(t), h))
  {
    hide Holding, NodeHandles;
  }

  lemma InsertMoves(s: State, t: Tid, newfid: Fid, node: Node, undo: Handle -> Call) returns (x: Transfer)
    requires Holding(CallOf(s, t)) == NodeHandles(node)
    requires forall h :: Holding(undo(h)) == {h}
    ensures Transfers(s, InsertStep(s, t, newfid, node, undo), x)
  {
    x := Keep;
    if !Taken(s, newfid) && NodeHandles(node) != {} {
      var h :| h in NodeHandles(node);
      x := Move(Thread(t), Table(newfid), h);
    }
  }

  lemma ClunkMoves(s: State, t: Tid, fid: Fid) returns (x: Transfer)
    requires Holding(CallOf(s, t)) == {} && fid in s.fids
    ensures Transfers(s, Go(s.(fids := s.fids - {fid}), t, ReleaseNode(s.fids[fid])), x)
  {
    x := Keep;
    if NodeHandles(s.fids[fid]) != {} {
      var h :| h in NodeHandles(s.fids[fid]);
      x := Move(Table(fid), Thread(t), h);
    }
  }

  lemma LeakMoves(s: State, t: Tid, h: Handle)
    requires Holding(CallOf(s, t)) == {h}
    ensures Transfers(s, Go(s.(leaked := s.leaked + {h}), t, Done), Move(Thread(t), Leak, h))
  {
    hide NodeHandles;
  }

  lemma BindHoldsNothing(s: State, node: Node, newfid: Fid, pid: string, server: nat, names: seq<string>)
    ensures Holding(BindAgent(newfid, pid, server, names)) == {}
    ensures Holding(BindChild(newfid, pid, names)) == {}
    ensures Holding(BindFrom(s, node, newfid, names)) == {}
  {
    hide IsProcOverlayName;
  }

  /** The walk steps. */
  lemma WalkTransfers(s: State, t: Tid, reply: Reply) returns (x: Transfer)
    requires Inv(s)
    requires var c := CallOf(s, t);
             || c.WalkCheck? || c.WalkNode? || c.Lookup? || c.CheckPid? || c.PidHeld?
             || c.ReadParent? || c.ParentHeld? || c.BackingWalk? || c.ProcWalk?
    ensures Transfers(s, Advance(s, t, reply), x)
  {
    hide Inv, Transfers, BindAgent, BindChild, BindFrom, Acquire, Go, Drop;
    var c := CallOf(s, t);
    x := Keep;
    match c
    case WalkCheck(fid, newfid, names) => GoKeeps(s, s, t, if Taken(s, newfid) then Done
      else WalkNode(fid, newfid, names));
    case WalkNode(fid, newfid, names) =>
      match LookupNode(s, fid) {
        case None => GoKeeps(s, s, t, Done);
        case Some(node) => BindHoldsNothing(s, node, newfid, "", 0, names);
          GoKeeps(s, s, t, BindFrom(s, node, newfid, names));
      }
    case Lookup(newfid, name, rest, parent) =>
      var pid := if name == "root" && parent.None? then s.rootPid else Some(name);
      GoKeeps(s, s, t, if pid.None? || pid.value !in s.agents then Done
                       else CheckPid(newfid, pid.value, s.agents[pid.value], rest, parent));
    case CheckPid(newfid, pid, server, rest, parent) =>
      var h := Handle(Proc, s.nextProc);
      x := AcquireGains(s, FreshProc(s), t, h, reply, PidHeld(h, newfid, pid, server, rest, parent), Done);
    case PidHeld(h, newfid, pid, server, rest, parent) =>
      BindHoldsNothing(s, Root, newfid, pid, server, rest);
      x := Lose(Thread(t), h);
      DropLoses(s, t, h, if parent.None? then BindAgent(newfid, pid, server, rest)
        else ReadParent(newfid, pid, server, rest, parent));
    case ReadParent(newfid, pid, server, rest, parent) =>
      var h := Handle(Proc, s.nextProc);
      x := AcquireGains(s, FreshProc(s), t, h, reply, ParentHeld(h, newfid, pid, server, rest, parent), Done);
    case ParentHeld(h, newfid, pid, server, rest, parent) =>
      BindHoldsNothing(s, Root, newfid, pid, server, rest);
      x := Lose(Thread(t), h);
      DropLoses(s, t, h, if reply == Yes then BindAgent(newfid, pid, server, rest) else Done);
    case BackingWalk(newfid, pid, server, _) =>
      var h := Handle(Agent(server), s.nextBacking);
      x := AcquireGains(s, FreshBacking(s), t, h, reply, QueryQid(newfid, AgentFile(pid, server, s.nextBacking)), Done);
    case ProcWalk(newfid, pid, bound) =>
      var h := Handle(Proc, s.nextProc);
      x := AcquireGains(s, FreshProc(s), t, h, reply, QueryQid(newfid, ProcFile(s.nextProc, pid, bound)), Done);
  }

  lemma UnmadeNotLive(s: State, t: Tid)
    requires Inv(s) && CallOf(s, t).CreateFailed?
    ensures CallOf(s, t).unmade !in s.live
  {
    hide Owned;
  }

  /** Binding and releasing. */
  lemma BindTransfers(s: State, t: Tid, reply: Reply) returns (x: Transfer)
    requires Inv(s)
    requires var c := CallOf(s, t);
             c.QueryQid? || c.ChildHeld? || c.Insert? || c.Release? || c.ClunkEntry?
    ensures Transfers(s, Advance(s, t, reply), x)
  {
    hide Owned, Numbered, Transfers, Acquire, InsertStep, IsReservedName, LookupNode, Taken;
    var c := CallOf(s, t);
    x := Keep;
    match c
    case QueryQid(newfid, node) =>
      if reply == Yes { GoKeeps(s, s, t, Insert(newfid, node)); }
      else if reply == More && node.AgentChildren? {
        var h := Handle(Proc, s.nextProc);
        x := AcquireGains(s, FreshProc(s), t, h, Yes, ChildHeld(h, newfid, node.pid), QueryQid(newfid, node));
      } else { GoKeeps(s, s, t, ReleaseNode(node)); }
    case ChildHeld(h, newfid, pid) =>
      x := Lose(Thread(t), h);
      DropLoses(s, t, h, if reply == No then Done else QueryQid(newfid, AgentChildren(pid)));
    case Insert(newfid, node) => x := InsertMoves(s, t, newfid, node, h => Release(h));
    case Release(h) => x := Lose(Thread(t), h); DropLoses(s, t, h, Done);
    case ClunkEntry(fid) =>
      if fid == ROOT || fid !in s.fids { GoKeeps(s, s, t, Done); } else { x := ClunkMoves(s, t, fid); }
  }

  /** Creating. */
  predicate IsCreate(c: Call)
  {
    c.CreateCheck? || c.CreateNode? || c.CreateAgent? || c.CreateProc? || c.CreateFailed? || c.CreateInsert? ||
      c.Rollback?
  }

  predicate IsRegistration(c: Call)
  {
    c.BindParent? || c.BindHeld? || c.BindInsert? || c.ChildRead? || c.ChildReadHeld?
  }

  predicate IsListing(c: Call)
  {
    c.ListNode? || c.ListBacking? || c.ListProc? || c.ListOpen? || c.ListStat? || c.ListClunk?
  }

  lemma CreateDispatch(s: State, t: Tid, reply: Reply)
    requires IsCreate(CallOf(s, t))
    ensures Advance(s, t, reply) == AdvanceCreate(s, t, reply)
  {
    hide AdvanceCreate;
  }

  lemma RestDispatch(s: State, t: Tid, reply: Reply)
    requires IsRegistration(CallOf(s, t)) || IsListing(CallOf(s, t)) || CallOf(s, t).ClunkEntry?
    ensures Advance(s, t, reply) == AdvanceRest(s, t, reply)
  {
    hide AdvanceRest;
  }

  lemma CreateTransfers(s: State, t: Tid, reply: Reply) returns (x: Transfer)
    requires Inv(s)
    requires IsCreate(CallOf(s, t))
    ensures Transfers(s, Advance(s, t, reply), x)
  {
    CreateDispatch(s, t, reply);
    hide Advance, AdvanceRest, Owned, Numbered, Transfers, Acquire, InsertStep, IsReservedName, LookupNode, Taken;
    var c := CallOf(s, t);
    x := Keep;
    match c
    case CreateCheck(_, _, _) => GoKeeps(s, s, t, Advance(s, t, reply).calls[t]);
    case CreateNode(_, _, _) => GoKeeps(s, s, t, Advance(s, t, reply).calls[t]);
    case CreateAgent(newfid, pid, server) =>
      var h := Handle(Agent(server), s.nextBacking);
      x := AcquireGains(s, FreshBacking(s), t, h, reply, CreateInsert(newfid, AgentFile(pid, server, s.nextBacking)),
        CreateFailed(h));
    case CreateProc(newfid, pid, bound) =>
      var h := Handle(Proc, s.nextProc);
      x := AcquireGains(s, FreshProc(s), t, h, reply, CreateInsert(newfid, ProcFile(s.nextProc, pid, bound)), Done);
    case CreateFailed(h) => UnmadeNotLive(s, t); assert s.live - {h} == s.live; GoKeeps(s, s, t, Done);
    case CreateInsert(newfid, node) => x := InsertMoves(s, t, newfid, node, h => Rollback(h));
    case Rollback(h) =>
      if reply == Yes { x := Lose(Thread(t), h); DropLoses(s, t, h, Done); } else { GoKeeps(s, s, t, Release(h)); }
  }

  lemma AfterHolds(next: Option<string>)
    ensures Holding(AfterListing(next)) == {}
  {}

  /** Registration and listings of children. */
  lemma RegisterTransfers(s: State, t: Tid, reply: Reply) returns (x: Transfer)
    requires Inv(s)
    requires IsRegistration(CallOf(s, t))
    ensures Transfers(s, Advance(s, t, reply), x)
  {
    RestDispatch(s, t, reply);
    hide Advance, AdvanceCreate, Inv, Transfers, Acquire, LookupNode, AfterListing;
    var c := CallOf(s, t);
    x := Keep;
    match c
    case BindParent(pid, server) =>
      var h := Handle(Proc, s.nextProc);
      x := AcquireGains(s, FreshProc(s), t, h, reply, BindHeld(h, pid, server), BindInsert(pid, server));
    case BindHeld(h, pid, server) => x := Lose(Thread(t), h); DropLoses(s, t, h, BindInsert(pid, server));
    case BindInsert(pid, server) => GoKeeps(s, s.(agents := s.agents[pid := server]), t, Done);
    case ChildRead(pid) =>
      if reply != More { GoKeeps(s, s, t, Done); }
      else {
        var h := Handle(Proc, s.nextProc);
        x := AcquireGains(s, FreshProc(s), t, h, Yes, ChildReadHeld(h, pid), ChildRead(pid));
      }
    case ChildReadHeld(h, pid) => x := Lose(Thread(t), h);
      DropLoses(s, t, h, if reply == No then Done else ChildRead(pid));
  }

  /** Listings of an agent directory. */
  lemma ListTransfers(s: State, t: Tid, reply: Reply) returns (x: Transfer)
    requires Inv(s) && IsListing(CallOf(s, t))
    ensures Transfers(s, Advance(s, t, reply), x)
  {
    RestDispatch(s, t, reply);
    hide Advance, AdvanceCreate, Inv, Transfers, Acquire, LookupNode, AfterListing;
    x := Keep;
    match CallOf(s, t)
    case ListNode(_) => GoKeeps(s, s, t, AdvanceRest(s, t, reply).calls[t]);
    case ListBacking(pid, server) =>
      var h := Handle(Agent(server), s.nextBacking);
      x := AcquireGains(s, FreshBacking(s), t, h, reply, ListOpen(h, Some(pid)), Done);
    case ListProc(_) =>
      var h := Handle(Proc, s.nextBacking);
      x := AcquireGains(s, FreshBacking(s), t, h, reply, ListOpen(h, None), Done);
    case _ => x := HeldListTransfers(s, t, reply);
  }

  /** A listing that holds a handle passes it on, clunks it, or leaks it. */
  lemma HeldListTransfers(s: State, t: Tid, reply: Reply) returns (x: Transfer)
    requires Inv(s) && (CallOf(s, t).ListOpen? || CallOf(s, t).ListStat? || CallOf(s, t).ListClunk?)
    ensures Transfers(s, AdvanceRest(s, t, reply), x)
  {
    hide Advance, AdvanceCreate, Inv, Transfers, Acquire, LookupNode, AfterListing;
    x := Keep;
    match CallOf(s, t)
    case ListClunk(h, next) => x := Lose(Thread(t), h); AfterHolds(next);
      DropLoses(s, t, h, if reply == Yes then AfterListing(next) else Done);
    case ListOpen(h, next) =>
      if reply == Yes {
        GoKeeps(s, s, t, ListStat(h, next));
      } else {
        x := Move(Thread(t), Leak, h);
        LeakMoves(s, t, h);
      }
    case ListStat(h, next) =>
      if reply == Yes {
        GoKeeps(s, s, t, ListClunk(h, next));
      } else {
        x := Move(Thread(t), Leak, h);
        LeakMoves(s, t, h);
      }
  }

  lemma AdvanceTransfers(s: State, t: Tid, reply: Reply) returns (x: Transfer)
    requires Inv(s)
    ensures Transfers(s, Advance(s, t, reply), x)
  {
    hide Inv, Transfers, Advance;
    var c := CallOf(s, t);
    if c.Done? {
      x := Keep;
      DoneStays(s, t, reply);
    } else if c.QueryQid? || c.ChildHeld? || c.Insert? || c.Release? || c.ClunkEntry? {
      x := BindTransfers(s, t, reply);
    } else if IsCreate(c) {
      x := CreateTransfers(s, t, reply);
    } else if IsRegistration(c) {
      x := RegisterTransfers(s, t, reply);
    } else if IsListing(c) {
      x := ListTransfers(s, t, reply);
    } else {
      x := WalkTransfers(s, t, reply);
    }
  }

  lemma DoneStays(s: State, t: Tid, reply: Reply)
    requires CallOf(s, t).Done?
    ensures Advance(s, t, reply) == s && Transfers(s, s, Keep)
  {}

  /** One step of call `t` draws fresh numbers for what it acquires and leaves other calls alone. */
  ghost predicate Counts(s: State, s1: State, t: Tid)
  {
    && s1.nextBacking >= s.nextBacking && ROOT !in s1.fids
    && (forall h :: h in s1.live && h !in s.live && h.server.Agent? ==> s.nextBacking <= h.number < s1.nextBacking)
    && (forall u :: u != t ==> CallOf(s1, u) == CallOf(s, u))
    && (CallOf(s1, t).CreateFailed? ==>
          var h := CallOf(s1, t).unmade;
          h !in s1.live && h.server.Agent? && s.nextBacking <= h.number < s1.nextBacking)
  }

  lemma CountsKeep(s: State, s1: State, t: Tid)
    requires Numbered(s) && Counts(s, s1, t)
    ensures Numbered(s1)
  {}

  lemma GoCounts(s: State, s0: State, t: Tid, c: Call)
    requires ROOT !in s0.fids && s0.live <= s.live && s0.calls == s.calls && s0.nextBacking >= s.nextBacking &&
             !c.CreateFailed?
    ensures Counts(s, Go(s0, t, c), t)
  {}

  lemma AcquireProc(s: State, t: Tid, reply: Reply, yes: Call, no: Call)
    requires ROOT !in s.fids && !yes.CreateFailed? && !no.CreateFailed?
    ensures Counts(s, Acquire(FreshProc(s), t, Handle(Proc, s.nextProc), reply, yes, no), t)
  {
    var h, s0 := Handle(Proc, s.nextProc), FreshProc(s);
    if reply == Yes && h !in s.live { assert CallOf(Go(s0.(live := s.live + {h}), t, yes), t) == yes; }
    else { assert CallOf(Go(s0, t, no), t) == no; }
  }

  lemma AcquireBacking(s: State, t: Tid, server: Server, reply: Reply, yes: Call, no: Call)
    requires ROOT !in s.fids && !yes.CreateFailed? && (server.Agent? ==> Handle(server, s.nextBacking) !in s.live)
    requires no.CreateFailed? ==> server.Agent? && no.unmade == Handle(server, s.nextBacking)
    ensures Counts(s, Acquire(FreshBacking(s), t, Handle(server, s.nextBacking), reply, yes, no), t)
  {
    var h, s0 := Handle(server, s.nextBacking), FreshBacking(s);
    if reply == Yes && h !in s.live { assert CallOf(Go(s0.(live := s.live + {h}), t, yes), t) == yes; }
    else { assert CallOf(Go(s0, t, no), t) == no; }
  }

  /** Numbers only ever grow, and stay ahead of every agent handle. */
  lemma AdvanceNumbered(s: State, t: Tid, reply: Reply)
    requires Inv(s)
    ensures Numbered(Advance(s, t, reply))
  {
    hide Owned, Numbered, Counts, Holding, BindAgent, BindChild, BindFrom, Acquire, InsertStep, ReleaseNode,
      IsReservedName, LookupNode, Taken;
    BindNeverFails(s, t);
    NumberedFacts(s);
    var c, p, b := CallOf(s, t), Handle(Proc, s.nextProc), s.nextBacking;
    match c {
    case Done => return;
    case CheckPid(f, pid, server, rest, parent) =>
      AcquireProc(s, t, reply, PidHeld(p, f, pid, server, rest, parent), Done);
    case ReadParent(f, pid, server, rest, parent) =>
      AcquireProc(s, t, reply, ParentHeld(p, f, pid, server, rest, parent), Done);
    case BackingWalk(f, pid, server, _) => AcquireBacking(s, t, Agent(server), reply,
      QueryQid(f, AgentFile(pid, server, b)), Done);
    case ProcWalk(f, pid, bound) => AcquireProc(s, t, reply, QueryQid(f, ProcFile(s.nextProc, pid, bound)), Done);
    case QueryQid(f, node) =>
      if reply == More && node.AgentChildren? { AcquireProc(s, t, Yes, ChildHeld(p, f, node.pid), c); }
      else { GoCounts(s, s, t, if reply == Yes then Insert(f, node) else ReleaseNode(node)); }
    case Insert(f, node) => InsertCounts(s, t, f, node, h => Release(h));
    case CreateInsert(f, node) => InsertCounts(s, t, f, node, h => Rollback(h));
    case CreateAgent(f, pid, server) =>
      AcquireBacking(s, t, Agent(server), reply, CreateInsert(f, AgentFile(pid, server, b)),
        CreateFailed(Handle(Agent(server), b)));
    case CreateProc(f, pid, bound) => AcquireProc(s, t, reply, CreateInsert(f, ProcFile(s.nextProc, pid, bound)), Done);
    case BindParent(pid, server) => AcquireProc(s, t, reply, BindHeld(p, pid, server), BindInsert(pid, server));
    case ChildRead(pid) =>
      if reply == More { AcquireProc(s, t, Yes, ChildReadHeld(p, pid), c); } else { GoCounts(s, s, t, Done); }
    case ListBacking(pid, server) =>
      AcquireBacking(s, t, Agent(server), reply, ListOpen(Handle(Agent(server), b), Some(pid)), Done);
    case ListProc(pid) => AcquireBacking(s, t, Proc, reply, ListOpen(Handle(Proc, b), None), Done);
    case _ =>
      if PlainWalk(c) { PlainWalkCounts(s, t, reply); }
      else if PlainCreate(c) { PlainCreateCounts(s, t, reply); }
      else { PlainRestCounts(s, t, reply); }
    }
    CountsKeep(s, Advance(s, t, reply), t);
  }

  /** Steps of walks and clunks that acquire nothing. */
  predicate PlainWalk(c: Call)
  {
    c.WalkCheck? || c.WalkNode? || c.Lookup? || c.PidHeld? || c.ParentHeld? || c.ChildHeld? || c.Release? ||
      c.ClunkEntry?
  }

  /** Steps of creates that acquire nothing. */
  predicate PlainCreate(c: Call) { c.CreateCheck? || c.CreateNode? || c.CreateFailed? || c.Rollback? }

  /** Steps of registrations and listings that acquire nothing. */
  predicate PlainRest(c: Call)
  {
    c.BindHeld? || c.BindInsert? || c.ChildReadHeld? || c.ListNode? || c.ListOpen? || c.ListStat? || c.ListClunk?
  }

  lemma PlainWalkCounts(s: State, t: Tid, reply: Reply)
    requires ROOT !in s.fids && PlainWalk(CallOf(s, t))
    ensures Counts(s, Advance(s, t, reply), t)
  {
    hide Counts, BindAgent, BindChild, BindFrom, ReleaseNode, LookupNode, Taken;
    BindNeverFails(s, t);
    var s1 := Advance(s, t, reply);
    GoCounts(s, s1.(calls := s.calls), t, s1.calls[t]);
  }

  lemma PlainCreateCounts(s: State, t: Tid, reply: Reply)
    requires ROOT !in s.fids && PlainCreate(CallOf(s, t))
    ensures Counts(s, Advance(s, t, reply), t)
  {
    CreateDispatch(s, t, reply);
    hide Advance, AdvanceRest, Counts, IsReservedName, LookupNode, Taken;
    var s1 := AdvanceCreate(s, t, reply);
    GoCounts(s, s1.(calls := s.calls), t, s1.calls[t]);
  }

  lemma PlainRestCounts(s: State, t: Tid, reply: Reply)
    requires ROOT !in s.fids && PlainRest(CallOf(s, t))
    ensures Counts(s, Advance(s, t, reply), t)
  {
    RestDispatch(s, t, reply);
    hide Advance, AdvanceCreate, Counts, LookupNode, AfterListing;
    var s1 := AdvanceRest(s, t, reply);
    GoCounts(s, s1.(calls := s.calls), t, s1.calls[t]);
  }

  lemma NumberedFacts(s: State)
    requires Numbered(s)
    ensures ROOT !in s.fids && forall i :: Handle(Agent(i), s.nextBacking) !in s.live
  {}

  lemma InsertCounts(s: State, t: Tid, newfid: Fid, node: Node, undo: Handle -> Call)
    requires Numbered(s) && forall h :: !undo(h).CreateFailed?
    ensures Counts(s, InsertStep(s, t, newfid, node, undo), t)
  {}

  lemma BindNeverFails(s: State, t: Tid)
    ensures forall newfid, pid, server, names :: !BindAgent(newfid, pid, server, names).CreateFailed?
    ensures forall node, newfid, names :: !BindFrom(s, node, newfid, names).CreateFailed?
    ensures forall node :: !ReleaseNode(node).CreateFailed?
  {}

  lemma HappenKeeps(s: State, e: Event)
    requires Inv(s)
    ensures Inv(Happen(s, e))
  {
    hide Owned, Numbered, Advance;
    match e
    case Start(t, c) => StartKeeps(s, t, c);
    case Step(t, reply) =>
      var x := AdvanceTransfers(s, t, reply);
      TransferOwned(s, Advance(s, t, reply), x);
      AdvanceNumbered(s, t, reply);
    case _ => RegistrationKeeps(s, e);
  }

  lemma StartKeeps(s: State, t: Tid, c: Call)
    requires Inv(s)
    ensures Inv(Happen(s, Start(t, c)))
  {
    hide Owned;
    if CallOf(s, t) == Done && Fresh(c) {
      GoKeeps(s, s, t, c);
      TransferOwned(s, Go(s, t, c), Keep);
      GoCounts(s, s, t, c);
      CountsKeep(s, Go(s, t, c), t);
    }
  }

  lemma RegistrationKeeps(s: State, e: Event)
    requires Inv(s) && (e.UnbindProcess? || e.SetRoot?)
    ensures Inv(Happen(s, e))
  {
    hide Owned;
    var s1 := Happen(s, e);
    assert forall t :: CallOf(s1, t) == CallOf(s, t);
    assert forall o :: Held(s1, o) == Held(s, o);
    TransferOwned(s, s1, Keep);
  }

  lemma {:induction false} RunKeeps(s: State, events: seq<Event>)
    requires Inv(s)
    ensures Inv(Run(s, events))
    decreases |events|
  {
    hide Inv, Happen;
    if events != [] {
      RunKeeps(s, events[..|events| - 1]);
      HappenKeeps(Run(s, events[..|events| - 1]), events[|events| - 1]);
    }
  }

  lemma EmptyInv()
    ensures Inv(EMPTY)
  {}

  ghost predicate Quiet(s: State) { forall t :: CallOf(s, t) == Done }

  /** The handles named by the fid table. */
  function Named(s: State): set<Handle>
  {
    set f, h | f in s.fids && h in NodeHandles(s.fids[f]) :: h
  }

  /**
   * In every interleaving of walks, creates, clunks, listings and registrations: once the calls in
   * flight have settled, the live handles are exactly those the fid table names, plus those leaked
   * by listings whose open or stat failed; and no two fids share a handle.
   */
  lemma HandleConservation(events: seq<Event>)
    requires Quiet(Run(EMPTY, events))
    ensures var s := Run(EMPTY, events);
            && s.live == Named(s) + s.leaked
            && Named(s) !! s.leaked
            && forall f, g :: f in s.fids && g in s.fids && f != g ==> NodeHandles(s.fids[f]) !! NodeHandles(s.fids[g])
  {
    hide Run, Holding, NodeHandles;
    EmptyInv();
    RunKeeps(EMPTY, events);
    var s := Run(EMPTY, events);
    QuietHolds(s);
    forall h | h in s.live ensures h in Named(s) + s.leaked {
      var o :| h in Held(s, o);
    }
    forall f, g | f in s.fids && g in s.fids && f != g ensures NodeHandles(s.fids[f]) !! NodeHandles(s.fids[g]) {
      assert Held(s, Table(f)) == NodeHandles(s.fids[f]) && Held(s, Table(g)) == NodeHandles(s.fids[g]);
    }
    forall h | h in Named(s) ensures h in s.live && h !in s.leaked {
      var f :| f in s.fids && h in NodeHandles(s.fids[f]);
      assert h in Held(s, Table(f));
      assert Held(s, Leak) == s.leaked;
    }
    assert forall h :: h in s.leaked ==> h in Held(s, Leak);
  }

  lemma QuietHolds(s: State)
    requires Quiet(s)
    ensures forall t :: Held(s, Thread(t)) == {}
  {}

  // ------------------------------------------------------------------ leaks

  /** A listing whose open or stat fails after its walk succeeded. */
  predicate FailsListing(s: State, e: Event)
  {
    e.Step? && e.reply != Yes && (CallOf(s, e.tid).ListOpen? || CallOf(s, e.tid).ListStat?)
  }

  function Leaked(s: State, t: Tid, reply: Reply): set<Handle>
  {
    s.leaked + if FailsListing(s, Step(t, reply)) then {CallOf(s, t).held} else {}
  }

  lemma RestLeaks(s: State, t: Tid, reply: Reply)
    ensures AdvanceRest(s, t, reply).leaked == Leaked(s, t, reply)
  {
    hide BindAgent, BindChild, BindFrom, ReleaseNode, IsReservedName, LookupNode, Taken, AfterListing;
  }

  lemma CreateLeaks(s: State, t: Tid, reply: Reply)
    ensures AdvanceCreate(s, t, reply).leaked == Leaked(s, t, reply)
  {
    hide BindAgent, BindChild, BindFrom, ReleaseNode, IsReservedName, LookupNode, Taken, AdvanceRest;
    RestLeaks(s, t, reply);
  }

  lemma AdvanceLeaks(s: State, t: Tid, reply: Reply)
    ensures Advance(s, t, reply).leaked == Leaked(s, t, reply)
  {
    hide BindAgent, BindChild, BindFrom, ReleaseNode, IsReservedName, LookupNode, Taken, AdvanceCreate;
    CreateLeaks(s, t, reply);
  }

  ghost predicate SomeListingFails(s: State, events: seq<Event>)
  {
    exists i :: 0 <= i < |events| && FailsListing(Run(s, events[..i]), events[i])
  }

  /** Handles leak exactly when some listing's open or stat fails. */
  lemma {:induction false} LeaksExactly(s: State, events: seq<Event>)
    requires s.leaked == {}
    ensures Run(s, events).leaked != {} <==> SomeListingFails(s, events)
    decreases |events|
  {
    hide Happen, FailsListing;
    if events != [] {
      var before, e := events[..|events| - 1], events[|events| - 1];
      var s0 := Run(s, before);
      LeaksExactly(s, before);
      HappenLeaks(s0, e);
      if SomeListingFails(s, before) {
        var i :| 0 <= i < |before| && FailsListing(Run(s, before[..i]), before[i]);
        assert before[..i] == events[..i] && before[i] == events[i];
      }
      if SomeListingFails(s, events) {
        var i :| 0 <= i < |events| && FailsListing(Run(s, events[..i]), events[i]);
        if i < |before| { assert before[..i] == events[..i] && before[i] == events[i]; }
      }
      if FailsListing(s0, e) { assert FailsListing(Run(s, events[..|events| - 1]), events[|events| - 1]); }
    }
  }

  lemma HappenLeaks(s: State, e: Event)
    ensures Happen(s, e).leaked >= s.leaked
    ensures FailsListing(s, e) ==> Happen(s, e).leaked != {}
    ensures !FailsListing(s, e) ==> Happen(s, e).leaked == s.leaked
  {
    hide Advance;
    if e.Step? { AdvanceLeaks(s, e.tid, e.reply); }
  }

  /** What is live at rest is exactly what the fid table names iff no listing failed. */
  lemma ConservationExactly(events: seq<Event>)
    requires Quiet(Run(EMPTY, events))
    ensures Run(EMPTY, events).live == Named(Run(EMPTY, events)) <==> !SomeListingFails(EMPTY, events)
  {
    hide Run, SomeListingFails;
    LeaksExactly(EMPTY, events);
    HandleConservation(events);
  }

  // ------------------------------------------------------------------ races

  predicate Elsewhere(t: Tid, events: seq<Event>)
  {
    forall i :: 0 <= i < |events| ==> !((events[i].Step? || events[i].Start?) && events[i].tid == t)
  }

  lemma {:induction false} OthersKeepCall(s: State, t: Tid, events: seq<Event>)
    requires Inv(s) && Elsewhere(t, events)
    ensures Inv(Run(s, events)) && CallOf(Run(s, events), t) == CallOf(s, t)
    decreases |events|
  {
    hide Inv, Happen;
    if events != [] {
      var before, e := events[..|events| - 1], events[|events| - 1];
      OthersKeepCall(s, t, before);
      HappenKeeps(Run(s, before), e);
      OtherKeepsCall(Run(s, before), t, e);
    }
  }

  lemma RestKeepsCalls(s: State, t: Tid, reply: Reply, u: Tid)
    requires u != t
    ensures CallOf(AdvanceRest(s, t, reply), u) == CallOf(s, u)
  {
    hide BindAgent, BindChild, BindFrom, ReleaseNode, IsReservedName, LookupNode, Taken, AfterListing;
  }

  lemma CreateKeepsCalls(s: State, t: Tid, reply: Reply, u: Tid)
    requires u != t
    ensures CallOf(AdvanceCreate(s, t, reply), u) == CallOf(s, u)
  {
    hide BindAgent, BindChild, BindFrom, ReleaseNode, IsReservedName, LookupNode, Taken, AdvanceRest;
    RestKeepsCalls(s, t, reply, u);
  }

  lemma AdvanceKeepsCalls(s: State, t: Tid, reply: Reply, u: Tid)
    requires u != t
    ensures CallOf(Advance(s, t, reply), u) == CallOf(s, u)
  {
    hide BindAgent, BindChild, BindFrom, ReleaseNode, IsReservedName, LookupNode, Taken, AdvanceCreate, Acquire, Drop,
      InsertStep, Go, CallOf;
    CreateKeepsCalls(s, t, reply, u);
    StepsKeepCalls(s, t, reply, u);
  }

  /** What steps are made of leaves other calls alone. */
  lemma StepsKeepCalls(s: State, t: Tid, reply: Reply, u: Tid)
    requires u != t
    ensures forall s0: State, c :: s0.calls == s.calls ==> CallOf(Go(s0, t, c), u) == CallOf(s, u)
    ensures forall h, c :: CallOf(Drop(s, t, h, c), u) == CallOf(s, u)
    ensures forall s0: State, h, r, yes, no :: s0.calls == s.calls ==>
              CallOf(Acquire(s0, t, h, r, yes, no), u) == CallOf(s, u)
    ensures forall f, node, undo :: CallOf(InsertStep(s, t, f, node, undo), u) == CallOf(s, u)
  {
  }

  lemma OtherKeepsCall(s: State, t: Tid, e: Event)
    requires !((e.Step? || e.Start?) && e.tid == t)
    ensures CallOf(Happen(s, e), t) == CallOf(s, t)
  {
    hide Advance;
    if e.Step? { AdvanceKeepsCalls(s, e.tid, e.reply, t); }
  }

  /**
   * A walk that loses the race for its new fid leaves the table alone and releases its handle,
   * whatever happens between the two.
   */
  lemma LosingRacerReleases(
      s: State, t: Tid, newfid: Fid, node: Node, h: Handle, events: seq<Event>, r1: Reply, r2: Reply)
    requires Inv(s) && CallOf(s, t) == Insert(newfid, node) && Taken(s, newfid) && NodeHandles(node) == {h}
    requires Elsewhere(t, events)
    ensures var s1 := Advance(s, t, r1);
            var s2 := Run(s1, events);
            var s3 := Advance(s2, t, r2);
            && s1.fids == s.fids && h in s2.live && h !in s3.live && s3.fids == s2.fids && CallOf(s3, t) == Done
  {
    hide Owned, Numbered, Run;
    var s1 := Advance(s, t, r1);
    assert CallOf(s1, t) == Release(h) by { assert node.AgentFile? || node.ProcFile?; }
    HappenKeeps(s, Step(t, r1));
    OthersKeepCall(s1, t, events);
    var s2 := Run(s1, events);
    OwnedLive(s2, t, h);
  }

  /**
   * So does a create that loses it: its rollback removes what it made, and if the server refuses
   * that, the handle is still released.
   */
  lemma LosingCreateReleases(
      s: State, t: Tid, newfid: Fid, node: Node, h: Handle, events: seq<Event>, more: seq<Event>, r1: Reply,
        r2: Reply, r3: Reply)
    requires Inv(s) && CallOf(s, t) == CreateInsert(newfid, node) && Taken(s, newfid) && NodeHandles(node) == {h}
    requires Elsewhere(t, events) && Elsewhere(t, more)
    ensures var s1 := Advance(s, t, r1);
            var s2 := Run(s1, events);
            var s3 := Advance(s2, t, r2);
            var s4 := Run(s3, more);
            var s5 := Advance(s4, t, r3);
            && s1.fids == s.fids && h in s2.live && s3.fids == s2.fids
            && (r2 == Yes ==> h !in s3.live && CallOf(s3, t) == Done)
            && (r2 != Yes ==> h in s4.live && s5.fids == s4.fids && h !in s5.live && CallOf(s5, t) == Done)
  {
    hide Run, Inv, Advance;
    var s1 := Advance(s, t, r1);
    LostCreate(s, t, newfid, node, h, r1);
    HappenKeeps(s, Step(t, r1));
    OthersKeepCall(s1, t, events);
    var s2 := Run(s1, events);
    OwnedLive(s2, t, h);
    RolledBack(s2, t, h, r2);
    if r2 != Yes {
      HappenKeeps(s2, Step(t, r2));
      var s3 := Advance(s2, t, r2);
      OthersKeepCall(s3, t, more);
      OwnedLive(Run(s3, more), t, h);
      Released(Run(s3, more), t, h, r3);
    }
  }

  lemma LostCreate(s: State, t: Tid, newfid: Fid, node: Node, h: Handle, reply: Reply)
    requires CallOf(s, t) == CreateInsert(newfid, node) && Taken(s, newfid) && NodeHandles(node) == {h}
    ensures CallOf(Advance(s, t, reply), t) == Rollback(h) && Advance(s, t, reply).fids == s.fids
  {
    assert node.AgentFile? || node.ProcFile?;
  }

  lemma RolledBack(s: State, t: Tid, h: Handle, reply: Reply)
    requires CallOf(s, t) == Rollback(h)
    ensures var s1 := Advance(s, t, reply);
            && s1.fids == s.fids
            && if reply == Yes then h !in s1.live && CallOf(s1, t) == Done else CallOf(s1, t) == Release(h)
  {
  }

  lemma Released(s: State, t: Tid, h: Handle, reply: Reply)
    requires CallOf(s, t) == Release(h)
    ensures var s1 := Advance(s, t, reply); s1.fids == s.fids && h !in s1.live && CallOf(s1, t) == Done
  {
  }

  lemma OwnedLive(s: State, t: Tid, h: Handle)
    requires Inv(s) && h in Holding(CallOf(s, t))
    ensures h in s.live
  {
    hide Holding, Numbered;
    assert h in Held(s, Thread(t));
  }
}
