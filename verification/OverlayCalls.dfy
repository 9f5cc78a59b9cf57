/** What each call of the overlay other than a walk does from beginning to end. */
module OverlayCalls {
  import opened Bytes
  import opened Overlay
  import opened OverlayHandles
  import W = OverlayWalk
  import Fs = AgentFs

  // -------------------------------------------------------------------- clunk

  /**
   * Clunking a fid takes exactly that entry out of the table, and the call's next step, whatever
   * happens in between, releases what the entry held and nothing else.
   */
  lemma ClunkReleases(s: State, t: Tid, fid: Fid, events: seq<Event>, r1: Reply, r2: Reply)
    requires Inv(s) && CallOf(s, t) == ClunkEntry(fid) && fid in s.fids && Elsewhere(t, events)
    ensures var s1 := Advance(s, t, r1);
            var s2 := Run(s1, events);
            var s3 := Advance(s2, t, r2);
            && s1.fids == s.fids - {fid} && s1.live == s.live && NodeHandles(s.fids[fid]) <= s2.live
            && s3.fids == s2.fids && s3.live == s2.live - NodeHandles(s.fids[fid]) && CallOf(s3, t) == Done
  {
    hide Run, Inv, Advance;
    ClunkStarts(s, t, fid, r1);
    var s1, held := Advance(s, t, r1), NodeHandles(s.fids[fid]);
    HappenKeeps(s, Step(t, r1));
    OthersKeepCall(s1, t, events);
    var s2 := Run(s1, events);
    forall h | h in held ensures h in s2.live { OwnedLive(s2, t, h); }
    ReleaseEnds(s2, t, s.fids[fid], r2);
  }

  lemma ClunkStarts(s: State, t: Tid, fid: Fid, reply: Reply)
    requires Inv(s) && CallOf(s, t) == ClunkEntry(fid) && fid in s.fids
    ensures var s1 := Advance(s, t, reply);
            && s1.fids == s.fids - {fid} && s1.live == s.live && CallOf(s1, t) == ReleaseNode(s.fids[fid])
            && Holding(CallOf(s1, t)) == NodeHandles(s.fids[fid])
  {
    hide Owned;
    RestDispatch(s, t, reply);
  }

  lemma ReleaseEnds(s: State, t: Tid, node: Node, reply: Reply)
    requires CallOf(s, t) == ReleaseNode(node)
    ensures var s1 := Advance(s, t, reply);
            s1.fids == s.fids && s1.live == s.live - NodeHandles(node) && CallOf(s1, t) == Done
  {
    hide AdvanceCreate;
    if CallOf(s, t) == Done { DoneStays(s, t, reply); }
  }

  /** Clunking a fid that names nothing, or the root, changes nothing. */
  lemma ClunkNothing(s: State, t: Tid, fid: Fid, reply: Reply)
    requires CallOf(s, t) == ClunkEntry(fid) && (fid == ROOT || fid !in s.fids)
    ensures Advance(s, t, reply) == s.(calls := s.calls[t := Done])
  {
    RestDispatch(s, t, reply);
  }

  // ------------------------------------------------------------- undisturbed

  /** The call on thread `t` alone, answered by `replies`. */
  function After(s: State, t: Tid, replies: seq<Reply>): State
    decreases |replies|
  {
    if replies == [] then s else After(Advance(s, t, replies[0]), t, replies[1..])
  }

  lemma Unfold(s: State, t: Tid, reply: Reply, rest: seq<Reply>)
    ensures After(s, t, [reply] + rest) == After(Advance(s, t, reply), t, rest)
  {
    hide Advance;
    assert ([reply] + rest)[1..] == rest;
  }

  /** The next process handle is free. */
  predicate ProcFree(s: State) { Handle(Proc, s.nextProc) !in s.live }

  /** Where a file can be made: below an agent, except in place of what the overlay shows there, and below /proc. */
  predicate Creatable(node: Node, name: string)
  {
    match node
    case AgentRoot(_, _) =>
      name !in {"children", "io", "status", "parent", "credentials", "exit", "ctl", "namespace"}
    case AgentFile(_, _, _) | ProcFile(_, _, _) => true
    case _ => false
  }

  /** `made` is a file `name` below `node`, on the same server. */
  predicate MadeBelow(node: Node, name: string, made: Node)
  {
    match node
    case AgentRoot(pid, server) => made.AgentFile? && made.pid == pid && made.server == server
    case AgentFile(pid, server, _) => made.AgentFile? && made.pid == pid && made.server == server
    case ProcFile(_, pid, bound) => made.ProcFile? && made.pid == pid && made.names == bound + [name]
    case _ => false
  }

  /** How a create ends: a new file under a handle of its own, or nothing. */
  predicate Made(s: State, s1: State, t: Tid, newfid: Fid, node: Node, name: string, accepted: bool)
  {
    && CallOf(s1, t) == Done
    && if accepted && Creatable(node, name)
       then newfid in s1.fids && MadeBelow(node, name, s1.fids[newfid])
            && s1.fids == s.fids[newfid := s1.fids[newfid]]
            && NodeHandles(s1.fids[newfid]) !! s.live && s1.live == s.live + NodeHandles(s1.fids[newfid])
       else s1.fids == s.fids && s1.live == s.live
  }

  /** An undisturbed create binds its fid to a new file iff the name is free for it and the server makes it. */
  lemma CreateArrives(s: State, t: Tid, fid: Fid, newfid: Fid, name: string, node: Node, accepted: bool)
    requires Inv(s) && ProcFree(s) && CallOf(s, t) == CreateCheck(fid, newfid, name) && !Taken(s, newfid)
    requires LookupNode(s, fid) == Some(node)
    ensures Made(s, After(s, t, [Yes, Yes] + [if accepted then Yes else No, Yes]), t, newfid, node, name, accepted)
  {
    hide Inv, Advance, Made, Creatable;
    var s1, s2 := Go(s, t, CreateNode(fid, newfid, name)), Go(s, t, Making(node, newfid, name));
    CreateStarts(s, t, fid, newfid, name, node);
    var reply := if accepted then Yes else No;
    Unfold(s, t, Yes, [Yes] + [reply, Yes]);
    assert [Yes, Yes] + [reply, Yes] == [Yes] + ([Yes] + [reply, Yes]);
    Unfold(s1, t, Yes, [reply, Yes]);
    CreateEnds(s, s2, t, newfid, name, node, accepted);
    assert [reply, Yes] == [reply] + [Yes];
    Unfold(s2, t, reply, [Yes]);
    Unfold(Advance(s2, t, reply), t, Yes, []);
    assert [Yes] == [Yes] + [];
  }

  /** What a create does once it knows its node. */
  function Making(node: Node, newfid: Fid, name: string): Call
  {
    match node
    case AgentRoot(pid, server) => if Creatable(node, name) then CreateAgent(newfid, pid, server) else Done
    case AgentFile(pid, server, _) => CreateAgent(newfid, pid, server)
    case ProcFile(_, pid, bound) => CreateProc(newfid, pid, bound + [name])
    case _ => Done
  }

  lemma CreateStarts(s: State, t: Tid, fid: Fid, newfid: Fid, name: string, node: Node)
    requires CallOf(s, t) == CreateCheck(fid, newfid, name) && !Taken(s, newfid) && LookupNode(s, fid) == Some(node)
    ensures var s1, s2 := Go(s, t, CreateNode(fid, newfid, name)), Go(s, t, Making(node, newfid, name));
            Advance(s, t, Yes) == s1 && Advance(s1, t, Yes) == s2
  {
    hide Advance, AdvanceRest;
    var s1 := Go(s, t, CreateNode(fid, newfid, name));
    CreateDispatch(s, t, Yes);
    CreateDispatch(s1, t, Yes);
  }

  lemma CreateEnds(s: State, s0: State, t: Tid, newfid: Fid, name: string, node: Node, accepted: bool)
    requires Inv(s) && ProcFree(s) && !Taken(s, newfid) && s0 == Go(s, t, Making(node, newfid, name))
    ensures Made(s, Advance(Advance(s0, t, if accepted then Yes else No), t, Yes), t, newfid, node, name, accepted)
  {
    hide Advance, Inv, Creatable, CallOf;
    NotMade(node, newfid, name);
    assert CallOf(s0, t) == Making(node, newfid, name) by { GoesTo(s, t, Making(node, newfid, name)); }
    match Making(node, newfid, name)
    case CreateAgent(_, pid, server) => AgentMade(s, s0, t, newfid, pid, server, accepted);
    case CreateProc(_, pid, bound) => ProcMade(s, s0, t, newfid, pid, bound, accepted);
    case _ =>
      DoneStays(s0, t, if accepted then Yes else No);
      DoneStays(s0, t, Yes);
  }

  lemma GoesTo(s: State, t: Tid, c: Call)
    ensures CallOf(Go(s, t, c), t) == c
  {
  }

  lemma FreshNumbers(s: State)
    requires Inv(s)
    ensures forall i :: Handle(Agent(i), s.nextBacking) !in s.live
  {
    NumberedFacts(s);
  }

  lemma AgentMade(s: State, s0: State, t: Tid, newfid: Fid, pid: string, server: nat, accepted: bool)
    requires Inv(s) && !Taken(s, newfid) && s0 == Go(s, t, CreateAgent(newfid, pid, server))
    ensures var s2 := Advance(Advance(s0, t, if accepted then Yes else No), t, Yes);
            var made: Node := AgentFile(pid, server, s.nextBacking);
            && CallOf(s2, t) == Done && NodeHandles(made) !! s.live
            && s2.fids == (if accepted then s.fids[newfid := made] else s.fids)
            && s2.live == if accepted then s.live + NodeHandles(made) else s.live
  {
    hide Advance, Inv, AdvanceRest;
    FreshNumbers(s);
    var reply := if accepted then Yes else No;
    CreateDispatch(s0, t, reply);
    CreateDispatch(Advance(s0, t, reply), t, Yes);
  }

  lemma ProcMade(s: State, s0: State, t: Tid, newfid: Fid, pid: string, bound: seq<string>, accepted: bool)
    requires ProcFree(s) && !Taken(s, newfid) && s0 == Go(s, t, CreateProc(newfid, pid, bound))
    ensures var s2 := Advance(Advance(s0, t, if accepted then Yes else No), t, Yes);
            var made: Node := ProcFile(s.nextProc, pid, bound);
            && CallOf(s2, t) == Done && NodeHandles(made) !! s.live
            && s2.fids == (if accepted then s.fids[newfid := made] else s.fids)
            && s2.live == if accepted then s.live + NodeHandles(made) else s.live
  {
    hide Advance, AdvanceRest;
    var reply := if accepted then Yes else No;
    CreateDispatch(s0, t, reply);
    if accepted {
      CreateDispatch(Advance(s0, t, reply), t, Yes);
    } else {
      DoneStays(Advance(s0, t, reply), t, Yes);
    }
  }

  lemma NotMade(node: Node, newfid: Fid, name: string)
    ensures Making(node, newfid, name) == Done <==> !Creatable(node, name)
  {
  }

  /** A create over a fid in use changes nothing. */
  lemma CreateRefused(s: State, t: Tid, fid: Fid, newfid: Fid, name: string, reply: Reply)
    requires CallOf(s, t) == CreateCheck(fid, newfid, name) && Taken(s, newfid)
    ensures Advance(s, t, reply) == s.(calls := s.calls[t := Done])
  {
    CreateDispatch(s, t, reply);
  }

  /** An undisturbed registration ends with the process registered, whether or not its parent could be read. */
  lemma RegistrationArrives(s: State, t: Tid, pid: string, server: nat, seen: bool)
    requires ProcFree(s) && CallOf(s, t) == BindParent(pid, server)
    ensures var s1 := After(s, t, [if seen then Yes else No] + [Yes, Yes]);
            && s1.agents == s.agents[pid := server] && s1.rootPid == s.rootPid && s1.fids == s.fids
            && s1.live == s.live && s1.leaked == s.leaked && CallOf(s1, t) == Done
  {
    hide Advance, AdvanceRest;
    var reply := if seen then Yes else No;
    var h := Handle(Proc, s.nextProc);
    var s1, s3 := Advance(s, t, reply), Go(FreshProc(s).(agents := s.agents[pid := server]), t, Done);
    var s2 := Advance(s1, t, Yes);
    Unfold(s, t, reply, [Yes, Yes]);
    assert [Yes, Yes] == [Yes] + [Yes] && [Yes] == [Yes] + [];
    Unfold(s1, t, Yes, [Yes]);
    Unfold(s2, t, Yes, []);
    RegistrationSteps(s, t, pid, server, seen);
  }

  lemma RegistrationSteps(s: State, t: Tid, pid: string, server: nat, seen: bool)
    requires ProcFree(s) && CallOf(s, t) == BindParent(pid, server)
    ensures var s0 := FreshProc(s);
            var s1, s2 := Go(s0, t, BindInsert(pid, server)), Go(s0.(agents := s.agents[pid := server]), t, Done);
            if seen
            then Advance(Advance(Advance(s, t, Yes), t, Yes), t, Yes) == s2
            else Advance(s, t, No) == s1 && Advance(s1, t, Yes) == s2 && Advance(s2, t, Yes) == s2
  {
    hide Advance, AdvanceRest, AdvanceCreate;
    var s0 := FreshProc(s);
    var s1, s2 := Go(s0, t, BindInsert(pid, server)), Go(s0.(agents := s.agents[pid := server]), t, Done);
    ParentRead(s, t, pid, server, seen);
    Registered(s1, t, pid, server);
    assert s1.calls[t := Done] == s2.calls;
    DoneStays(s2, t, Yes);
  }

  lemma Registered(s: State, t: Tid, pid: string, server: nat)
    requires CallOf(s, t) == BindInsert(pid, server)
    ensures Advance(s, t, Yes) == Go(s.(agents := s.agents[pid := server]), t, Done)
  {
    RestDispatch(s, t, Yes);
  }

  lemma ParentRead(s: State, t: Tid, pid: string, server: nat, seen: bool)
    requires ProcFree(s) && CallOf(s, t) == BindParent(pid, server)
    ensures var s1 := Go(FreshProc(s), t, BindInsert(pid, server));
            if seen then Advance(Advance(s, t, Yes), t, Yes) == s1 else Advance(s, t, No) == s1
  {
    hide Advance, AdvanceCreate;
    var s0, h := FreshProc(s), Handle(Proc, s.nextProc);
    var held := Go(s0.(live := s.live + {h}), t, BindHeld(h, pid, server));
    RestDispatch(s, t, if seen then Yes else No);
    if seen {
      RestDispatch(held, t, Yes);
      assert s.live + {h} - {h} == s.live;
      assert held.calls[t := BindInsert(pid, server)] == s.calls[t := BindInsert(pid, server)];
    }
  }

  /** An undisturbed listing of an agent directory, every answer good, gives back all it took. */
  lemma ListingArrives(s: State, t: Tid, fid: Fid, pid: string, server: nat)
    requires Inv(s) && CallOf(s, t) == ListNode(fid) && LookupNode(s, fid) == Some(AgentRoot(pid, server))
    requires Handle(Proc, s.nextBacking + 1) !in s.live
    ensures var s1 := After(s, t, [Yes] + ([Yes, Yes, Yes, Yes] + [Yes, Yes, Yes, Yes]));
            && s1 == s.(nextBacking := s.nextBacking + 2, calls := s.calls[t := Done])
  {
    hide Advance, Inv, AdvanceRest, After;
    FreshNumbers(s);
    ListBegins(s, t, fid, pid, server);
    var four := [Yes, Yes, Yes, Yes];
    var s0 := Go(s, t, ListBacking(pid, server));
    Unfold(s, t, Yes, four + four);
    var s1 := Go(FreshBacking(s), t, ListProc(pid));
    var s2 := Go(FreshBacking(s1), t, Done);
    ListOne(s0, t, Handle(Agent(server), s.nextBacking), Some(pid));
    assert Go(FreshBacking(s0), t, ListProc(pid)).calls == s1.calls;
    ListOne(s1, t, Handle(Proc, s1.nextBacking), None);
    AfterAppend(s0, t, four, four);
    assert s1.calls[t := Done] == s.calls[t := Done];
    assert s2 == s.(nextBacking := s.nextBacking + 2, calls := s.calls[t := Done]);
  }

  lemma {:induction false} AfterAppend(s: State, t: Tid, a: seq<Reply>, b: seq<Reply>)
    ensures After(s, t, a + b) == After(After(s, t, a), t, b)
    decreases |a|
  {
    hide Advance;
    if a == [] {
      assert a + b == b;
    } else {
      assert (a + b)[1..] == a[1..] + b;
      AfterAppend(Advance(s, t, a[0]), t, a[1..], b);
    }
  }

  /** One directory: walk, open, stat, release. */
  lemma ListOne(s: State, t: Tid, h: Handle, next: Option<string>)
    requires h !in s.live && h.number == s.nextBacking
    requires if h.server.Agent? then next.Some? && CallOf(s, t) == ListBacking(next.value, h.server.id)
             else next.None? && CallOf(s, t).ListProc?
    ensures After(s, t, [Yes, Yes, Yes, Yes]) == Go(FreshBacking(s), t, AfterListing(next))
  {
    hide Advance;
    ListHalf(s, t, h, next);
    var s1 := Go(FreshBacking(s).(live := s.live + {h}), t, ListStat(h, next));
    ListRest(s, s1, t, h, next);
    assert [Yes, Yes, Yes, Yes] == [Yes, Yes] + [Yes, Yes];
    AfterAppend(s, t, [Yes, Yes], [Yes, Yes]);
  }

  lemma ListBegins(s: State, t: Tid, fid: Fid, pid: string, server: nat)
    requires CallOf(s, t) == ListNode(fid) && LookupNode(s, fid) == Some(AgentRoot(pid, server))
    ensures Advance(s, t, Yes) == Go(s, t, ListBacking(pid, server))
  {
    RestDispatch(s, t, Yes);
  }

  /** What a good answer does to a listing that holds its handle. */
  lemma ListGoesOn(s: State, t: Tid)
    requires CallOf(s, t).ListOpen? || CallOf(s, t).ListStat? || CallOf(s, t).ListClunk?
    ensures Advance(s, t, Yes) ==
            match CallOf(s, t)
            case ListOpen(h, next) => Go(s, t, ListStat(h, next))
            case ListStat(h, next) => Go(s, t, ListClunk(h, next))
            case ListClunk(h, next) => Go(s.(live := s.live - {h}), t, AfterListing(next))
            case _ => s
  {
    hide Advance, AfterListing;
    RestDispatch(s, t, Yes);
  }

  lemma Twice(s: State, t: Tid)
    ensures After(s, t, [Yes, Yes]) == Advance(Advance(s, t, Yes), t, Yes)
  {
    hide Advance;
    Unfold(s, t, Yes, [Yes]);
    assert [Yes, Yes] == [Yes] + [Yes] && [Yes] == [Yes] + [];
    Unfold(Advance(s, t, Yes), t, Yes, []);
  }

  lemma ListHalf(s: State, t: Tid, h: Handle, next: Option<string>)
    requires h !in s.live && h.number == s.nextBacking
    requires if h.server.Agent? then next.Some? && CallOf(s, t) == ListBacking(next.value, h.server.id)
             else next.None? && CallOf(s, t).ListProc?
    ensures After(s, t, [Yes, Yes]) == Go(FreshBacking(s).(live := s.live + {h}), t, ListStat(h, next))
  {
    hide Advance, AfterListing;
    Twice(s, t);
    var s1 := Go(FreshBacking(s).(live := s.live + {h}), t, ListOpen(h, next));
    RestDispatch(s, t, Yes);
    assert Advance(s1, t, Yes) == Go(s1, t, ListStat(h, next)) by { ListGoesOn(s1, t); }
    assert s1.calls[t := ListStat(h, next)] == s.calls[t := ListStat(h, next)];
  }

  lemma ListRest(s: State, s1: State, t: Tid, h: Handle, next: Option<string>)
    requires h !in s.live && s1 == Go(FreshBacking(s).(live := s.live + {h}), t, ListStat(h, next))
    ensures After(s1, t, [Yes, Yes]) == Go(FreshBacking(s), t, AfterListing(next))
  {
    hide Advance, AfterListing, AdvanceRest, After;
    Twice(s1, t);
    var s2 := Go(FreshBacking(s).(live := s.live + {h}), t, ListClunk(h, next));
    ListGoesOn(s1, t);
    assert s1.calls[t := ListClunk(h, next)] == s2.calls;
    ListGoesOn(s2, t);
    assert s.live + {h} - {h} == s.live;
    assert s2.calls[t := AfterListing(next)] == s.calls[t := AfterListing(next)];
  }

  /** The answers to a listing of `n` children: each one looked at and let go, then the end. */
  function ChildAnswers(n: nat): seq<Reply> { if n == 0 then [Yes] else [More, Yes] + ChildAnswers(n - 1) }

  /** No process handle still to be drawn is live. */
  predicate ProcFresh(s: State) { forall h :: h in s.live && h.server == Proc ==> h.number < s.nextProc }

  /** An undisturbed listing of children looks at each of them through a handle of its own and keeps none. */
  lemma ChildListingArrives(s: State, t: Tid, fid: Fid, pid: string, n: nat)
    requires CallOf(s, t) == ListNode(fid) && LookupNode(s, fid) == Some(AgentChildren(pid)) && ProcFresh(s)
    ensures After(s, t, [Yes] + ChildAnswers(n)) == s.(nextProc := s.nextProc + n, calls := s.calls[t := Done])
  {
    hide Advance, After, ChildAnswers;
    var s1 := Go(s, t, ChildRead(pid));
    assert Advance(s, t, Yes) == s1 by { ChildListBegins(s, t, fid, pid); }
    Unfold(s, t, Yes, ChildAnswers(n));
    ChildrenRead(s1, t, pid, n);
    assert s1.calls[t := Done] == s.calls[t := Done];
  }

  lemma ChildListBegins(s: State, t: Tid, fid: Fid, pid: string)
    requires CallOf(s, t) == ListNode(fid) && LookupNode(s, fid) == Some(AgentChildren(pid))
    ensures Advance(s, t, Yes) == Go(s, t, ChildRead(pid))
  {
    RestDispatch(s, t, Yes);
  }

  lemma {:induction false} ChildrenRead(s: State, t: Tid, pid: string, n: nat)
    requires CallOf(s, t) == ChildRead(pid) && ProcFresh(s)
    ensures After(s, t, ChildAnswers(n)) == s.(nextProc := s.nextProc + n, calls := s.calls[t := Done])
    decreases n
  {
    hide Advance, After;
    if n == 0 {
      assert ChildAnswers(0) == [Yes] + [];
      Unfold(s, t, Yes, []);
      assert Advance(s, t, Yes) == Go(s, t, Done) by { ChildrenEnd(s, t, pid); }
      NoMore(Go(s, t, Done), t);
    } else {
      var s1 := Go(FreshProc(s), t, ChildRead(pid));
      OneChild(s, t, pid);
      assert ChildAnswers(n) == [More] + ([Yes] + ChildAnswers(n - 1));
      Unfold(s, t, More, [Yes] + ChildAnswers(n - 1));
      Unfold(Advance(s, t, More), t, Yes, ChildAnswers(n - 1));
      ChildrenRead(s1, t, pid, n - 1);
      assert s1.calls[t := Done] == s.calls[t := Done];
    }
  }

  lemma NoMore(s: State, t: Tid)
    ensures After(s, t, []) == s
  {
  }

  lemma ChildrenEnd(s: State, t: Tid, pid: string)
    requires CallOf(s, t) == ChildRead(pid)
    ensures Advance(s, t, Yes) == Go(s, t, Done)
  {
    RestDispatch(s, t, Yes);
  }

  lemma OneChild(s: State, t: Tid, pid: string)
    requires CallOf(s, t) == ChildRead(pid) && ProcFresh(s)
    ensures Advance(Advance(s, t, More), t, Yes) == Go(FreshProc(s), t, ChildRead(pid))
  {
    hide Advance, AdvanceCreate;
    var h := Handle(Proc, s.nextProc);
    var held := Go(FreshProc(s).(live := s.live + {h}), t, ChildReadHeld(h, pid));
    RestDispatch(s, t, More);
    assert Advance(s, t, More) == held;
    RestDispatch(held, t, Yes);
    assert s.live + {h} - {h} == s.live;
    assert held.calls[t := ChildRead(pid)] == s.calls[t := ChildRead(pid)];
  }

  // -------------------------------------------------------------------- names

  /**
   * Below an agent's directory seven names lead to its process, `children` to its children, and every
   * other name to its own tree, of which the overlay hides exactly `io` and `children`.
   */
  lemma NamesServed(w: W.World, pid: string, server: nat, name: string, rest: seq<string>, fs: Fs.State)
    ensures W.BindAgent(w, pid, server, [name] + rest) ==
            if name == "children" then W.BindChild(w, pid, rest)
            else if || name == "status" || name == "parent" || name == "credentials" || name == "exit"
                    || name == "ctl" || name == "namespace" || name == "io"
            then W.ProcAt(w, pid, [name] + rest)
            else W.FileAt(w, pid, server, [name] + rest)
    ensures Fs.Child(fs, Fs.Root, name).Ok? ==>
              ((name == "children" || IsProcOverlayName(name)) <==> name in {"io", "children"})
  {
    assert ([name] + rest)[1..] == rest;
  }

  /** What can be created in an agent's directory is what a walk by that name then looks for in its tree. */
  lemma CreatedIsSought(w: W.World, pid: string, server: nat, name: string)
    ensures Creatable(AgentRoot(pid, server), name) ==>
              W.BindAgent(w, pid, server, [name]) == W.FileAt(w, pid, server, [name])
    ensures !Creatable(AgentRoot(pid, server), name) ==>
              W.BindAgent(w, pid, server, [name]) in {W.BindChild(w, pid, []), W.ProcAt(w, pid, [name])}
  {
  }

  /** The world as the overlay's registrations now stand. */
  function Seen(w: W.World, s: State): W.World { w.(agents := s.agents, rootPid := s.rootPid) }

  /** An unregistered process is found neither by pid nor as `root`, and every other name leads where it did. */
  lemma UnboundIsGone(w: W.World, s: State, pid: string, name: string)
    ensures var s1 := Happen(s, UnbindProcess(pid));
            && s1.fids == s.fids && s1.live == s.live && s1.calls == s.calls
            && W.Entry(Seen(w, s1), name) ==
               if (if name == "root" then s.rootPid == Some(pid) else name == pid) then W.Err(W.NotFound)
               else W.Entry(Seen(w, s), name)
  {
  }

  /** A registered process whose process exists is found by its pid, and as `root` once it is the root. */
  lemma BoundIsFound(w: W.World, s: State, pid: string, server: nat)
    requires w.proc([pid]).Ok? && s.agents == s.agents[pid := server]
    ensures pid != "root" ==> W.Entry(Seen(w, s), pid) == W.Ok((pid, server))
    ensures W.Entry(Seen(w, Happen(s, SetRoot(pid))), "root") == W.Ok((pid, server))
  {
  }
}
