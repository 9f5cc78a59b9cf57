/**
 * The stepping walk does what the walk function says: undisturbed, and with the servers behind the
 * overlay answering as a fixed world does, a call binds the node that `OverlayWalk.Resolve` names.
 */
module OverlayRefinement {
  import opened Bytes
  import opened Overlay
  import W = OverlayWalk

  /** How the servers of a world answer a walk that started at `base`; `qid` is how the final query goes. */
  function Answer(w: W.World, base: seq<string>, qid: bool, c: Call): Reply
  {
    var yes :=
      match c
      case CheckPid(_, pid, _, _, _) => w.proc([pid]).Ok?
      case ReadParent(_, pid, _, _, _) => w.parent(pid).Ok?
      case ParentHeld(_, _, pid, _, _, parent) => w.parent(pid) == W.Ok(parent)
      case BackingWalk(_, _, server, rest) => w.tree(server, base + rest).Ok?
      case ProcWalk(_, pid, bound) => w.proc([pid] + bound).Ok?
      case QueryQid(_, _) => qid
      case _ => true;
    if yes then Yes else No
  }

  /** The call on thread `t` alone, for `n` steps. */
  function Drive(w: W.World, base: seq<string>, qid: bool, s: State, t: Tid, n: nat): State
    decreases n
  {
    if n == 0 then s else Drive(w, base, qid, Advance(s, t, Answer(w, base, qid, CallOf(s, t))), t, n - 1)
  }

  /** The node stands for the place; which handle a file node holds does not matter. */
  predicate StandsFor(node: Node, at: W.Place)
  {
    match node
    case Root => at == W.Root
    case AgentRoot(pid, server) => at == W.AgentRoot(pid, server)
    case AgentChildren(pid) => at == W.AgentChildren(pid)
    case AgentFile(pid, server, _) => at.AgentFile? && at.pid == pid && at.server == server
    case ProcFile(_, pid, names) => at == W.ProcFile(pid, names)
  }

  /** Registrations are those of the world, and no number still to be drawn is in use. */
  predicate Settled(w: W.World, s: State)
  {
    && s.agents == w.agents && s.rootPid == w.rootPid
    && forall h :: h in s.live ==> h.number < if h.server.Proc? then s.nextProc else s.nextBacking
  }

  /** How a walk for `newfid` ends: the place is bound, or nothing is. */
  predicate Bound(s: State, s1: State, t: Tid, newfid: Fid, place: W.Result<W.Place>, qid: bool)
  {
    && CallOf(s1, t) == Done
    && if place.Ok? && qid
       then newfid in s1.fids && StandsFor(s1.fids[newfid], place.value) && s1.fids == s.fids[newfid := s1.fids[newfid]]
       else s1.fids == s.fids
  }

  /** After some number of steps. */
  ghost predicate Arrives(
      w: W.World, base: seq<string>, qid: bool, s: State, t: Tid, newfid: Fid, place: W.Result<W.Place>)
  {
    exists n: nat :: Bound(s, Drive(w, base, qid, s, t, n), t, newfid, place, qid)
  }

  lemma OneStep(w: W.World, base: seq<string>, qid: bool, s: State, t: Tid, newfid: Fid, place: W.Result<W.Place>)
    requires var s1 := Advance(s, t, Answer(w, base, qid, CallOf(s, t)));
             s1.fids == s.fids && Arrives(w, base, qid, s1, t, newfid, place)
    ensures Arrives(w, base, qid, s, t, newfid, place)
  {
    hide Advance, Answer;
    var s1 := Advance(s, t, Answer(w, base, qid, CallOf(s, t)));
    var n: nat :| Bound(s1, Drive(w, base, qid, s1, t, n), t, newfid, place, qid);
    assert Drive(w, base, qid, s, t, n + 1) == Drive(w, base, qid, s1, t, n);
  }

  lemma NowDone(w: W.World, base: seq<string>, qid: bool, s: State, t: Tid, newfid: Fid, place: W.Result<W.Place>)
    requires CallOf(s, t) == Done && !(place.Ok? && qid)
    ensures Arrives(w, base, qid, s, t, newfid, place)
  {
    assert Drive(w, base, qid, s, t, 0) == s;
  }

  // ---------------------------------------------------------------- single steps

  /** A call alone on its thread that takes a handle. */
  lemma Acquired(w: W.World, s: State, t: Tid, server: Server, reply: Reply, yes: Call, no: Call)
    requires Settled(w, s)
    ensures var h := Handle(server, if server.Proc? then s.nextProc else s.nextBacking);
            var s1 := Acquire(if server.Proc? then FreshProc(s) else FreshBacking(s), t, h, reply, yes, no);
            Settled(w, s1) && s1.fids == s.fids && CallOf(s1, t) == if reply == Yes then yes else no
  {
  }

  lemma Dropped(w: W.World, s: State, t: Tid, h: Handle, next: Call)
    requires Settled(w, s)
    ensures var s1 := Drop(s, t, h, next); Settled(w, s1) && s1.fids == s.fids && CallOf(s1, t) == next
  {
  }

  lemma Went(w: W.World, s: State, t: Tid, next: Call)
    requires Settled(w, s)
    ensures var s1 := Go(s, t, next); Settled(w, s1) && s1.fids == s.fids && CallOf(s1, t) == next
  {
  }

  // ------------------------------------------------------------------- the end

  /** The final query, and the insertion or the release that follows. */
  lemma QueryArrives(w: W.World, base: seq<string>, qid: bool, s: State, t: Tid, newfid: Fid, node: Node, at: W.Place)
    requires Settled(w, s) && CallOf(s, t) == QueryQid(newfid, node) && !Taken(s, newfid) && StandsFor(node, at)
    ensures Arrives(w, base, qid, s, t, newfid, W.Ok(at))
  {
    hide AdvanceCreate, Settled, BindAgent, BindFrom;
    var place: W.Result<W.Place> := W.Ok(at);
    if qid {
      var s1 := Go(s, t, Insert(newfid, node));
      assert Advance(s, t, Yes) == s1;
      var s2 := Go(s1.(fids := s1.fids[newfid := node]), t, Done);
      assert Advance(s1, t, Yes) == s2;
      assert Drive(w, base, qid, s2, t, 0) == s2;
      assert Drive(w, base, qid, s1, t, 1) == s2;
      assert Drive(w, base, qid, s, t, 2) == s2;
      assert Bound(s, Drive(w, base, qid, s, t, 2), t, newfid, place, qid);
    } else {
      var s1 := Go(s, t, ReleaseNode(node));
      assert Advance(s, t, No) == s1;
      if ReleaseNode(node) != Done {
        var s2 := Drop(s1, t, ReleaseNode(node).held, Done);
        assert Advance(s1, t, Yes) == s2;
        NowDone(w, base, qid, s2, t, newfid, place);
        OneStep(w, base, qid, s1, t, newfid, place);
      } else {
        NowDone(w, base, qid, s1, t, newfid, place);
      }
      OneStep(w, base, qid, s, t, newfid, place);
    }
  }

  lemma FileArrives(
      w: W.World, base: seq<string>, qid: bool, s: State, t: Tid, newfid: Fid, pid: string, server: nat,
      rest: seq<string>)
    requires Settled(w, s) && CallOf(s, t) == BackingWalk(newfid, pid, server, rest) && !Taken(s, newfid)
    ensures Arrives(w, base, qid, s, t, newfid, W.FileAt(w, pid, server, base + rest))
  {
    hide AdvanceCreate, Settled, Acquire, BindAgent, BindFrom;
    var place := W.FileAt(w, pid, server, base + rest);
    var reply := Answer(w, base, qid, CallOf(s, t));
    var node: Node := AgentFile(pid, server, s.nextBacking);
    Acquired(w, s, t, Agent(server), reply, QueryQid(newfid, node), Done);
    var s1 := Advance(s, t, reply);
    if place.Ok? {
      QueryArrives(w, base, qid, s1, t, newfid, node, place.value);
    } else {
      NowDone(w, base, qid, s1, t, newfid, place);
    }
    OneStep(w, base, qid, s, t, newfid, place);
  }

  lemma ProcArrives(
      w: W.World, base: seq<string>, qid: bool, s: State, t: Tid, newfid: Fid, pid: string, bound: seq<string>)
    requires Settled(w, s) && CallOf(s, t) == ProcWalk(newfid, pid, bound) && !Taken(s, newfid)
    ensures Arrives(w, base, qid, s, t, newfid, W.ProcAt(w, pid, bound))
  {
    hide AdvanceCreate, Settled, Acquire, BindAgent, BindFrom;
    var place := W.ProcAt(w, pid, bound);
    var reply := Answer(w, base, qid, CallOf(s, t));
    var node: Node := ProcFile(s.nextProc, pid, bound);
    Acquired(w, s, t, Proc, reply, QueryQid(newfid, node), Done);
    var s1 := Advance(s, t, reply);
    if place.Ok? {
      QueryArrives(w, base, qid, s1, t, newfid, node, place.value);
    } else {
      NowDone(w, base, qid, s1, t, newfid, place);
    }
    OneStep(w, base, qid, s, t, newfid, place);
  }

  // -------------------------------------------------------- agents and children

  lemma {:induction false} AgentArrives(
      w: W.World, qid: bool, s: State, t: Tid, newfid: Fid, pid: string, server: nat, names: seq<string>)
    requires Settled(w, s) && CallOf(s, t) == BindAgent(newfid, pid, server, names) && !Taken(s, newfid)
    ensures Arrives(w, [], qid, s, t, newfid, W.BindAgent(w, pid, server, names))
    decreases |names|, 0
  {
    hide Settled, Arrives, IsProcOverlayName, W.BindChild, BindChild, W.FileAt, W.ProcAt;
    if names == [] {
      QueryArrives(w, [], qid, s, t, newfid, AgentRoot(pid, server), W.AgentRoot(pid, server));
    } else if names[0] == "children" {
      ChildArrives(w, qid, s, t, newfid, pid, names[1..]);
    } else if IsProcOverlayName(names[0]) {
      ProcArrives(w, [], qid, s, t, newfid, pid, names);
    } else {
      FileArrives(w, [], qid, s, t, newfid, pid, server, names);
      assert [] + names == names;
    }
  }

  lemma {:induction false} ChildArrives(
      w: W.World, qid: bool, s: State, t: Tid, newfid: Fid, parent: string, names: seq<string>)
    requires Settled(w, s) && CallOf(s, t) == BindChild(newfid, parent, names) && !Taken(s, newfid)
    ensures Arrives(w, [], qid, s, t, newfid, W.BindChild(w, parent, names))
    decreases |names|, 1
  {
    hide Settled, Arrives, W.BindAgent, BindAgent;
    if names == [] {
      QueryArrives(w, [], qid, s, t, newfid, AgentChildren(parent), W.AgentChildren(parent));
    } else if names[0] == "root" {
      NowDone(w, [], qid, s, t, newfid, W.BindChild(w, parent, names));
    } else {
      LookupArrives(w, qid, s, t, newfid, names[0], names[1..], Some(parent));
    }
  }

  /** What a name and, under `children`, a required parent lead to. */
  function Looked(w: W.World, name: string, rest: seq<string>, parent: Option<string>): W.Result<W.Place>
  {
    match W.Entry(w, name)
    case Err(e) => W.Err(e)
    case Ok((pid, server)) => if parent.None? then W.BindAgent(w, pid, server, rest)
      else Parented(w, pid, server, rest, parent)
  }

  function Parented(w: W.World, pid: string, server: nat, rest: seq<string>, parent: Option<string>): W.Result<W.Place>
  {
    match w.parent(pid)
    case Err(e) => W.Err(e)
    case Ok(p) => if p == parent then W.BindAgent(w, pid, server, rest) else W.Err(W.NotFound)
  }

  lemma {:induction false} LookupArrives(
      w: W.World, qid: bool, s: State, t: Tid, newfid: Fid, name: string, rest: seq<string>, parent: Option<string>)
    requires Settled(w, s) && CallOf(s, t) == Lookup(newfid, name, rest, parent) && !Taken(s, newfid)
    requires parent.Some? ==> name != "root"
    ensures Arrives(w, [], qid, s, t, newfid, Looked(w, name, rest, parent))
    decreases |rest|, 4
  {
    hide Arrives, AdvanceCreate, W.BindAgent, BindAgent, BindFrom;
    var place := Looked(w, name, rest, parent);
    var pid := if name == "root" then w.rootPid else Some(name);
    var reply := Answer(w, [], qid, CallOf(s, t));
    if pid.None? || pid.value !in w.agents {
      Went(w, s, t, Done);
      NowDone(w, [], qid, Go(s, t, Done), t, newfid, place);
    } else {
      var c: Call := CheckPid(newfid, pid.value, w.agents[pid.value], rest, parent);
      Went(w, s, t, c);
      PidArrives(w, qid, Go(s, t, c), t, newfid, pid.value, w.agents[pid.value], rest, parent, place);
    }
    OneStep(w, [], qid, s, t, newfid, place);
  }

  lemma {:induction false} PidArrives(
      w: W.World, qid: bool, s: State, t: Tid, newfid: Fid, pid: string, server: nat, rest: seq<string>,
        parent: Option<string>,
      place: W.Result<W.Place>)
    requires Settled(w, s) && CallOf(s, t) == CheckPid(newfid, pid, server, rest, parent) && !Taken(s, newfid)
    requires w.proc([pid]).Err? ==> place.Err?
    requires w.proc([pid]).Ok? ==>
               place == if parent.None? then W.BindAgent(w, pid, server, rest)
                 else Parented(w, pid, server, rest, parent)
    ensures Arrives(w, [], qid, s, t, newfid, place)
    decreases |rest|, 3
  {
    hide Arrives, AdvanceCreate, Settled, Acquire, Drop, W.BindAgent, BindAgent, BindFrom, Parented;
    var reply := Answer(w, [], qid, CallOf(s, t));
    var h := Handle(Proc, s.nextProc);
    Acquired(w, s, t, Proc, reply, PidHeld(h, newfid, pid, server, rest, parent), Done);
    var s1 := Advance(s, t, reply);
    if w.proc([pid]).Err? {
      NowDone(w, [], qid, s1, t, newfid, place);
    } else {
      var next := if parent.None? then BindAgent(newfid, pid, server, rest)
        else ReadParent(newfid, pid, server, rest, parent);
      Dropped(w, s1, t, h, next);
      var s2 := Advance(s1, t, Yes);
      assert s2 == Drop(s1, t, h, next);
      if parent.None? {
        AgentArrives(w, qid, s2, t, newfid, pid, server, rest);
      } else {
        ParentArrives(w, qid, s2, t, newfid, pid, server, rest, parent);
      }
      OneStep(w, [], qid, s1, t, newfid, place);
    }
    OneStep(w, [], qid, s, t, newfid, place);
  }

  lemma {:induction false} ParentArrives(
      w: W.World, qid: bool, s: State, t: Tid, newfid: Fid, pid: string, server: nat, rest: seq<string>,
        parent: Option<string>)
    requires Settled(w, s) && CallOf(s, t) == ReadParent(newfid, pid, server, rest, parent) && !Taken(s, newfid)
    ensures Arrives(w, [], qid, s, t, newfid, Parented(w, pid, server, rest, parent))
    decreases |rest|, 2
  {
    hide Arrives, AdvanceCreate, Settled, Acquire, Drop, W.BindAgent, BindAgent, BindFrom;
    var place := Parented(w, pid, server, rest, parent);
    var reply := Answer(w, [], qid, CallOf(s, t));
    var h := Handle(Proc, s.nextProc);
    Acquired(w, s, t, Proc, reply, ParentHeld(h, newfid, pid, server, rest, parent), Done);
    var s1 := Advance(s, t, reply);
    if w.parent(pid).Err? {
      NowDone(w, [], qid, s1, t, newfid, place);
    } else {
      var next := if w.parent(pid) == W.Ok(parent) then BindAgent(newfid, pid, server, rest) else Done;
      Dropped(w, s1, t, h, next);
      var s2 := Advance(s1, t, Answer(w, [], qid, CallOf(s1, t)));
      assert s2 == Drop(s1, t, h, next);
      if w.parent(pid) == W.Ok(parent) {
        AgentArrives(w, qid, s2, t, newfid, pid, server, rest);
      } else {
        NowDone(w, [], qid, s2, t, newfid, place);
      }
      OneStep(w, [], qid, s1, t, newfid, place);
    }
    OneStep(w, [], qid, s, t, newfid, place);
  }

  // --------------------------------------------------------------------- walks

  lemma BindArrives(w: W.World, qid: bool, s: State, t: Tid, newfid: Fid, node: Node, at: W.Place, names: seq<string>)
    requires Settled(w, s) && CallOf(s, t) == BindFrom(s, node, newfid, names) && !Taken(s, newfid) &&
             StandsFor(node, at)
    ensures Arrives(w, if at.AgentFile? then at.path else [], qid, s, t, newfid, W.Resolve(w, at, names))
  {
    hide Settled, Arrives, W.BindAgent, W.BindChild, BindAgent, BindChild, W.FileAt, W.ProcAt;
    match node {
      case Root => {
        if names == [] {
          QueryArrives(w, [], qid, s, t, newfid, node, at);
        } else {
          LookupArrives(w, qid, s, t, newfid, names[0], names[1..], None);
        }
      }
      case AgentRoot(pid, server) => { AgentArrives(w, qid, s, t, newfid, pid, server, names); }
      case AgentChildren(pid) => { ChildArrives(w, qid, s, t, newfid, pid, names); }
      case AgentFile(pid, server, _) => { FileArrives(w, at.path, qid, s, t, newfid, pid, server, names); }
      case ProcFile(_, pid, bound) => { ProcArrives(w, [], qid, s, t, newfid, pid, bound + names); }
    }
  }

  /**
   * An undisturbed walk binds `newfid` to a node for the place that `Resolve` names and changes
   * no other entry; if `Resolve` fails, or the final query does, it binds nothing.
   */
  lemma WalkArrives(
      w: W.World, qid: bool, s: State, t: Tid, fid: Fid, newfid: Fid, names: seq<string>, node: Node, at: W.Place)
    requires Settled(w, s) && CallOf(s, t) == WalkCheck(fid, newfid, names) && !Taken(s, newfid)
    requires LookupNode(s, fid) == Some(node) && StandsFor(node, at)
    ensures Arrives(w, if at.AgentFile? then at.path else [], qid, s, t, newfid, W.Resolve(w, at, names))
  {
    hide Settled, Arrives, AdvanceCreate, BindFrom, BindAgent, W.Resolve;
    var base, place := if at.AgentFile? then at.path else [], W.Resolve(w, at, names);
    var s1 := Go(s, t, WalkNode(fid, newfid, names));
    Went(w, s, t, WalkNode(fid, newfid, names));
    assert Advance(s, t, Yes) == s1;
    var s2 := Go(s1, t, BindFrom(s1, node, newfid, names));
    Went(w, s1, t, BindFrom(s1, node, newfid, names));
    assert Advance(s1, t, Yes) == s2;
    BindLocal(s1, s2, node, newfid, names);
    BindArrives(w, qid, s2, t, newfid, node, at, names);
    OneStep(w, base, qid, s1, t, newfid, place);
    OneStep(w, base, qid, s, t, newfid, place);
  }

  lemma BindLocal(s: State, s1: State, node: Node, newfid: Fid, names: seq<string>)
    ensures BindFrom(s, node, newfid, names) == BindFrom(s1, node, newfid, names)
  {
  }
}
