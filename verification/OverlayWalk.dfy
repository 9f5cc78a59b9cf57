/**
 * What a name under `/agent` means while /proc and the registrations stand still: the binding a
 * walk arrives at, as a function, across the root, agent, children, agent-file and process-file
 * nodes.
 */
module OverlayWalk {
  import opened Bytes
  import O = Overlay
  import Fs = AgentFs

  datatype Error = NotFound | Other(code: nat)
  datatype Result<+T> = Ok(value: T) | Err(error: Error)

  /** A bound node; for a file, where in its server's tree it is. */
  datatype Place =
    | Root
    | AgentRoot(pid: string, server: nat)
    | AgentChildren(pid: string)
    | AgentFile(pid: string, server: nat, path: seq<string>)
    | ProcFile(pid: string, path: seq<string>)

  /**
   * A fixed world. `tree` and `proc` say whether a path exists on a server, `Ok(())` or the error
   * of walking there; walking is assumed to stop at the first name that fails.
   */
  datatype World = World(
    agents: map<string, nat>, rootPid: Option<string>,
    parent: string -> Result<Option<string>>,
    tree: (nat, seq<string>) -> Result<()>,
    proc: seq<string> -> Result<()>)

  /** On every server, a path fails exactly as its first failing prefix does. */
  ghost predicate Stepwise(w: World)
  {
    && (forall server, a: seq<string>, b: seq<string> :: w.tree(server, a).Err? ==>
      w.tree(server, a + b) == w.tree(server, a))
    && (forall a: seq<string>, b: seq<string> :: w.proc(a).Err? ==> w.proc(a + b) == w.proc(a))
  }

  /** The agent registered under `name`, if its process exists. */
  function Entry(w: World, name: string): Result<(string, nat)>
  {
    var pid := if name == "root" then w.rootPid else Some(name);
    if pid.None? || pid.value !in w.agents then Err(NotFound)
    else match w.proc([pid.value])
      case Ok(_) => Ok((pid.value, w.agents[pid.value]))
      case Err(e) => Err(e)
  }

  function FileAt(w: World, pid: string, server: nat, path: seq<string>): Result<Place>
  {
    match w.tree(server, path) case Ok(_) => Ok(AgentFile(pid, server, path)) case Err(e) => Err(e)
  }

  function ProcAt(w: World, pid: string, path: seq<string>): Result<Place>
  {
    match w.proc([pid] + path) case Ok(_) => Ok(ProcFile(pid, path)) case Err(e) => Err(e)
  }

  function BindAgent(w: World, pid: string, server: nat, names: seq<string>): Result<Place>
    decreases |names|, 0
  {
    if names == [] then Ok(AgentRoot(pid, server))
    else if names[0] == "children" then BindChild(w, pid, names[1..])
    else if O.IsProcOverlayName(names[0]) then ProcAt(w, pid, names)
    else FileAt(w, pid, server, names)
  }

  function BindChild(w: World, parent: string, names: seq<string>): Result<Place>
    decreases |names|, 1
  {
    if names == [] then Ok(AgentChildren(parent))
    else if names[0] == "root" then Err(NotFound)
    else match Entry(w, names[0])
      case Err(e) => Err(e)
      case Ok((pid, server)) =>
        match w.parent(pid)
        case Err(e) => Err(e)
        case Ok(p) => if p == Some(parent) then BindAgent(w, pid, server, names[1..]) else Err(NotFound)
  }

  function Resolve(w: World, at: Place, names: seq<string>): Result<Place>
  {
    match at
    case Root =>
      if names == [] then Ok(Root)
      else (match Entry(w, names[0])
            case Err(e) => Err(e)
            case Ok((pid, server)) => BindAgent(w, pid, server, names[1..]))
    case AgentRoot(pid, server) => BindAgent(w, pid, server, names)
    case AgentChildren(pid) => BindChild(w, pid, names)
    case AgentFile(pid, server, path) => FileAt(w, pid, server, path + names)
    case ProcFile(pid, path) => ProcAt(w, pid, path + names)
  }

  function Then(w: World, first: Result<Place>, names: seq<string>): Result<Place>
  {
    match first case Ok(at) => Resolve(w, at, names) case Err(e) => Err(e)
  }

  lemma FileAtComposes(w: World, pid: string, server: nat, path: seq<string>, b: seq<string>)
    requires Stepwise(w)
    ensures FileAt(w, pid, server, path + b) == Then(w, FileAt(w, pid, server, path), b)
    ensures ProcAt(w, pid, path + b) == Then(w, ProcAt(w, pid, path), b)
  {
    assert [pid] + (path + b) == ([pid] + path) + b;
  }

  lemma {:induction false} BindAgentComposes(w: World, pid: string, server: nat, a: seq<string>, b: seq<string>)
    requires Stepwise(w)
    ensures BindAgent(w, pid, server, a + b) == Then(w, BindAgent(w, pid, server, a), b)
    decreases |a|, 0
  {
    hide O.IsProcOverlayName, Stepwise, FileAt, ProcAt;
    if a == [] {
      assert a + b == b;
    } else {
      assert (a + b)[0] == a[0] && (a + b)[1..] == a[1..] + b;
      if a[0] == "children" {
        BindChildComposes(w, pid, a[1..], b);
      } else {
        FileAtComposes(w, pid, server, a, b);
      }
    }
  }

  lemma {:induction false} BindChildComposes(w: World, parent: string, a: seq<string>, b: seq<string>)
    requires Stepwise(w)
    ensures BindChild(w, parent, a + b) == Then(w, BindChild(w, parent, a), b)
    decreases |a|, 1
  {
    hide O.IsProcOverlayName, Stepwise, FileAt, ProcAt, Entry;
    if a == [] {
      assert a + b == b;
    } else {
      assert (a + b)[0] == a[0] && (a + b)[1..] == a[1..] + b;
      if Entry(w, a[0]).Ok? {
        var (pid, server) := Entry(w, a[0]).value;
        BindAgentComposes(w, pid, server, a[1..], b);
      }
    }
  }

  /**
   * Walking `a ++ b` binds what walking `a` and then `b` binds, from every kind of node and
   * through any depth of `children`; errors included.
   */
  lemma WalkComposes(w: World, at: Place, a: seq<string>, b: seq<string>)
    requires Stepwise(w)
    ensures Resolve(w, at, a + b) == Then(w, Resolve(w, at, a), b)
  {
    hide Stepwise, Entry, FileAt, ProcAt, BindAgent, BindChild;
    match at
    case Root =>
      if a == [] {
        assert a + b == b;
      } else {
        assert (a + b)[0] == a[0] && (a + b)[1..] == a[1..] + b;
        if Entry(w, a[0]).Ok? {
          var (pid, server) := Entry(w, a[0]).value;
          BindAgentComposes(w, pid, server, a[1..], b);
        }
      }
    case AgentRoot(pid, server) => BindAgentComposes(w, pid, server, a, b);
    case AgentChildren(pid) => BindChildComposes(w, pid, a, b);
    case AgentFile(pid, server, path) =>
      assert (path + a) + b == path + (a + b);
      FileAtComposes(w, pid, server, path + a, b);
    case ProcFile(pid, path) =>
      assert (path + a) + b == path + (a + b);
      FileAtComposes(w, pid, 0, path + a, b);
  }

  /** The names `c1/children/c2/children/.../cn`. */
  function Chain(pids: seq<string>): seq<string>
  {
    if pids == [] then [] else if |pids| == 1 then [pids[0]] else [pids[0], "children"] + Chain(pids[1..])
  }

  /** Each pid is a registered, existing process whose parent in /proc is the one before it. */
  ghost predicate GenuineChain(w: World, parent: string, pids: seq<string>)
    decreases |pids|
  {
    pids == [] ||
    (&& pids[0] != "root" && pids[0] in w.agents && w.proc([pids[0]]).Ok? && w.parent(pids[0]) == Ok(Some(parent))
     && GenuineChain(w, pids[0], pids[1..]))
  }

  /** A walk down through `children` succeeds exactly along a genuine parent chain. */
  lemma {:induction false} ChildrenAreGenuine(w: World, parent: string, pids: seq<string>)
    requires pids != []
    ensures Resolve(w, AgentChildren(parent), Chain(pids)).Ok? <==> GenuineChain(w, parent, pids)
    ensures GenuineChain(w, parent, pids) ==>
              var last := pids[|pids| - 1];
              last in w.agents && Resolve(w, AgentChildren(parent), Chain(pids)) == Ok(AgentRoot(last, w.agents[last]))
    decreases |pids|
  {
    hide O.IsProcOverlayName, FileAt, ProcAt;
    var names := Chain(pids);
    assert names[0] == pids[0];
    if |pids| == 1 {
      assert names[1..] == [] && pids[1..] == [];
      assert GenuineChain(w, pids[0], []);
      if pids[0] in w.agents {
        assert BindAgent(w, pids[0], w.agents[pids[0]], []) == Ok(AgentRoot(pids[0], w.agents[pids[0]]));
      }
    } else {
      assert names[1..] == ["children"] + Chain(pids[1..]);
      assert names[1..][1..] == Chain(pids[1..]);
      ChildrenAreGenuine(w, pids[0], pids[1..]);
      if pids[0] in w.agents {
        assert BindAgent(w, pids[0], w.agents[pids[0]], names[1..]) == BindChild(w, pids[0], Chain(pids[1..]));
      }
    }
  }

  /** The agent file server is stepwise: walking `a ++ b` is walking `a`, then `b` from there. */
  lemma {:induction false} AgentTreeStepwise(s: Fs.State, node: Fs.Node, a: seq<string>, b: seq<string>)
    ensures Fs.Descend(s, node, a + b) ==
            match Fs.Descend(s, node, a) case Ok(at) => Fs.Descend(s, at, b) case Err(e) => Fs.Err(e)
    decreases |a|
  {
    hide Fs.Child;
    if a == [] {
      assert a + b == b;
    } else {
      assert (a + b)[0] == a[0] && (a + b)[1..] == a[1..] + b;
      if Fs.Child(s, node, a[0]).Ok? { AgentTreeStepwise(s, Fs.Child(s, node, a[0]).value, a[1..], b); }
    }
  }
}
