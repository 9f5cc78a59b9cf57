/** The names of the agent tree: what a walk reaches, how its key is spelt, and what directories list. */
module AgentFsTree {
  import opened Bytes
  import Utf8
  import K = Knowledge
  import opened AgentFs
  import I = AgentFsInvariant

  /** The key of the entry `name` of a directory. */
  function Entry(dir: Node, name: string): string
  {
    if dir == Root then name else NodeKey(dir) + "/" + name
  }

  lemma TopSpelled(s: State, name: string)
    requires Child(s, Root, name).Ok?
    ensures NodeKey(Child(s, Root, name).value) == Entry(Root, name)
  {
  }

  lemma SmallSpelled(s: State, node: Node, name: string)
    requires node in {IoDir, CheckpointsDir} && Child(s, node, name).Ok?
    ensures NodeKey(Child(s, node, name).value) == Entry(node, name)
  {
  }

  lemma MachineNamed(s: State, name: string)
    requires Child(s, MachineDir, name).Ok?
    ensures Child(s, MachineDir, name).value in {Log(Tape), Status, Evaluation, Work, MachineCtl, UiDir, CheckpointsDir}
    ensures name == MachineName(Child(s, MachineDir, name).value)
  {
  }

  /** What a file of the machine directory is called. */
  function MachineName(node: Node): string
  {
    match node
    case Log(_) => "tape" case Status => "status" case Evaluation => "evaluation" case Work => "work"
    case MachineCtl => "ctl" case UiDir => "ui" case _ => "checkpoints"
  }

  lemma MachineSpelled(s: State, name: string)
    requires Child(s, MachineDir, name).Ok?
    ensures NodeKey(Child(s, MachineDir, name).value) == Entry(MachineDir, name)
  {
    hide Child;
    MachineNamed(s, name);
    assert "machine" + "/" == "machine/";
  }

  lemma UiNamed(s: State, name: string)
    requires Child(s, UiDir, name).Ok?
    ensures var n := Child(s, UiDir, name).value;
            if n.Ui? then UiName(n.doc) == name else n == Log(UiEvents) && name == "events"
  {
  }

  lemma UiSpelled(s: State, name: string)
    requires Child(s, UiDir, name).Ok?
    ensures NodeKey(Child(s, UiDir, name).value) == Entry(UiDir, name)
  {
    hide Child, UiName;
    UiNamed(s, name);
    assert "machine/ui" + "/" == "machine/ui/";
  }

  lemma RequestNamed(s: State, id: string, name: string)
    requires Child(s, RequestEntry(id), name).Ok?
    ensures var n := Child(s, RequestEntry(id), name).value;
            n.RequestField? && n.id == id && RequestPartName(n.rpart) == name
  {
  }

  lemma RequestSpelled(s: State, id: string, name: string)
    requires Child(s, RequestEntry(id), name).Ok?
    ensures NodeKey(Child(s, RequestEntry(id), name).value) == Entry(RequestEntry(id), name)
  {
    hide Child, RequestPartName;
    RequestNamed(s, id, name);
  }

  lemma ActionNamed(s: State, id: string, name: string)
    requires Child(s, ActionEntry(id), name).Ok?
    ensures var n := Child(s, ActionEntry(id), name).value;
            n.ActionField? && n.id == id && ActionPartName(n.apart) == name
  {
  }

  lemma ActionSpelled(s: State, id: string, name: string)
    requires Child(s, ActionEntry(id), name).Ok?
    ensures NodeKey(Child(s, ActionEntry(id), name).value) == Entry(ActionEntry(id), name)
  {
    hide Child, ActionPartName;
    ActionNamed(s, id, name);
  }

  lemma RequestsSpelled(s: State, name: string)
    requires Child(s, RequestsDir, name).Ok?
    ensures NodeKey(Child(s, RequestsDir, name).value) == Entry(RequestsDir, name)
  {
    assert "requests" + "/" == "requests/";
  }

  lemma ActionsSpelled(s: State, name: string)
    requires Child(s, ActionsDir, name).Ok?
    ensures NodeKey(Child(s, ActionsDir, name).value) == Entry(ActionsDir, name)
  {
    assert "actions" + "/" == "actions/";
  }

  /** Walking to an entry extends the key by its name. */
  lemma ChildSpelled(s: State, node: Node, name: string)
    requires Child(s, node, name).Ok?
    ensures NodeKey(Child(s, node, name).value) == Entry(node, name)
  {
    hide NodeKey, Entry;
    match node
    case Root => TopSpelled(s, name);
    case IoDir | CheckpointsDir => SmallSpelled(s, node, name);
    case MachineDir => MachineSpelled(s, name);
    case UiDir => UiSpelled(s, name);
    case RequestsDir => RequestsSpelled(s, name);
    case ActionsDir => ActionsSpelled(s, name);
    case RequestEntry(id) => RequestSpelled(s, id, name);
    case ActionEntry(id) => ActionSpelled(s, id, name);
    case _ =>
  }

  /** The key of what `names` lead to from a directory. */
  function Spelled(key: string, names: seq<string>): string
    decreases |names|
  {
    if names == [] then key else Spelled(key + "/" + names[0], names[1..])
  }

  lemma {:induction false} DescendSpelled(s: State, node: Node, names: seq<string>)
    requires node != Root && Descend(s, node, names).Ok?
    ensures NodeKey(Descend(s, node, names).value) == Spelled(NodeKey(node), names)
    decreases |names|
  {
    hide Child, NodeKey;
    if names != [] {
      ChildSpelled(s, node, names[0]);
      NotRoot(s, node, names[0]);
      DescendSpelled(s, Child(s, node, names[0]).value, names[1..]);
    }
  }

  lemma NotRoot(s: State, node: Node, name: string)
    ensures Child(s, node, name) != Ok(Root)
  {
  }

  /** A walk from the root reaches the file whose key is the walked names. */
  lemma WalkSpelled(s: State, names: seq<string>)
    requires names != [] && Descend(s, Root, names).Ok?
    ensures NodeKey(Descend(s, Root, names).value) == Spelled(names[0], names[1..])
  {
    hide Child, NodeKey;
    ChildSpelled(s, Root, names[0]);
    NotRoot(s, Root, names[0]);
    DescendSpelled(s, Child(s, Root, names[0]).value, names[1..]);
  }

  /**
   * A walk succeeds iff its new fid is unused, its old one is bound and every name is found; it then
   * binds the new fid, unopened, to the file its names spell, and changes no other handle.
   */
  lemma WalkGives(env: Env, s: State, fid: Fid, newfid: Fid, names: seq<string>)
    ensures var (s1, r) := WalkStep(env, s, fid, newfid, names);
            && (r.Ok? <==> newfid != ROOT && newfid !in s.fids && (fid == ROOT || fid in s.fids)
                           && Descend(s, if fid == ROOT then Root else s.fids[fid].node, names).Ok?)
            && (r.Err? ==> s1 == s)
            && (r.Ok? ==>
                  && newfid in s1.fids && s1 == s.(fids := s.fids[newfid := s1.fids[newfid]])
                  && var h := s1.fids[newfid];
                  && h.mode.None? && h.cloneId.None? && h.writeBuf == [] && h.snapshot.None? && !h.wrote
                  && r.value == QidOf(env, s, h.node)
                  && (fid == ROOT && names != [] ==> NodeKey(h.node) == Spelled(names[0], names[1..]))
                  && (fid != ROOT && s.fids[fid].node != Root ==>
                        NodeKey(h.node) == Spelled(NodeKey(s.fids[fid].node), names)))
  {
    hide Descend, NodeKey, QidOf, Spelled;
    var (s1, r) := WalkStep(env, s, fid, newfid, names);
    if r.Ok? {
      if fid == ROOT && names != [] { WalkSpelled(s, names); }
      if fid != ROOT && s.fids[fid].node != Root { DescendSpelled(s, s.fids[fid].node, names); }
    }
  }

  /** The directory a file is in, and its name there. */
  function Place(node: Node): (Node, string)
  {
    match node
    case Root => (Root, "/")
    case IoDir => (Root, "io") case MachineDir => (Root, "machine") case ContextDir => (Root, "context")
    case ChildrenDir => (Root, "children") case RequestsDir => (Root, "requests") case ActionsDir => (Root, "actions")
    case UiDir => (MachineDir, "ui") case CheckpointsDir => (MachineDir, "checkpoints")
    case Log(stream) =>
      (match stream
       case Events => (Root, "events")
       case Input => (IoDir, "input") case Output => (IoDir, "output") case IoEvents => (IoDir, "events")
       case RequestsEvents => (RequestsDir, "events") case ActionsEvents => (ActionsDir, "events")
       case UiEvents => (UiDir, "events") case Tape => (MachineDir, "tape"))
    case Status => (MachineDir, "status") case Work => (MachineDir, "work")
    case Evaluation => (MachineDir, "evaluation")
    case MachineCtl => (MachineDir, "ctl") case ActionsHelp => (ActionsDir, "help")
    case CurrentCheckpoint => (CheckpointsDir, "current")
    case Ui(doc) => (UiDir, UiName(doc))
    case RequestsClone => (RequestsDir, "clone") case ActionsClone => (ActionsDir, "clone")
    case RequestEntry(id) => (RequestsDir, id) case RequestField(id, p) => (RequestEntry(id), RequestPartName(p))
    case ActionEntry(id) => (ActionsDir, id) case ActionField(id, p) => (ActionEntry(id), ActionPartName(p))
  }

  /** An id that is not the name of a fixed file beside it. */
  predicate Unshadowed(node: Node)
  {
    && (node.RequestEntry? ==> node.id != "clone" && node.id != "events")
    && (node.ActionEntry? ==> node.id != "clone" && node.id != "events" && node.id != "help")
  }

  lemma EntryPlaced(s: State, dir: Node, name: string)
    requires Child(s, dir, name).Ok?
    ensures Place(Child(s, dir, name).value) == (dir, name)
  {
    hide NodeKey, RequestPartName, ActionPartName, UiName;
    match dir
    case UiDir => UiNamed(s, name);
    case RequestEntry(id) => RequestNamed(s, id, name);
    case ActionEntry(id) => ActionNamed(s, id, name);
    case _ =>
  }

  lemma PlacedFound(s: State, node: Node)
    requires node != Root && I.Known(s.requests.Keys, s.actions.Keys, node) && Unshadowed(node)
    ensures Child(s, Place(node).0, Place(node).1) == Ok(node)
  {
    hide NodeKey;
    if node.Log? { StreamFound(s, node.stream); }
  }

  lemma StreamFound(s: State, stream: StreamId)
    ensures Child(s, Place(Log(stream)).0, Place(Log(stream)).1) == Ok(Log(stream))
  {
  }

  /** Every existing file but the root is found in its directory, under its name and nowhere else. */
  lemma PlaceExact(s: State, node: Node, dir: Node, name: string)
    requires node != Root && I.Known(s.requests.Keys, s.actions.Keys, node) && Unshadowed(node)
    ensures Child(s, dir, name) == Ok(node) <==> (dir, name) == Place(node)
  {
    hide Child, Place;
    PlacedFound(s, node);
    if Child(s, dir, name).Ok? { EntryPlaced(s, dir, name); }
  }

  /** A walk into a file fails differently from a walk to a missing name, and directories are what has entries. */
  lemma DirectoriesExact(s: State, node: Node, name: string)
    ensures KindOf(node) == Dir <==> Child(s, node, name) != Err(NotDirectory)
  {
  }

  /** What is not read as a file is exactly the streams and the clones. */
  lemma KindsExact(env: Env, s: State, node: Node)
    ensures KindOf(node) == Stream <==> node.Log?
    ensures KindOf(node) == Clone <==> node == RequestsClone || node == ActionsClone
    ensures KindOf(node) in {Stream, Clone} <==> Computed(env, s, node) == Err(Unsupported)
  {
    hide Utf8.Encode, Listing, RequestBytes, K.ReadRoot, OutputRootName;
    if node.ActionField? && node.id in s.actions { StoreErrors(env, s, node.id); }
  }

  lemma StoreErrors(env: Env, s: State, id: string)
    ensures FromStore(K.ReadRoot(env.hashing, s.knowledge, OutputRootName(id))) != Err(Unsupported)
  {
    hide K.ReadRoot, OutputRootName;
  }

  /** A directory of ids lists exactly the names that can be walked to. */
  lemma ListingExact(env: Env, s: State, dir: Node) returns (names: seq<string>)
    requires dir in {RequestsDir, ActionsDir}
    requires forall ids, id :: id in env.keyOrder(ids) <==> id in ids
    ensures Computed(env, s, dir) == Ok(Utf8.Encode(JoinLines(names)))
    ensures forall name :: name in names <==> Child(s, dir, name).Ok?
    ensures (forall name :: name in names ==> '\n' !in name) ==> SplitOn(JoinLines(names), '\n') == names
  {
    hide Utf8.Encode, JoinLines;
    names := if dir == RequestsDir then ["clone", "events"] + env.keyOrder(s.requests.Keys)
             else ["clone", "events", "help"] + env.keyOrder(s.actions.Keys);
    if forall name :: name in names ==> '\n' !in name { LinesSplit(names); }
  }

  lemma {:induction false} LinesSplit(names: seq<string>)
    requires names != [] && forall name :: name in names ==> '\n' !in name
    ensures SplitOn(JoinLines(names), '\n') == names
    decreases |names|
  {
    assert names[0] in names;
    SplitOne(names[0], '\n');
    if |names| > 1 {
      assert forall name :: name in names[1..] ==> name in names;
      LinesSplit(names[1..]);
      SplitConcat(names[0], '\n', JoinLines(names[1..]));
      assert names[0] + "\n" + JoinLines(names[1..]) == names[0] + ['\n'] + JoinLines(names[1..]);
      assert [names[0]] + names[1..] == names;
    } else {
      assert names == [names[0]];
    }
  }
}
