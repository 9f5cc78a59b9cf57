/** Distinct files of the agent tree have distinct keys, so nothing but a hash collision can mix up their qids. */
module AgentFsKeys {
  import opened Bytes
  import K = Knowledge
  import opened AgentFs
  import opened AgentFsCore
  import opened AgentFsInvariant
  import Tree = AgentFsTree

  // --------------------------------------------------------------- ids in use

  /** Every id is `r` or `a` and a number. */
  ghost predicate IdsSpelt(requests: set<string>, actions: set<string>)
  {
    && (forall id :: id in requests ==> exists n: nat :: id == RequestId(n))
    && (forall id :: id in actions ==> exists n: nat :: id == ActionId(n))
  }

  lemma EffectIds(env: Env, c: Core, e: Effect)
    requires Allowed(c, e) && IdsSpelt(c.requests.Keys, c.actions.Keys)
    ensures IdsSpelt(Effected(env, c, e).requests.Keys, Effected(env, c, e).actions.Keys)
  {
    hide PathOf, RequestId, ActionId, NewAction, ExpiryRecord, OutputRootName, K.Collected, K.StoreBytes, K.ForkAppend;
    var c1 := Effected(env, c, e);
    assert c1.requests.Keys <= c.requests.Keys + (match e
                                                  case NewRequestId => {RequestId(c.nextRequest)}
                                                  case Restored(id, _, _, _, _) => {id}
                                                  case _ => {});
    assert c1.actions.Keys <= c.actions.Keys + if e.NewActionId? then {ActionId(c.nextAction)} else {};
    if e.Restored? { assert e.id == RequestId(e.index); }
  }

  lemma {:induction false} RunIds(env: Env, start: State, ops: seq<Op>)
    requires K.CollisionFree(env.hashing) && Inv(env, start) && NeverWraps(env, start, ops)
    requires IdsSpelt(start.requests.Keys, start.actions.Keys)
    ensures IdsSpelt(Run(env, start, ops).requests.Keys, Run(env, start, ops).actions.Keys)
    decreases |ops|
  {
    hide Inv, Apply, Wraps, EffectOf, Effected, Allowed, IdsSpelt;
    if ops != [] {
      var before := ops[..|ops| - 1];
      NeverWrapsPrefix(env, start, ops, |ops| - 1);
      RunKeeps(env, start, before);
      RunIds(env, start, before);
      var s := Run(env, start, before);
      StepRefines(env, s, ops[|ops| - 1]);
      EffectIds(env, CoreOf(s), EffectOf(env, s, ops[|ops| - 1]));
    }
  }

  // ------------------------------------------------------------------- spelling

  /** The names that lead to a file from the root. */
  function Names(node: Node): seq<string>
    requires node != Root
    decreases Depth(node)
  {
    var (dir, name) := Tree.Place(node);
    if dir == Root then [name] else Names(dir) + [name]
  }

  function Depth(node: Node): nat
  {
    match node
    case Root => 0
    case IoDir | MachineDir | ContextDir | ChildrenDir | RequestsDir | ActionsDir => 1
    case UiDir | CheckpointsDir | RequestEntry(_) | ActionEntry(_) => 2
    case _ => 3
  }

  ghost predicate Plain(s: State, node: Node)
  {
    Known(s.requests.Keys, s.actions.Keys, node) && IdsSpelt(s.requests.Keys, s.actions.Keys)
  }

  lemma IdPlain(n: nat)
    ensures '/' !in RequestId(n) && '/' !in ActionId(n)
    ensures Tree.Unshadowed(RequestEntry(RequestId(n))) && Tree.Unshadowed(ActionEntry(ActionId(n)))
  {
    var d := Decimal(n);
    assert forall i :: 0 <= i < |d| ==> d[i] != '/' by { DecimalPlain(n); }
    var clone, events, help := "clone", "events", "help";
    assert RequestId(n)[0] == 'r' && ActionId(n)[0] == 'a' && clone[0] == 'c' && events[0] == 'e' && help[0] == 'h';
  }

  lemma DecimalPlain(n: nat)
    ensures forall i :: 0 <= i < |Decimal(n)| ==> Decimal(n)[i] != '/'
  {
    var d := Digits(n);
    assert Decimal(n) == Chars(d);
  }

  lemma NodePlain(s: State, node: Node)
    requires node != Root && Plain(s, node)
    ensures Tree.Unshadowed(node) && '/' !in Tree.Place(node).1 && Plain(s, Tree.Place(node).0)
  {
    hide RequestId, ActionId, Tree.Unshadowed;
    match node
    case RequestEntry(id) => { var n: nat :| id == RequestId(n); IdPlain(n); }
    case ActionEntry(id) => { var n: nat :| id == ActionId(n); IdPlain(n); }
    case _ => { FixedUnshadowed(node); FixedPlain(node); }
  }

  lemma FixedUnshadowed(node: Node)
    requires !node.RequestEntry? && !node.ActionEntry?
    ensures Tree.Unshadowed(node)
  {
  }

  lemma FixedPlain(node: Node)
    requires node != Root && !node.RequestEntry? && !node.ActionEntry?
    ensures '/' !in Tree.Place(node).1
  {
  }

  /** The key of a file, split at its slashes, is the names that lead to it. */
  lemma {:induction false} KeySplits(s: State, node: Node)
    requires node != Root && Plain(s, node)
    ensures SplitOn(NodeKey(node), '/') == Names(node)
    decreases Depth(node)
  {
    hide NodeKey, Plain, Tree.Place, Child, Tree.Unshadowed;
    var (dir, name) := Tree.Place(node);
    NodePlain(s, node);
    assert Known(s.requests.Keys, s.actions.Keys, node) by { PlainKnown(s, node); }
    Tree.PlacedFound(s, node);
    Tree.ChildSpelled(s, dir, name);
    SplitOne(name, '/');
    if dir != Root {
      PlaceShallower(node);
      KeySplits(s, dir);
      SplitConcat(NodeKey(dir), '/', name);
      assert NodeKey(dir) + "/" + name == NodeKey(dir) + ['/'] + name;
    }
  }

  lemma PlainKnown(s: State, node: Node)
    requires Plain(s, node)
    ensures Known(s.requests.Keys, s.actions.Keys, node)
  {
  }

  lemma PlaceShallower(node: Node)
    requires node != Root
    ensures Depth(Tree.Place(node).0) < Depth(node)
  {
  }

  lemma {:induction false} NamesDiffer(s: State, a: Node, b: Node)
    requires a != Root && b != Root && Plain(s, a) && Plain(s, b) && Names(a) == Names(b)
    ensures a == b
    decreases Depth(a)
  {
    hide Plain, Tree.Place, Child, Tree.Unshadowed;
    NodePlain(s, a);
    NodePlain(s, b);
    PlainKnown(s, a);
    PlainKnown(s, b);
    Tree.PlacedFound(s, a);
    Tree.PlacedFound(s, b);
    var (dirA, nameA) := Tree.Place(a);
    var (dirB, nameB) := Tree.Place(b);
    assert Names(a)[|Names(a)| - 1] == nameA && Names(b)[|Names(b)| - 1] == nameB;
    if dirA != Root { NamesNotEmpty(dirA); assert Names(a)[..|Names(a)| - 1] == Names(dirA); }
    if dirB != Root { NamesNotEmpty(dirB); assert Names(b)[..|Names(b)| - 1] == Names(dirB); }
    if dirA != Root && dirB != Root {
      PlaceShallower(a);
      NamesDiffer(s, dirA, dirB);
    }
  }

  lemma NamesNotEmpty(node: Node)
    requires node != Root
    ensures Names(node) != []
  {
    hide Tree.Place;
  }

  lemma RootKey(node: Node)
    ensures NodeKey(node) == NodeKey(Root) ==> node == Root
  {
    assert NodeKey(Root)[0] == '/';
    assert node != Root ==> NodeKey(node)[0] != '/';
  }

  lemma KeysDiffer(s: State, a: Node, b: Node)
    requires Plain(s, a) && Plain(s, b) && NodeKey(a) == NodeKey(b)
    ensures a == b
  {
    hide NodeKey, Plain;
    RootKey(a);
    RootKey(b);
    if a != Root && b != Root {
      KeySplits(s, a);
      KeySplits(s, b);
      NamesDiffer(s, a, b);
    }
  }

  lemma NewIds(s: State)
    requires s.requests == map[] && s.actions == map[]
    ensures IdsSpelt(s.requests.Keys, s.actions.Keys)
  {
  }

  /** On every server that a run from no ids reaches, files with the same key are the same file. */
  lemma KeysDistinct(env: Env, start: State, ops: seq<Op>, a: Node, b: Node)
    requires K.CollisionFree(env.hashing) && Inv(env, start) && NeverWraps(env, start, ops)
    requires start.requests == map[] && start.actions == map[]
    requires var s := Run(env, start, ops);
             Known(s.requests.Keys, s.actions.Keys, a) && Known(s.requests.Keys, s.actions.Keys, b)
    ensures NodeKey(a) == NodeKey(b) <==> a == b
  {
    hide Run, Inv, NeverWraps, NodeKey, Known, RequestId, ActionId, IdsSpelt;
    var s := Run(env, start, ops);
    NewIds(start);
    RunIds(env, start, ops);
    if NodeKey(a) == NodeKey(b) { KeysDiffer(s, a, b); }
  }
}
