/** Qid versions: a file whose bytes change gets a different version. */
module AgentFsVersions {
  import opened Bytes
  import Utf8
  import K = Knowledge
  import opened Frames
  import opened AgentFs
  import opened AgentFsCore
  import opened AgentFsInvariant
  import opened AgentFsRuns

  /** A state with the given stored content and no handles. */
  function StateOf(c: Core): State
  {
    State(map[Input := c.input, Tape := c.tape], c.knowledge, c.tapeRoot, c.requests, c.actions,
          c.status, c.evaluation, c.work, c.ui, c.nextRequest, c.nextAction, None, c.versions, map[])
  }

  function Shown(env: Env, c: Core, node: Node): Result<bytes> { Computed(env, StateOf(c), node) }

  lemma ShownIsComputed(env: Env, s: State, node: Node)
    ensures Shown(env, CoreOf(s), node) == Computed(env, s, node)
  {
    hide Listing, RequestBytes, ActionBytes, Utf8.Encode, K.ReadRoot, OutputRootName;
  }

  /** The files an effect marks as changed, in order. */
  function Touched(c: Core, e: Effect): seq<Node>
  {
    match e
    case Nothing => []
    case NewRequestId => [RequestsDir]
    case NewActionId => [ActionsDir]
    case TapeAppend(_) => [CurrentCheckpoint]
    case InputFrame(_) => []
    case Cancel(id) => [RequestField(id, ReqStatus)]
    case SetRequest(id, p, _) =>
      if p == ReqResponse then [RequestField(id, p), RequestField(id, ReqStatus)] else [RequestField(id, p)]
    case SetAction(id, p, _) => [ActionField(id, p)]
    case SetUi(doc, _) => [Ui(doc)]
    case Expiry(id, _) => [ActionField(id, ActOutput)]
    case Restored(_, _, _, _, _) => [RequestsDir]
    case SetEvaluation(_) => [Evaluation]
    case SetWork(_) => [Work]
  }

  function Hits(env: Env, nodes: seq<Node>, path: nat): nat
  {
    if nodes == [] then 0
    else Hits(env, nodes[..|nodes| - 1], path) + if PathOf(env, nodes[|nodes| - 1]) == path then 1 else 0
  }

  /** The versions after marking each of the files, in order. */
  function Marked(env: Env, versions: map<nat, nat>, nodes: seq<Node>): map<nat, nat>
  {
    if nodes == [] then versions
    else Bumped(Marked(env, versions, nodes[..|nodes| - 1]), PathOf(env, nodes[|nodes| - 1]))
  }

  lemma {:induction false} MarkedHits(env: Env, versions: map<nat, nat>, nodes: seq<Node>, path: nat)
    requires VersionIn(versions, path) < U32_LIMIT
    ensures VersionIn(Marked(env, versions, nodes), path) ==
            (VersionIn(versions, path) + Hits(env, nodes, path)) % U32_LIMIT
    decreases |nodes|
  {
    hide PathOf;
    if nodes != [] {
      var front := nodes[..|nodes| - 1];
      MarkedHits(env, versions, front, path);
      ModuloStep(VersionIn(versions, path) + Hits(env, front, path));
    }
  }

  lemma ModuloStep(n: nat)
    ensures (n % U32_LIMIT + 1) % U32_LIMIT == (n + 1) % U32_LIMIT
  {
  }

  lemma MarkedFew(env: Env, versions: map<nat, nat>, a: Node, b: Node)
    ensures Marked(env, versions, [a]) == Bumped(versions, PathOf(env, a))
    ensures Marked(env, versions, [a, b]) == Bumped(Bumped(versions, PathOf(env, a)), PathOf(env, b))
  {
    hide PathOf;
    assert [a][..0] == [] && [a, b][..1] == [a];
  }

  lemma EffectMarks(env: Env, c: Core, e: Effect)
    requires Allowed(c, e)
    ensures Effected(env, c, e).versions == Marked(env, c.versions, Touched(c, e))
  {
    hide PathOf, RequestId, ActionId, NewAction, ExpiryRecord, K.Collected, K.StoreBytes, K.ForkAppend, Frame, Bumped,
      SetRequestPart, SetActionPart, OutputRootName, Marked;
    assert Marked(env, c.versions, []) == c.versions by { NothingMarked(env, c.versions); }
    forall a, b { MarkedFew(env, c.versions, a, b); }
  }

  lemma NothingMarked(env: Env, versions: map<nat, nat>)
    ensures Marked(env, versions, []) == versions
  {
  }

  lemma EffectVersions(env: Env, c: Core, e: Effect, path: nat)
    requires Allowed(c, e) && VersionIn(c.versions, path) < U32_LIMIT
    ensures VersionIn(Effected(env, c, e).versions, path)
            == (VersionIn(c.versions, path) + Hits(env, Touched(c, e), path)) % U32_LIMIT
  {
    hide Effected, Touched, Hits, Marked, Allowed, VersionIn;
    EffectMarks(env, c, e);
    MarkedHits(env, c.versions, Touched(c, e), path);
  }

  /** What an unmarked request or action keeps, and when the listings keep their ids. */
  lemma EffectEntries(env: Env, c: Core, e: Effect)
    requires K.CollisionFree(env.hashing) && CoreInv(env, c) && Allowed(c, e) && !CounterWraps(c, e)
    ensures var c1 := Effected(env, c, e);
            && (!e.NewRequestId? && !e.Restored? ==> c1.requests.Keys == c.requests.Keys)
            && (!e.NewActionId? ==> c1.actions.Keys == c.actions.Keys)
            && (forall id, p :: id in c.requests && RequestField(id, p) !in Touched(c, e) ==>
                  id in c1.requests && RequestBytes(c1.requests[id], p) == RequestBytes(c.requests[id], p))
            && (forall id, p :: id in c.actions && ActionField(id, p) !in Touched(c, e) ==>
                  id in c1.actions && ActionBytes(c1.actions[id], p) == ActionBytes(c.actions[id], p))
  {
    hide Effected, CoreInv, CounterWraps, RequestBytes, ActionBytes, Touched, Allowed;
    RequestEntries(env, c, e);
    ActionEntries(env, c, e);
  }

  lemma RequestEntries(env: Env, c: Core, e: Effect)
    requires CoreInv(env, c) && Allowed(c, e)
    ensures var c1 := Effected(env, c, e);
            && (!e.NewRequestId? && !e.Restored? ==> c1.requests.Keys == c.requests.Keys)
            && (forall id, p :: id in c.requests && RequestField(id, p) !in Touched(c, e) ==>
                  id in c1.requests && RequestBytes(c1.requests[id], p) == RequestBytes(c.requests[id], p))
  {
    hide PathOf, RequestId, ActionId, NewAction, ExpiryRecord, K.Collected, K.StoreBytes, K.ForkAppend, Frame,
      Utf8.Encode;
    hide TapeAgrees, RequestIdsBelow, ActionIdsBelow, RequestsSettled, EvidenceAgrees, OutputRootName, SetActionPart;
    if e == NewRequestId { NewRequestKeeps(env, c); }
  }

  lemma ActionEntries(env: Env, c: Core, e: Effect)
    requires CoreInv(env, c) && Allowed(c, e)
    ensures var c1 := Effected(env, c, e);
            && (!e.NewActionId? ==> c1.actions.Keys == c.actions.Keys)
            && (forall id, p :: id in c.actions && ActionField(id, p) !in Touched(c, e) ==>
                  id in c1.actions && ActionBytes(c1.actions[id], p) == ActionBytes(c.actions[id], p))
  {
    hide PathOf, RequestId, ActionId, NewAction, ExpiryRecord, K.Collected, K.StoreBytes, K.ForkAppend, Frame,
      Utf8.Encode;
    hide TapeAgrees, RequestIdsBelow, ActionIdsBelow, RequestsSettled, EvidenceAgrees, OutputRootName, SetRequestPart;
    if e == NewActionId { NewActionKeeps(env, c); }
  }

  lemma EffectDocuments(env: Env, c: Core, e: Effect)
    requires Allowed(c, e)
    ensures var c1 := Effected(env, c, e);
            && c1.status == c.status
            && (CurrentCheckpoint !in Touched(c, e) ==> c1.tapeRoot == c.tapeRoot)
            && (Evaluation !in Touched(c, e) ==> c1.evaluation == c.evaluation)
            && (Work !in Touched(c, e) ==> c1.work == c.work)
            && (forall doc :: Ui(doc) !in Touched(c, e) ==> UiBytes(StateOf(c1), doc) == UiBytes(StateOf(c), doc))
  {
    hide PathOf, RequestId, ActionId, NewAction, ExpiryRecord, K.Collected, K.StoreBytes, K.ForkAppend, Frame;
  }

  /** A file outside the marked ones shows the same bytes before and after. */
  lemma EffectShows(env: Env, c: Core, e: Effect, node: Node)
    requires K.CollisionFree(env.hashing) && CoreInv(env, c) && Allowed(c, e) && !CounterWraps(c, e)
    requires node !in Touched(c, e) && Shown(env, c, node).Ok?
    ensures Shown(env, Effected(env, c, e), node) == Shown(env, c, node)
  {
    hide Effected, CoreInv, Utf8.Encode, Listing, RequestBytes, K.ReadRoot, OutputRootName, UiBytes;
    EffectEntries(env, c, e);
    EffectDocuments(env, c, e);
    if node.ActionField? { OutputShows(env, c, e, node.id); }
  }

  lemma OutputShows(env: Env, c: Core, e: Effect, id: string)
    requires K.CollisionFree(env.hashing) && CoreInv(env, c) && Allowed(c, e) && !CounterWraps(c, e)
    requires id in c.actions
    ensures var c1 := Effected(env, c, e);
            && id in c1.actions
            && Shown(env, c, ActionField(id, ActOutput)) == Ok(c.actions[id].output)
            && Shown(env, c1, ActionField(id, ActOutput)) == Ok(c1.actions[id].output)
  {
    hide Effected, TapeAgrees, RequestIdsBelow, ActionIdsBelow, RequestsSettled, K.ReadRoot, OutputRootName,
      Utf8.Encode, Listing;
    EffectKeeps(env, c, e);
    EffectGrows(env, c, e);
    var c1 := Effected(env, c, e);
    assert id in c1.actions.Keys;
    assert OutputAgrees(env.hashing, c.knowledge, c.actions, id);
    assert OutputAgrees(env.hashing, c1.knowledge, c1.actions, id);
  }

  ghost predicate VersionsBounded(versions: map<nat, nat>) { forall p :: p in versions ==> versions[p] < U32_LIMIT }

  lemma EffectBounded(env: Env, c: Core, e: Effect)
    requires Allowed(c, e) && VersionsBounded(c.versions)
    ensures VersionsBounded(Effected(env, c, e).versions)
  {
    hide PathOf, RequestId, ActionId, NewAction, ExpiryRecord, K.Collected, K.StoreBytes, K.ForkAppend, Frame;
  }

  lemma {:induction false} HitsContains(env: Env, nodes: seq<Node>, node: Node)
    requires node in nodes
    ensures 1 <= Hits(env, nodes, PathOf(env, node)) <= |nodes|
  {
    hide PathOf;
    HitsBounded(env, nodes, PathOf(env, node));
    if nodes[|nodes| - 1] != node {
      assert node in nodes[..|nodes| - 1];
      HitsContains(env, nodes[..|nodes| - 1], node);
    }
  }

  lemma {:induction false} HitsBounded(env: Env, nodes: seq<Node>, path: nat)
    ensures Hits(env, nodes, path) <= |nodes|
  {
    if nodes != [] { HitsBounded(env, nodes[..|nodes| - 1], path); }
  }

  /**
   * Whatever one request does, each path's version moves on by 0, 1 or 2 steps modulo 2^32; if
   * the bytes of a file that exists before and after change, its version differs afterwards, even
   * if other files share its qid path. It is larger exactly when the 32-bit counter did not wrap.
   */
  lemma VersionSound(env: Env, s: State, op: Op, node: Node)
    requires K.CollisionFree(env.hashing) && Inv(env, s) && VersionsBounded(s.versions) && !Wraps(env, s, op)
    requires Computed(env, s, node).Ok? && Computed(env, Apply(env, s, op), node).Ok?
    ensures var v, w := QidOf(env, s, node).version, QidOf(env, Apply(env, s, op), node).version;
            var steps := Hits(env, Touched(CoreOf(s), EffectOf(env, s, op)), PathOf(env, node));
            && steps <= 2 && w == (v + steps) % U32_LIMIT
            && (Computed(env, Apply(env, s, op), node) != Computed(env, s, node) ==> w != v)
            && (Computed(env, Apply(env, s, op), node) != Computed(env, s, node) ==> (w > v <==> v + steps < U32_LIMIT))
    ensures VersionsBounded(Apply(env, s, op).versions)
  {
    hide Apply, Inv, EffectOf, Effected, Computed, PathOf, NodeKey, KindOf, Touched, Allowed, Shown, CoreInv, Hits,
      CounterWraps, VersionIn;
    var c, e := CoreOf(s), EffectOf(env, s, op);
    assert VersionIn(s.versions, PathOf(env, node)) < U32_LIMIT by { BoundedAt(s.versions, PathOf(env, node)); }
    StepRefines(env, s, op);
    InvCore(env, s);
    ShownIsComputed(env, s, node);
    ShownIsComputed(env, Apply(env, s, op), node);
    EffectVersions(env, c, e, PathOf(env, node));
    EffectBounded(env, c, e);
    TouchedFew(c, e);
    HitsBounded(env, Touched(c, e), PathOf(env, node));
    if node in Touched(c, e) { HitsContains(env, Touched(c, e), node); } else { EffectShows(env, c, e, node); }
  }

  lemma BoundedAt(versions: map<nat, nat>, path: nat)
    requires VersionsBounded(versions)
    ensures VersionIn(versions, path) < U32_LIMIT
  {
  }

  lemma TouchedFew(c: Core, e: Effect)
    ensures |Touched(c, e)| <= 2
  {}
}
