/**
 * What the agent file server stores, without handles and buffers: one small effect per request.
 * `AgentFsInvariant` shows that every request of the full server is exactly one such effect.
 */
module AgentFsCore {
  import opened Bytes
  import K = Knowledge
  import opened Frames
  import opened AgentFs

  datatype Core = Core(
    input: bytes, tape: bytes, knowledge: K.Store, tapeRoot: K.Hash,
    requests: map<string, Request>, actions: map<string, Action>,
    status: bytes, evaluation: bytes, work: bytes, ui: map<UiDoc, bytes>,
    nextRequest: nat, nextAction: nat, versions: map<nat, nat>)

  datatype Effect =
    | Nothing
    | NewRequestId | NewActionId
    | TapeAppend(data: bytes)
    | InputFrame(payload: bytes)
    | Cancel(id: string)
    | SetRequest(id: string, rpart: RequestPart, value: bytes)
    | SetAction(id: string, apart: ActionPart, value: bytes)
    | SetUi(doc: UiDoc, value: bytes)
    | Expiry(id: string, cause: string)
    | Restored(id: string, index: nat, kind: bytes, prompt: bytes, options: bytes)
    | SetEvaluation(value: bytes) | SetWork(value: bytes)

  function CoreOf(s: State): Core
  {
    Core(LogOf(s, Input), LogOf(s, Tape), s.knowledge, s.tapeRoot, s.requests, s.actions,
         s.status, s.evaluation, s.work, s.ui, s.nextRequest, s.nextAction, s.versions)
  }

  function Touch(env: Env, c: Core, node: Node): Core
  {
    c.(versions := Bumped(c.versions, PathOf(env, node)))
  }

  /** When an effect makes sense: the entry it names exists and still accepts it. */
  predicate Allowed(c: Core, e: Effect)
  {
    match e
    case TapeAppend(_) => c.tapeRoot in c.knowledge.nodes
    case Cancel(id) => id in c.requests && c.requests[id].status == Pending
    case SetRequest(id, _, _) => id in c.requests && c.requests[id].status == Pending
    case SetAction(id, p, _) =>
      id in c.actions && (p == ActOutput ==> c.actions[id].outputRoot.None? && !c.actions[id].expired)
    case Expiry(id, _) => id in c.actions && OutputRootName(id) in c.knowledge.roots
    case Restored(id, index, _, _, _) => id !in c.requests && id == RequestId(index) && index < U64_LIMIT - 1
    case _ => true
  }

  ghost function Effected(env: Env, c: Core, e: Effect): Core
    requires Allowed(c, e)
  {
    match e
    case Nothing => c
    case NewRequestId =>
      Touch(env, c.(requests := c.requests[RequestId(c.nextRequest) := NEW_REQUEST],
                    nextRequest := (c.nextRequest + 1) % U64_LIMIT), RequestsDir)
    case NewActionId =>
      Touch(env, c.(actions := c.actions[ActionId(c.nextAction) := NewAction()],
                    nextAction := (c.nextAction + 1) % U64_LIMIT), ActionsDir)
    case TapeAppend(data) =>
      var (st, root) := K.ForkAppend(env.hashing, c.knowledge, TAPE_ROOT_NAME, c.tapeRoot, data).value;
      Touch(env, c.(tape := c.tape + data, knowledge := st, tapeRoot := root), CurrentCheckpoint)
    case InputFrame(payload) => c.(input := c.input + Frame(payload))
    case Cancel(id) =>
      Touch(env, c.(requests := c.requests[id := c.requests[id].(status := Cancelled)]), RequestField(id, ReqStatus))
    case SetRequest(id, p, value) =>
      var c1 := Touch(env, c.(requests := c.requests[id := SetRequestPart(c.requests[id], p, value)]),
        RequestField(id, p));
      if p == ReqResponse then Touch(env, c1, RequestField(id, ReqStatus)) else c1
    case SetAction(id, p, value) =>
      var (st, root) := K.StoreBytes(env.hashing, c.knowledge, OutputRootName(id), value);
      Touch(env, c.(knowledge := if p == ActOutput then st else c.knowledge,
                    actions := c.actions[id := SetActionPart(c.actions[id], p, value, Some(root))]), ActionField(id, p))
    case SetUi(doc, value) => Touch(env, c.(ui := c.ui[doc := value]), Ui(doc))
    case Expiry(id, cause) =>
      var a := c.actions[id].(outputRoot := None, expired := true, output := ExpiryRecord(id, cause));
      Touch(env, c.(knowledge := K.Collected(K.Unbind(c.knowledge, OutputRootName(id)).value),
                    actions := c.actions[id := a]), ActionField(id, ActOutput))
    case Restored(id, index, kind, prompt, options) =>
      Touch(env, c.(requests := c.requests[id := Request(kind, prompt, options, Pending, [])],
                    nextRequest := if c.nextRequest < index + 1 then index + 1 else c.nextRequest), RequestsDir)
    case SetEvaluation(value) => Touch(env, c.(evaluation := value), Evaluation)
    case SetWork(value) => Touch(env, c.(work := value), Work)
  }

  // ------------------------------------------------------------ invariant

  /** The bound checkpoint and the tape stream hold the same bytes. */
  ghost predicate TapeAgrees(h: K.Hashing, st: K.Store, root: K.Hash, tape: bytes)
  {
    && K.Sound(h, st)
    && TAPE_ROOT_NAME in st.roots && st.roots[TAPE_ROOT_NAME] == root
    && K.ReadRoot(h, st, TAPE_ROOT_NAME) == K.Good(tape)
  }

  /** A bound output root belongs to an unexpired committed output and reads back its bytes. */
  ghost predicate OutputAgrees(h: K.Hashing, st: K.Store, actions: map<string, Action>, id: string)
  {
    if OutputRootName(id) in st.roots then
      && id in actions && actions[id].outputRoot.Some? && !actions[id].expired
      && K.ReadRoot(h, st, OutputRootName(id)) == K.Good(actions[id].output)
    else id in actions ==> actions[id].outputRoot.None?
  }

  ghost predicate EvidenceAgrees(h: K.Hashing, st: K.Store, actions: map<string, Action>)
  {
    forall id :: OutputAgrees(h, st, actions, id)
  }

  /** Every id in use was allocated below its counter. */
  ghost predicate RequestIdsBelow(ids: set<string>, next: nat) { forall n: nat :: n >= next ==> RequestId(n) !in ids }
  ghost predicate ActionIdsBelow(ids: set<string>, next: nat) { forall n: nat :: n >= next ==> ActionId(n) !in ids }

  /** Only an answered request carries a response. */
  predicate Settled(r: Request) { r.status != Closed && (r.status == Answered || r.response == []) }

  ghost predicate RequestsSettled(requests: map<string, Request>)
  {
    forall id :: id in requests ==> Settled(requests[id])
  }

  ghost predicate CoreInv(env: Env, c: Core)
  {
    && TapeAgrees(env.hashing, c.knowledge, c.tapeRoot, c.tape)
    && EvidenceAgrees(env.hashing, c.knowledge, c.actions)
    && RequestIdsBelow(c.requests.Keys, c.nextRequest) && ActionIdsBelow(c.actions.Keys, c.nextAction)
    && c.nextRequest < U64_LIMIT && c.nextAction < U64_LIMIT
    && RequestsSettled(c.requests)
  }

  /** Allocating an id at the 64-bit limit wraps the counter. */
  predicate CounterWraps(c: Core, e: Effect)
  {
    || (e == NewRequestId && c.nextRequest == U64_LIMIT - 1)
    || (e == NewActionId && c.nextAction == U64_LIMIT - 1)
  }

  lemma OutputNamesDistinct(a: string, b: string)
    ensures OutputRootName(a) == OutputRootName(b) ==> a == b
    ensures OutputRootName(a) != TAPE_ROOT_NAME
  {
    var p, q := "actions/", "/output";
    assert OutputRootName(a)[0] == 'a' && TAPE_ROOT_NAME[0] == 'm';
    if OutputRootName(a) == OutputRootName(b) {
      assert a == OutputRootName(a)[|p|..|p| + |a|];
      assert b == OutputRootName(b)[|p|..|p| + |b|];
    }
  }

  lemma IdsDistinct(m: nat, n: nat)
    ensures RequestId(m) == RequestId(n) ==> m == n
    ensures ActionId(m) == ActionId(n) ==> m == n
  {
    if RequestId(m) == RequestId(n) {
      assert Decimal(m) == RequestId(m)[1..] && Decimal(n) == RequestId(n)[1..];
      DecimalInjective(m, n);
    }
    if ActionId(m) == ActionId(n) {
      assert Decimal(m) == ActionId(m)[1..] && Decimal(n) == ActionId(n)[1..];
      DecimalInjective(m, n);
    }
  }

  // --------------------------------------------------- what effects keep

  lemma NewRequestKeeps(env: Env, c: Core)
    requires CoreInv(env, c)
    ensures RequestId(c.nextRequest) !in c.requests
    ensures CoreInv(env, Effected(env, c, NewRequestId)) <==> c.nextRequest != U64_LIMIT - 1
  {
    hide PathOf, RequestId, TapeAgrees, EvidenceAgrees, ActionIdsBelow;
    var c1 := Effected(env, c, NewRequestId);
    assert c1.requests.Keys == c.requests.Keys + {RequestId(c.nextRequest)};
    forall n: nat | n >= c.nextRequest + 1 ensures RequestId(n) !in c1.requests { IdsDistinct(n, c.nextRequest); }
  }

  lemma NewActionKeeps(env: Env, c: Core)
    requires CoreInv(env, c)
    ensures ActionId(c.nextAction) !in c.actions
    ensures CoreInv(env, Effected(env, c, NewActionId)) <==> c.nextAction != U64_LIMIT - 1
  {
    hide PathOf, ActionId, TapeAgrees, RequestIdsBelow, RequestsSettled, K.ReadRoot;
    var c1 := Effected(env, c, NewActionId);
    assert c1.actions.Keys == c.actions.Keys + {ActionId(c.nextAction)};
    forall n: nat | n >= c.nextAction + 1 ensures ActionId(n) !in c1.actions { IdsDistinct(n, c.nextAction); }
    forall id ensures OutputAgrees(env.hashing, c1.knowledge, c1.actions, id) {
      assert OutputAgrees(env.hashing, c.knowledge, c.actions, id);
    }
  }

  lemma TapeAppendKeeps(env: Env, c: Core, data: bytes)
    requires K.CollisionFree(env.hashing) && CoreInv(env, c)
    ensures Allowed(c, TapeAppend(data)) && CoreInv(env, Effected(env, c, TapeAppend(data)))
  {
    hide PathOf, RequestIdsBelow, ActionIdsBelow, RequestsSettled, K.ReadRoot;
    K.ForkAppendSound(env.hashing, c.knowledge, TAPE_ROOT_NAME, data);
    var c1 := Effected(env, c, TapeAppend(data));
    forall id ensures OutputAgrees(env.hashing, c1.knowledge, c1.actions, id) {
      OutputNamesDistinct(id, id);
      assert OutputAgrees(env.hashing, c.knowledge, c.actions, id);
    }
  }

  lemma SetActionKeeps(env: Env, c: Core, id: string, p: ActionPart, value: bytes)
    requires K.CollisionFree(env.hashing) && CoreInv(env, c) && Allowed(c, SetAction(id, p, value))
    ensures CoreInv(env, Effected(env, c, SetAction(id, p, value)))
  {
    hide PathOf, OutputRootName, RequestIdsBelow, ActionIdsBelow, RequestsSettled, K.ReadRoot, K.StoreBytes;
    var h, c1 := env.hashing, Effected(env, c, SetAction(id, p, value));
    assert c1.actions.Keys == c.actions.Keys;
    OutputNamesDistinct(id, id);
    if p == ActOutput { K.StoreBytesSound(h, c.knowledge, OutputRootName(id), value); }
    forall k ensures OutputAgrees(h, c1.knowledge, c1.actions, k) {
      OutputNamesDistinct(k, id);
      assert OutputAgrees(h, c.knowledge, c.actions, k);
    }
  }

  lemma ExpiryKeeps(env: Env, c: Core, id: string, cause: string)
    requires CoreInv(env, c) && Allowed(c, Expiry(id, cause))
    ensures CoreInv(env, Effected(env, c, Expiry(id, cause)))
  {
    hide PathOf, OutputRootName, ExpiryRecord, RequestIdsBelow, ActionIdsBelow, RequestsSettled, K.ReadRoot,
      K.Collected;
    var h, c1 := env.hashing, Effected(env, c, Expiry(id, cause));
    assert c1.actions.Keys == c.actions.Keys;
    OutputNamesDistinct(id, id);
    K.CollectSound(h, c.knowledge, OutputRootName(id));
    forall k ensures OutputAgrees(h, c1.knowledge, c1.actions, k) {
      OutputNamesDistinct(k, id);
      assert OutputAgrees(h, c.knowledge, c.actions, k);
    }
  }

  lemma RestoredKeeps(env: Env, c: Core, e: Effect)
    requires CoreInv(env, c) && e.Restored? && Allowed(c, e)
    ensures CoreInv(env, Effected(env, c, e))
  {
    hide PathOf, RequestId, TapeAgrees, EvidenceAgrees, ActionIdsBelow;
    var c1 := Effected(env, c, e);
    forall n: nat | n >= c1.nextRequest ensures RequestId(n) !in c1.requests { IdsDistinct(n, e.index); }
  }

  lemma SetRequestKeeps(env: Env, c: Core, e: Effect)
    requires CoreInv(env, c) && (e.SetRequest? || e.Cancel?) && Allowed(c, e)
    ensures CoreInv(env, Effected(env, c, e))
  {
    hide PathOf, RequestId, TapeAgrees, EvidenceAgrees, ActionIdsBelow, RequestIdsBelow;
    assert Effected(env, c, e).requests.Keys == c.requests.Keys;
  }

  /** Every effect keeps the invariant, except exactly one that wraps an id counter. */
  lemma EffectKeeps(env: Env, c: Core, e: Effect)
    requires K.CollisionFree(env.hashing) && CoreInv(env, c) && Allowed(c, e)
    ensures CoreInv(env, Effected(env, c, e)) <==> !CounterWraps(c, e)
  {
    hide PathOf, TapeAgrees, EvidenceAgrees, ActionIdsBelow, RequestIdsBelow, RequestsSettled;
    match e
    case NewRequestId => NewRequestKeeps(env, c);
    case NewActionId => NewActionKeeps(env, c);
    case TapeAppend(data) => TapeAppendKeeps(env, c, data);
    case Cancel(_) => SetRequestKeeps(env, c, e);
    case SetRequest(_, _, _) => SetRequestKeeps(env, c, e);
    case SetAction(id, p, value) => SetActionKeeps(env, c, id, p, value);
    case Expiry(id, cause) => ExpiryKeeps(env, c, id, cause);
    case Restored(_, _, _, _, _) => RestoredKeeps(env, c, e);
    case _ =>
  }
}
