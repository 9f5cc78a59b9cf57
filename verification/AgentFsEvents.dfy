/** What the event streams tell: every stream grows by exactly the announcements of each request. */
module AgentFsEvents {
  import opened Bytes
  import Utf8
  import K = Knowledge
  import opened Frames
  import opened AgentFs
  import opened AgentFsCore
  import opened AgentFsInvariant
  import V = AgentFsVersions
  import G = AgentFsGuarantees

  /** The lines an effect announces: on the stream of its own kind, and on the aggregate stream. */
  function ScopedLine(c: Core, e: Effect): string
  {
    match e
    case NewRequestId => "created:" + RequestId(c.nextRequest) + "\n"
    case NewActionId => "created:" + ActionId(c.nextAction) + "\n"
    case InputFrame(payload) => "input:" + Decimal(|payload|) + "\n"
    case Cancel(id) => id + ":status\n"
    case SetRequest(id, p, _) => id + ":" + RequestPartName(p) + "\n"
    case SetAction(id, p, _) => id + ":" + ActionPartName(p) + "\n"
    case Restored(id, _, _, _, _) => "created:" + id + "\n"
    case _ => ""
  }

  function AggregateLine(c: Core, e: Effect): string
  {
    match e
    case NewRequestId => "request:" + RequestId(c.nextRequest) + "\n"
    case NewActionId => "action:" + ActionId(c.nextAction) + "\n"
    case InputFrame(payload) => "input:" + Decimal(|payload|) + "\n"
    case Cancel(id) => "request:" + id + "\n"
    case SetRequest(id, _, _) => "request:" + id + "\n"
    case SetAction(id, _, _) => "action:" + id + "\n"
    case SetUi(doc, _) => "ui:" + UiName(doc) + "\n"
    case Restored(id, _, _, _, _) => "request:" + id + "\n"
    case SetEvaluation(_) => "evaluation\n"
    case SetWork(_) => "work\n"
    case _ => ""
  }

  function Scope(e: Effect): StreamId
  {
    match e
    case NewActionId | SetAction(_, _, _) => ActionsEvents
    case InputFrame(_) => IoEvents
    case _ => RequestsEvents
  }

  function EffectGrowth(c: Core, e: Effect, t: StreamId): bytes
  {
    if t == Input && e.InputFrame? then Frame(e.payload)
    else if t == Scope(e) then Utf8.Encode(ScopedLine(c, e))
    else if t == Events then Utf8.Encode(AggregateLine(c, e))
    else []
  }

  predicate StreamWrite(s: State, op: Op)
  {
    op.Write? && G.CanWrite(s, op.fid) && s.fids[op.fid].node in {Log(Output), Log(UiEvents), Log(Tape)}
  }

  predicate CommandWrite(s: State, op: Op)
  {
    op.Write? && G.CanWrite(s, op.fid) && s.fids[op.fid].node == MachineCtl
  }

  /** What stream `t` gains from a request. */
  function Growth(env: Env, s: State, op: Op, t: StreamId): bytes
  {
    if op.Announce? then (if t == Events || (op.io && t == IoEvents) then op.record else [])
    else if StreamWrite(s, op) then G.StreamGrowth(s.fids[op.fid].node.stream, op.data, t)
    else if CommandWrite(s, op) then
      if t == Events && WriteStep(env, s, op.fid, op.offset, op.data).1.Ok?
      then Utf8.Encode("ctl:") + op.data + [10] else []
    else EffectGrowth(CoreOf(s), EffectOf(env, s, op), t)
  }

  ghost predicate Tells(s: State, s1: State, c: Core, e: Effect)
  {
    forall t :: LogOf(s1, t) == LogOf(s, t) + EffectGrowth(c, e, t)
  }

  lemma NotifyTells(s: State, scope: StreamId, r: Record, aggregate: Record, c: Core, e: Effect)
    requires scope == Scope(e) && scope in {IoEvents, RequestsEvents, ActionsEvents} && !e.InputFrame?
    requires Render(r) == Utf8.Encode(ScopedLine(c, e)) && Render(aggregate) == Utf8.Encode(AggregateLine(c, e))
    ensures forall s0: State :: s0.logs == s.logs ==> Tells(s0, Notify(s, scope, r, aggregate), c, e)
  {
    hide Render, Utf8.Encode, ScopedLine, AggregateLine, Scope;
  }

  lemma SayTells(s: State, aggregate: Record, c: Core, e: Effect)
    requires e.SetUi? || e.SetEvaluation? || e.SetWork?
    requires Render(aggregate) == Utf8.Encode(AggregateLine(c, e))
    ensures forall s0: State :: s0.logs == s.logs ==> Tells(s0, Say(s, aggregate), c, e)
  {
    hide Render, AggregateLine, Utf8.Encode;
    EmptyLine();
  }

  lemma EmptyLine()
    ensures Utf8.Encode("") == []
  {
  }

  lemma NothingTold(s: State, s1: State, c: Core, e: Effect)
    requires s1.logs == s.logs && (e == Nothing || e.Expiry?)
    ensures Tells(s, s1, c, e)
  {
    hide Utf8.Encode;
    EmptyLine();
  }

  lemma RequestRendered(c: Core, id: string, p: RequestPart, value: bytes)
    ensures var e := SetRequest(id, p, value);
            && Render(FieldChanged(id, RequestPartName(p))) == Utf8.Encode(ScopedLine(c, e))
            && Render(RequestChanged(id)) == Utf8.Encode(AggregateLine(c, e))
  {
    hide Utf8.Encode, RequestPartName;
  }

  lemma CommitRequestTells(env: Env, s: State, id: string, p: RequestPart, value: bytes, c: Core)
    requires id in s.requests && Utf8.IsText(value) && s.requests[id].status == Pending
    ensures Tells(s, CommitRequest(env, s, id, p, value).0, c, SetRequest(id, p, value))
  {
    hide Render, Utf8.Encode, Utf8.IsText, RequestPartName, PathOf, Notify, Tells;
    RequestRendered(c, id, p, value);
    var s1 := s.(requests := s.requests[id := SetRequestPart(s.requests[id], p, value)]);
    var s2 := Bump(env, s1, RequestField(id, p));
    var s3 := if p == ReqResponse then Bump(env, s2, RequestField(id, ReqStatus)) else s2;
    var e := SetRequest(id, p, value);
    NotifyTells(s3, RequestsEvents, FieldChanged(id, RequestPartName(p)), RequestChanged(id), c, e);
  }

  lemma ActionRendered(c: Core, id: string, p: ActionPart, value: bytes)
    ensures var e := SetAction(id, p, value);
            && Render(FieldChanged(id, ActionPartName(p))) == Utf8.Encode(ScopedLine(c, e))
            && Render(ActionChanged(id)) == Utf8.Encode(AggregateLine(c, e))
  {
    hide Utf8.Encode, ActionPartName;
  }

  lemma CommitActionTells(env: Env, s: State, id: string, p: ActionPart, value: bytes, c: Core)
    requires id in s.actions && Utf8.IsText(value) && (p == ActOutput ==> G.Uncommitted(s.actions[id]))
    ensures Tells(s, CommitAction(env, s, id, p, value).0, c, SetAction(id, p, value))
  {
    hide Render, Utf8.Encode, Utf8.IsText, ActionPartName, PathOf, Notify, Tells, K.StoreBytes, OutputRootName;
    ActionRendered(c, id, p, value);
    var (st, root) := K.StoreBytes(env.hashing, s.knowledge, OutputRootName(id), value);
    var s0 := if p == ActOutput then s.(knowledge := st) else s;
    var s1 := s0.(actions := s.actions[id := SetActionPart(s.actions[id], p, value, Some(root))]);
    var s2 := Bump(env, s1, ActionField(id, p));
    NotifyTells(s2, ActionsEvents, FieldChanged(id, ActionPartName(p)), ActionChanged(id), c, SetAction(id, p, value));
  }

  lemma CommitUiTells(env: Env, s: State, doc: UiDoc, value: bytes, c: Core)
    requires doc == Skills || Utf8.IsText(value)
    ensures Tells(s, CommitUi(env, s, doc, value).0, c, SetUi(doc, G.Stored(env, Ui(doc), value)))
  {
    hide Utf8.Encode, Utf8.IsText, PathOf, Tells, UiName;
    var s1 := Bump(env, s.(ui := s.ui[doc := G.Stored(env, Ui(doc), value)]), Ui(doc));
    SayTells(s1, UiChanged(doc), c, SetUi(doc, G.Stored(env, Ui(doc), value)));
  }

  lemma CommitInputTells(s: State, payload: bytes, c: Core)
    ensures Tells(s, CommitInput(s, payload), c, InputFrame(payload))
  {
    hide Utf8.Encode, Frame, Decimal;
    assert "input" + ":" == "input:";
  }

  lemma ClunkTells(env: Env, s: State, fid: Fid)
    requires Inv(env, s) && fid != ROOT
    ensures Tells(s, ClunkStep(env, s, fid).0, CoreOf(s), ClunkEffect(env, s, fid))
  {
    hide Utf8.IsText, CommitInput, CommitRequest, CommitAction, CommitUi, CoreInv, LeaseExact, Tells;
    var e, c := ClunkEffect(env, s, fid), CoreOf(s);
    if e == Nothing {
      ClunkQuiet(env, s, fid);
      NothingTold(s, ClunkStep(env, s, fid).0, c, e);
    } else {
      var h, s1 := s.fids[fid], Released(s, fid);
      SameLogs(s, s1);
      match h.node
      case Log(_) => CommitInputTells(s1, h.writeBuf, c);
      case RequestField(id, p) => CommitRequestTells(env, s1, id, p, h.writeBuf, c);
      case ActionField(id, p) => CommitActionTells(env, s1, id, p, h.writeBuf, c);
      case Ui(doc) => CommitUiTells(env, s1, doc, h.writeBuf, c);
      case _ =>
    }
  }

  lemma SameLogs(s: State, s0: State)
    requires s.logs == s0.logs
    ensures forall s1, c, e :: Tells(s0, s1, c, e) ==> Tells(s, s1, c, e)
  {
  }

  lemma ClunkQuiet(env: Env, s: State, fid: Fid)
    requires Inv(env, s) && fid != ROOT && ClunkEffect(env, s, fid) == Nothing
    ensures ClunkStep(env, s, fid).0.logs == s.logs
  {
    hide Utf8.IsText, CoreInv, LeaseExact, K.StoreBytes, Render, PathOf, OutputRootName;
    assert HandlesKnown(s.fids, s.requests.Keys, s.actions.Keys);
  }

  lemma OpenTells(env: Env, s: State, fid: Fid, mode: OpenMode)
    ensures Tells(s, OpenStep(env, s, fid, mode).0, CoreOf(s), OpenEffect(s, fid, mode))
  {
    hide Tells, Allocate, QidOf, Computed, IsWritable, PathOf;
    if fid == ROOT || OpenRefusal(s, fid, mode).Some? {
      NothingTold(s, s, CoreOf(s), Nothing);
    } else {
      var s1 := Allocate(env, s, s.fids[fid].node).0;
      AllocateTells(env, s, s.fids[fid].node);
      LaterLogs(s, s1, OpenStep(env, s, fid, mode).0);
    }
  }

  lemma LaterLogs(s: State, s1: State, s2: State)
    requires s1.logs == s2.logs
    ensures forall c, e :: Tells(s, s1, c, e) ==> Tells(s, s2, c, e)
  {
  }

  lemma AllocateTells(env: Env, s: State, node: Node)
    ensures var e := match node case RequestsClone => NewRequestId case ActionsClone => NewActionId case _ => Nothing;
            Tells(s, Allocate(env, s, node).0, CoreOf(s), e)
  {
    hide Tells, Notify, PathOf, Utf8.Encode, RequestId, ActionId, NewAction;
    match node
    case RequestsClone =>
      var id := RequestId(s.nextRequest);
      var s1 := s.(nextRequest := (s.nextRequest + 1) % U64_LIMIT, requests := s.requests[id := NEW_REQUEST]);
      NotifyTells(s1, RequestsEvents, Created(id), RequestChanged(id), CoreOf(s), NewRequestId);
      LaterLogs(s, Notify(s1, RequestsEvents, Created(id), RequestChanged(id)), Allocate(env, s, node).0);
    case ActionsClone =>
      var id := ActionId(s.nextAction);
      var s1 := s.(nextAction := (s.nextAction + 1) % U64_LIMIT, actions := s.actions[id := NewAction()]);
      NotifyTells(s1, ActionsEvents, Created(id), ActionChanged(id), CoreOf(s), NewActionId);
      LaterLogs(s, Notify(s1, ActionsEvents, Created(id), ActionChanged(id)), Allocate(env, s, node).0);
    case _ => NothingTold(s, s, CoreOf(s), Nothing);
  }

  lemma CancelTells(env: Env, s: State, id: string, c: Core)
    ensures var e := if id in s.requests && s.requests[id].status == Pending then Cancel(id) else Nothing;
            Tells(s, CancelStep(env, s, id).0, c, e)
  {
    hide Tells, Notify, PathOf, Utf8.Encode;
    if id in s.requests && s.requests[id].status == Pending {
      var s1 := s.(requests := s.requests[id := s.requests[id].(status := Cancelled)]);
      var s2 := Bump(env, s1, RequestField(id, ReqStatus));
      StatusRendered(c, id);
      NotifyTells(s2, RequestsEvents, FieldChanged(id, "status"), RequestChanged(id), c, Cancel(id));
    } else {
      NothingTold(s, s, c, Nothing);
    }
  }

  lemma StatusRendered(c: Core, id: string)
    ensures Render(FieldChanged(id, "status")) == Utf8.Encode(ScopedLine(c, Cancel(id)))
  {
    hide Utf8.Encode;
    assert id + ":" + "status" + "\n" == id + ":status\n";
  }

  lemma RestoreTells(env: Env, s: State, id: string, kind: bytes, prompt: bytes, options: bytes)
    ensures Tells(s, RestoreStep(env, s, id, kind, prompt, options).0, CoreOf(s),
                  EffectOf(env, s, Restore(id, kind, prompt, options)))
  {
    hide Tells, Notify, PathOf, Utf8.Encode, RestoredIndex;
    var c, e := CoreOf(s), EffectOf(env, s, Restore(id, kind, prompt, options));
    if e == Nothing {
      NothingTold(s, s, c, Nothing);
    } else {
      var index := RestoredIndex(id);
      var next := if s.nextRequest < index.value + 1 then index.value + 1 else s.nextRequest;
      var s1 := s.(nextRequest := next, requests := s.requests[id := Request(kind, prompt, options, Pending, [])]);
      NotifyTells(Bump(env, s1, RequestsDir), RequestsEvents, Created(id), RequestChanged(id), c, e);
    }
  }

  lemma PublishTells(env: Env, s: State, isObject: bool, d: bytes)
    ensures Tells(s, PublishEvaluationStep(env, s, isObject, d).0, CoreOf(s), EvaluationEffect(s, isObject, d))
    ensures Tells(s, PublishWorkStep(env, s, isObject, d).0, CoreOf(s), WorkEffect(s, isObject, d))
  {
    hide Tells, Utf8.Encode, PathOf, Say;
    NothingTold(s, s, CoreOf(s), Nothing);
    SayTells(Bump(env, s.(evaluation := d), Evaluation), EvaluationChanged, CoreOf(s), SetEvaluation(d));
    SayTells(Bump(env, s.(work := d), Work), WorkChanged, CoreOf(s), SetWork(d));
  }

  lemma ExpireTells(env: Env, s: State, id: string, cause: string, journal: Option<ErrorCode>)
    ensures Tells(s, ExpireStep(env, s, id, cause, journal).0, CoreOf(s), EffectOf(env, s, Expire(id, cause, journal)))
  {
    hide Tells, ExpiryRecord, OutputRootName, PathOf, K.Collected;
    NothingTold(s, ExpireStep(env, s, id, cause, journal).0, CoreOf(s), EffectOf(env, s, Expire(id, cause, journal)));
  }

  lemma WriteTells(env: Env, s: State, fid: Fid, offset: nat, data: bytes)
    requires G.InOrder(env, s)
    ensures var op := Op.Write(fid, offset, data);
            forall t :: LogOf(WriteStep(env, s, fid, offset, data).0, t) == LogOf(s, t) + Growth(env, s, op, t)
  {
    hide G.InOrder, G.TapeAgreed, WriteStep, ControlStep, LogOf, G.Controlled, Utf8.Encode, EffectGrowth;
    var op := Op.Write(fid, offset, data);
    G.WriteGives(env, s, fid, offset, data);
    G.InOrderRoot(env, s);
    if !StreamWrite(s, op) && !CommandWrite(s, op) {
      if G.CanWrite(s, fid) && s.fids[fid].node.RequestField? && s.fids[fid].node.rpart == ReqCtl {
        ControlTells(env, s, fid, offset, data);
      } else {
        NothingTold(s, WriteStep(env, s, fid, offset, data).0, CoreOf(s), Nothing);
      }
    }
  }

  lemma ControlTells(env: Env, s: State, fid: Fid, offset: nat, data: bytes)
    requires G.CanWrite(s, fid) && s.fids[fid].node.RequestField? && s.fids[fid].node.rpart == ReqCtl && fid != ROOT
    ensures Tells(s, WriteStep(env, s, fid, offset, data).0, CoreOf(s), WriteEffect(s, fid, offset, data))
  {
    hide Tells, CancelStep, Utf8.Encode;
    CancelTells(env, s, s.fids[fid].node.id, CoreOf(s));
    NothingTold(s, s, CoreOf(s), Nothing);
  }

  /** Every stream grows by exactly what each request announces on it; nothing is ever dropped or reordered. */
  lemma StepTells(env: Env, s: State, op: Op)
    requires G.InOrder(env, s)
    ensures forall t :: LogOf(Apply(env, s, op), t) == LogOf(s, t) + Growth(env, s, op, t)
  {
    hide WalkStep, OpenStep, WriteStep, ClunkStep, DocumentReadStep, ExpireStep, RestoreStep, PublishEvaluationStep,
      PublishWorkStep;
    hide G.InOrder, EffectGrowth, LogOf, OpenEffect, ClunkEffect, WriteEffect, EvaluationEffect, WorkEffect;
    match op
    case Open(fid, mode) => OpenTells(env, s, fid, mode);
    case Write(fid, offset, data) => WriteTells(env, s, fid, offset, data);
    case Clunk(fid) => ReleaseTells(env, s, fid);
    case Expire(id, cause, journal) => ExpireTells(env, s, id, cause, journal);
    case Restore(id, kind, prompt, options) => RestoreTells(env, s, id, kind, prompt, options);
    case PublishEvaluation(isObject, d) => PublishTells(env, s, isObject, d);
    case PublishWork(isObject, d) => PublishTells(env, s, isObject, d);
    case Announce(io, record) => AnnounceTells(s, io, record);
    case Walk(_, _, _) =>
      WalkQuiet(env, s, op);
      NothingTold(s, Apply(env, s, op), CoreOf(s), Nothing);
    case ReadDocument(_, _, _, _) =>
      WalkQuiet(env, s, op);
      NothingTold(s, Apply(env, s, op), CoreOf(s), Nothing);
  }

  lemma WalkQuiet(env: Env, s: State, op: Op)
    requires op.Walk? || op.ReadDocument?
    ensures Apply(env, s, op).logs == s.logs
  {
    hide Descend, Computed, QidOf;
  }

  lemma AnnounceTells(s: State, io: bool, record: bytes)
    ensures forall t :: LogOf(AnnounceStep(s, io, record), t) ==
              LogOf(s, t) + if t == Events || (io && t == IoEvents) then record else []
  {
  }

  lemma ReleaseTells(env: Env, s: State, fid: Fid)
    requires G.InOrder(env, s)
    ensures Tells(s, ClunkStep(env, s, fid).0, CoreOf(s), EffectOf(env, s, Clunk(fid)))
  {
    hide Inv, Tells, ClunkEffect;
    if fid == ROOT { NothingTold(s, s, CoreOf(s), Nothing); } else { ClunkTells(env, s, fid); }
  }

  /**
   * No file changes in silence, except an output that expires: whenever what a file shows changes, the
   * aggregate stream has grown.
   */
  lemma ChangesAnnounced(env: Env, s: State, op: Op, n: Node)
    requires G.InOrder(env, s) && !Wraps(env, s, op) && !op.Expire? && Computed(env, s, n).Ok?
    requires Computed(env, Apply(env, s, op), n) != Computed(env, s, n)
    ensures LogOf(s, Events) < LogOf(Apply(env, s, op), Events)
  {
    hide G.InOrder, Apply, Wraps, Computed, EffectOf, Utf8.Encode, LogOf;
    var e := EffectOf(env, s, op);
    if n !in V.Touched(CoreOf(s), e) { G.OthersShow(env, s, op, n); }
    StepTells(env, s, op);
    LineNotEmpty(env, s, op);
  }

  lemma LineNotEmpty(env: Env, s: State, op: Op)
    requires V.Touched(CoreOf(s), EffectOf(env, s, op)) != [] && !op.Expire?
    ensures Growth(env, s, op, Events) != []
  {
    hide Utf8.IsText, RestoredIndex, OutputRootName;
  }
}
