/**
 * The full server refines the effect machine: every request of the file protocol, with its
 * handles, leases and buffers, stores exactly one effect; and what every request keeps true.
 */
module AgentFsInvariant {
  import opened Bytes
  import Utf8
  import K = Knowledge
  import opened Frames
  import opened AgentFs
  import opened AgentFsCore

  /** A live handle with the tape open for writing. */
  predicate HoldsTape(fids: map<Fid, Handle>, f: Fid)
  {
    f in fids && fids[f].node == Log(Tape) && fids[f].mode.Some? && Writes(fids[f].mode.value)
  }

  /** The lease names exactly the one live handle that can write the tape. */
  ghost predicate LeaseExact(fids: map<Fid, Handle>, writer: Option<Fid>)
  {
    ROOT !in fids && forall f: Fid :: writer == Some(f) <==> HoldsTape(fids, f)
  }

  predicate Known(requests: set<string>, actions: set<string>, node: Node)
  {
    match node
    case RequestEntry(id) => id in requests
    case RequestField(id, _) => id in requests
    case ActionEntry(id) => id in actions
    case ActionField(id, _) => id in actions
    case _ => true
  }

  ghost predicate HandlesKnown(fids: map<Fid, Handle>, requests: set<string>, actions: set<string>)
  {
    forall f :: f in fids ==> Known(requests, actions, fids[f].node)
  }

  ghost predicate InputBounded(fids: map<Fid, Handle>)
  {
    forall f :: f in fids && fids[f].node == Log(Input) ==> |fids[f].writeBuf| <= MAX_DOC_BYTES
  }

  ghost predicate Inv(env: Env, s: State)
  {
    && LeaseExact(s.fids, s.tapeWriter) && InputBounded(s.fids)
    && HandlesKnown(s.fids, s.requests.Keys, s.actions.Keys)
    && CoreInv(env, CoreOf(s))
  }

  // ------------------------------------------------- the effect of a request

  function OpenEffect(s: State, fid: Fid, mode: OpenMode): Effect
  {
    if fid == ROOT || OpenRefusal(s, fid, mode).Some? then Nothing
    else match s.fids[fid].node
      case RequestsClone => NewRequestId
      case ActionsClone => NewActionId
      case _ => Nothing
  }

  function WriteEffect(s: State, fid: Fid, offset: nat, data: bytes): Effect
  {
    if fid !in s.fids || s.fids[fid].mode.None? || !Writes(s.fids[fid].mode.value) then Nothing
    else match s.fids[fid].node
      case Log(stream) => if stream == Tape then TapeAppend(data) else Nothing
      case RequestField(id, p) =>
        if p == ReqCtl && offset == 0 && data == Utf8.Encode("cancel") && id in s.requests &&
          s.requests[id].status == Pending
        then Cancel(id) else Nothing
      case _ => Nothing
  }

  function ClunkEffect(env: Env, s: State, fid: Fid): Effect
  {
    if fid !in s.fids || !s.fids[fid].wrote then Nothing
    else
      var value := s.fids[fid].writeBuf;
      match s.fids[fid].node
      case Log(stream) => if stream == Input then InputFrame(value) else Nothing
      case RequestField(id, p) =>
        if Utf8.IsText(value) && id in s.requests && s.requests[id].status == Pending
        then SetRequest(id, p, value) else Nothing
      case ActionField(id, p) =>
        if Utf8.IsText(value) && id in s.actions
           && (p == ActOutput ==> s.actions[id].outputRoot.None? && !s.actions[id].expired)
        then SetAction(id, p, value) else Nothing
      case Ui(doc) =>
        if doc == Skills then SetUi(doc, env.skills(if Utf8.IsText(value) then value else []))
        else if Utf8.IsText(value) then SetUi(doc, value) else Nothing
      case _ => Nothing
  }

  function EffectOf(env: Env, s: State, op: Op): Effect
  {
    match op
    case Open(fid, mode) => OpenEffect(s, fid, mode)
    case Write(fid, offset, data) => if fid == ROOT then Nothing else WriteEffect(s, fid, offset, data)
    case Clunk(fid) => if fid == ROOT then Nothing else ClunkEffect(env, s, fid)
    case Expire(id, cause, journal) =>
      if id in s.actions && journal.None? && OutputRootName(id) in s.knowledge.roots then Expiry(id, cause) else Nothing
    case Restore(id, kind, prompt, options) =>
      if RestoredIndex(id).Some? && kind != [] && |kind| <= MAX_DOC_BYTES && |prompt| <= MAX_DOC_BYTES
         && |options| <= MAX_DOC_BYTES && id !in s.requests
      then Restored(id, RestoredIndex(id).value, kind, prompt, options) else Nothing
    case PublishEvaluation(isObject, d) => EvaluationEffect(s, isObject, d)
    case PublishWork(isObject, d) => WorkEffect(s, isObject, d)
    case _ => Nothing
  }

  // -------------------------------------------------------------- refinement

  lemma NotifyCore(s: State, scope: StreamId, r: Record, aggregate: Record)
    requires scope in {IoEvents, RequestsEvents, ActionsEvents}
    ensures CoreOf(Notify(s, scope, r, aggregate)) == CoreOf(s)
    ensures CoreOf(Say(s, aggregate)) == CoreOf(s)
  {
    hide Render;
  }

  lemma AllocateCore(env: Env, s: State, node: Node)
    ensures var e := if node.RequestsClone? then NewRequestId else if node.ActionsClone? then NewActionId else Nothing;
            var s1 := Allocate(env, s, node).0;
            && CoreOf(s1) == Effected(env, CoreOf(s), e) && s1.fids == s.fids && s1.tapeWriter == s.tapeWriter
  {
    hide PathOf, Render, RequestId, ActionId, NewAction;
  }

  lemma OpenCore(env: Env, s: State, fid: Fid, mode: OpenMode)
    requires Inv(env, s)
    ensures Allowed(CoreOf(s), OpenEffect(s, fid, mode))
    ensures CoreOf(OpenStep(env, s, fid, mode).0) == Effected(env, CoreOf(s), OpenEffect(s, fid, mode))
  {
    hide Allocate, Opened, IsWritable, Computed, QidOf, PathOf, Inv, CoreOf;
    if fid != ROOT && OpenRefusal(s, fid, mode).None? {
      var node := s.fids[fid].node;
      AllocateCore(env, s, node);
      var (s1, cloneId) := Allocate(env, s, node);
      forall buf { OpenedCore(s1, fid, mode, cloneId, buf); }
    }
  }

  lemma OpenedCore(s: State, fid: Fid, mode: OpenMode, cloneId: Option<string>, buf: bytes)
    requires fid in s.fids
    ensures CoreOf(Opened(s, fid, mode, cloneId, buf)) == CoreOf(s)
  {}

  lemma StreamWriteCore(env: Env, s: State, stream: StreamId, data: bytes)
    requires Inv(env, s) && stream in {Output, Tape, UiEvents}
    ensures var e := if stream == Tape then TapeAppend(data) else Nothing;
            && Allowed(CoreOf(s), e)
            && CoreOf(StreamWriteStep(env, s, stream, data).0) == Effected(env, CoreOf(s), e)
  {
    hide PathOf, Render, EvidenceAgrees, RequestIdsBelow, ActionIdsBelow, RequestsSettled, K.ReadRoot, LeaseExact,
      HandlesKnown;
  }

  lemma CancelCore(env: Env, s: State, id: string)
    ensures var e := if id in s.requests && s.requests[id].status == Pending then Cancel(id) else Nothing;
            CoreOf(CancelStep(env, s, id).0) == Effected(env, CoreOf(s), e)
  {
    hide PathOf, Render;
  }

  lemma BufferCore(env: Env, s: State, fid: Fid, offset: nat, data: bytes)
    requires fid in s.fids
    ensures CoreOf(BufferStep(env, s, fid, offset, data).0) == CoreOf(s)
  {
    hide Splice;
  }

  lemma CommandCore(s: State, data: bytes)
    ensures CoreOf(CommandStep(s, data).0) == CoreOf(s)
  {
    hide Utf8.Encode, Utf8.IsText;
  }

  lemma WriteCore(env: Env, s: State, fid: Fid, offset: nat, data: bytes)
    requires Inv(env, s) && fid != ROOT
    ensures Allowed(CoreOf(s), WriteEffect(s, fid, offset, data))
    ensures CoreOf(WriteStep(env, s, fid, offset, data).0) ==
            Effected(env, CoreOf(s), WriteEffect(s, fid, offset, data))
  {
    hide PathOf, Utf8.Encode, StreamWriteStep, CancelStep, BufferStep, CommandStep, CoreInv, LeaseExact, HandlesKnown;
    if fid in s.fids && s.fids[fid].mode.Some? && Writes(s.fids[fid].mode.value) {
      BufferCore(env, s, fid, offset, data);
      CommandCore(s, data);
      match s.fids[fid].node
      case Log(stream) => if stream in {Output, Tape, UiEvents} { StreamWriteCore(env, s, stream, data); }
      case RequestField(id, _) => CancelCore(env, s, id);
      case _ =>
    }
  }

  lemma CommitInputCore(env: Env, s: State, payload: bytes)
    ensures CoreOf(CommitInput(s, payload)) == Effected(env, CoreOf(s), InputFrame(payload))
  {
    hide Render, Frame, PathOf;
  }

  lemma CommitRequestCore(env: Env, s: State, id: string, p: RequestPart, value: bytes)
    requires id in s.requests
    ensures var e := if Utf8.IsText(value) && s.requests[id].status == Pending then SetRequest(id, p, value)
            else Nothing;
            CoreOf(CommitRequest(env, s, id, p, value).0) == Effected(env, CoreOf(s), e)
  {
    hide Render, PathOf, Utf8.IsText, RequestPartName, SetRequestPart;
  }

  function ActionEffect(a: Action, id: string, p: ActionPart, value: bytes): Effect
  {
    if Utf8.IsText(value) && (p == ActOutput ==> a.outputRoot.None? && !a.expired) then SetAction(id, p, value)
      else Nothing
  }

  lemma CommitActionCore(env: Env, s: State, id: string, p: ActionPart, value: bytes)
    requires id in s.actions
    ensures CoreOf(CommitAction(env, s, id, p, value).0) ==
            Effected(env, CoreOf(s), ActionEffect(s.actions[id], id, p, value))
  {
    hide Utf8.IsText, PathOf, K.StoreBytes, OutputRootName, SetActionPart, Effected;
    assert Effected(env, CoreOf(s), Nothing) == CoreOf(s) by { NothingCore(env, s); }
    if ActionEffect(s.actions[id], id, p, value) != Nothing { StoredActionCore(env, s, id, p, value); }
  }

  lemma NothingCore(env: Env, s: State)
    ensures Effected(env, CoreOf(s), Nothing) == CoreOf(s)
  {
    hide PathOf, K.StoreBytes, K.ForkAppend, K.Collected, OutputRootName, SetActionPart, NewAction, ExpiryRecord;
  }

  lemma StoredActionCore(env: Env, s: State, id: string, p: ActionPart, value: bytes)
    requires id in s.actions && ActionEffect(s.actions[id], id, p, value) == SetAction(id, p, value)
    ensures CoreOf(CommitAction(env, s, id, p, value).0) == Effected(env, CoreOf(s), SetAction(id, p, value))
  {
    hide CoreOf, Notify, Bump, Touch, Utf8.IsText, ActionPartName, K.StoreBytes, OutputRootName, SetActionPart,
      NewAction, ExpiryRecord;
    var (st, root) := K.StoreBytes(env.hashing, s.knowledge, OutputRootName(id), value);
    var knowledge := if p == ActOutput then st else s.knowledge;
    var actions := s.actions[id := SetActionPart(s.actions[id], p, value, Some(root))];
    var s1 := s.(knowledge := knowledge, actions := actions);
    StoredCore(env, s, knowledge, actions, ActionField(id, p));
    NotifyCore(Bump(env, s1, ActionField(id, p)), ActionsEvents, FieldChanged(id, ActionPartName(p)),
      ActionChanged(id));
  }

  lemma StoredCore(env: Env, s: State, knowledge: K.Store, actions: map<string, Action>, node: Node)
    ensures CoreOf(Bump(env, s.(knowledge := knowledge, actions := actions), node))
              == Touch(env, CoreOf(s).(knowledge := knowledge, actions := actions), node)
    ensures CoreOf(s).knowledge == s.knowledge && CoreOf(s).actions == s.actions
  {
    hide PathOf;
  }

  lemma CommitUiCore(env: Env, s: State, doc: UiDoc, value: bytes)
    ensures var e := if doc == Skills then SetUi(doc, env.skills(if Utf8.IsText(value) then value else []))
                     else if Utf8.IsText(value) then SetUi(doc, value) else Nothing;
            CoreOf(CommitUi(env, s, doc, value).0) == Effected(env, CoreOf(s), e)
  {
    hide Render, PathOf, Utf8.IsText;
  }

  lemma ReleasedCore(s: State, fid: Fid)
    ensures CoreOf(Released(s, fid)) == CoreOf(s)
  {}

  lemma ClunkCore(env: Env, s: State, fid: Fid)
    requires Inv(env, s) && fid != ROOT
    ensures Allowed(CoreOf(s), ClunkEffect(env, s, fid))
    ensures CoreOf(ClunkStep(env, s, fid).0) == Effected(env, CoreOf(s), ClunkEffect(env, s, fid))
  {
    hide PathOf, Utf8.IsText, Released, CommitInput, CommitRequest, CommitAction, CommitUi, CoreInv, LeaseExact;
    if fid in s.fids {
      var h, s1 := s.fids[fid], Released(s, fid);
      ReleasedCore(s, fid);
      match h.node
      case Log(_) => CommitInputCore(env, s1, h.writeBuf);
      case RequestField(id, p) => CommitRequestCore(env, s1, id, p, h.writeBuf);
      case ActionField(id, p) => CommitActionCore(env, s1, id, p, h.writeBuf);
      case Ui(doc) => CommitUiCore(env, s1, doc, h.writeBuf);
      case _ =>
    }
  }

  lemma ExpireCore(env: Env, s: State, id: string, cause: string, journal: Option<ErrorCode>)
    ensures var e := EffectOf(env, s, Expire(id, cause, journal));
            Allowed(CoreOf(s), e) && CoreOf(ExpireStep(env, s, id, cause, journal).0) == Effected(env, CoreOf(s), e)
  {
    hide PathOf, ExpiryRecord, OutputRootName, K.Collected;
  }

  lemma RestoreCore(env: Env, s: State, id: string, kind: bytes, prompt: bytes, options: bytes)
    ensures var e := EffectOf(env, s, Restore(id, kind, prompt, options));
            Allowed(CoreOf(s), e) && CoreOf(RestoreStep(env, s, id, kind, prompt, options).0) ==
              Effected(env, CoreOf(s), e)
  {
    hide PathOf, Render, RequestId, ParseUnsigned;
  }

  function EvaluationEffect(s: State, isObject: bool, d: bytes): Effect
  {
    if isObject && |d| <= MAX_DOC_BYTES && s.evaluation != d then SetEvaluation(d) else Nothing
  }

  function WorkEffect(s: State, isObject: bool, d: bytes): Effect
  {
    if isObject && |d| <= MAX_DOC_BYTES && s.work != d then SetWork(d) else Nothing
  }

  lemma PublishEvaluationCore(env: Env, s: State, isObject: bool, d: bytes)
    ensures Allowed(CoreOf(s), EvaluationEffect(s, isObject, d))
    ensures CoreOf(PublishEvaluationStep(env, s, isObject, d).0) ==
            Effected(env, CoreOf(s), EvaluationEffect(s, isObject, d))
  {
    hide PathOf, Render;
  }

  lemma PublishWorkCore(env: Env, s: State, isObject: bool, d: bytes)
    ensures Allowed(CoreOf(s), WorkEffect(s, isObject, d))
    ensures CoreOf(PublishWorkStep(env, s, isObject, d).0) == Effected(env, CoreOf(s), WorkEffect(s, isObject, d))
  {
    hide PathOf, Render;
  }

  lemma WalkCore(env: Env, s: State, fid: Fid, newfid: Fid, names: seq<string>)
    ensures CoreOf(WalkStep(env, s, fid, newfid, names).0) == CoreOf(s)
  {
    hide Descend, QidOf;
  }

  lemma ReadCore(env: Env, s: State, fid: Fid, node: Node, offset: nat, count: nat)
    ensures CoreOf(DocumentReadStep(env, s, fid, node, offset, count).0) == CoreOf(s)
  {
    hide Computed, Slice;
  }

  /** Every request stores exactly its effect. */
  lemma StepRefines(env: Env, s: State, op: Op)
    requires Inv(env, s)
    ensures Allowed(CoreOf(s), EffectOf(env, s, op))
    ensures CoreOf(Apply(env, s, op)) == Effected(env, CoreOf(s), EffectOf(env, s, op))
  {
    hide WalkStep, DocumentReadStep, OpenStep, WriteStep, ClunkStep, ExpireStep, RestoreStep, PublishEvaluationStep,
      PublishWorkStep;
    hide OpenEffect, WriteEffect, ClunkEffect, RestoredIndex, Inv, PathOf, EvaluationEffect, WorkEffect;
    match op
    case Walk(fid, newfid, names) => WalkCore(env, s, fid, newfid, names);
    case ReadDocument(fid, node, offset, count) => ReadCore(env, s, fid, node, offset, count);
    case Open(fid, mode) => OpenCore(env, s, fid, mode);
    case Write(fid, offset, data) => if fid != ROOT { WriteCore(env, s, fid, offset, data); }
      else { WriteRoot(env, s, offset, data); }
    case Clunk(fid) => if fid != ROOT { ClunkCore(env, s, fid); } else { ClunkRoot(env, s); }
    case Expire(id, cause, journal) => ExpireCore(env, s, id, cause, journal);
    case Restore(id, kind, prompt, options) => RestoreCore(env, s, id, kind, prompt, options);
    case PublishEvaluation(isObject, document) => PublishEvaluationCore(env, s, isObject, document);
    case PublishWork(isObject, document) => PublishWorkCore(env, s, isObject, document);
    case Announce(_, _) =>
  }

  lemma WriteRoot(env: Env, s: State, offset: nat, data: bytes)
    ensures WriteStep(env, s, ROOT, offset, data) == (s, Err(NoAccess))
  {}

  lemma ClunkRoot(env: Env, s: State)
    ensures ClunkStep(env, s, ROOT) == (s, Ok(()))
  {}

  // ---------------------------------------------------------------- handles

  lemma {:induction false} DescendKnown(s: State, node: Node, names: seq<string>)
    requires Known(s.requests.Keys, s.actions.Keys, node) && Descend(s, node, names).Ok?
    ensures Known(s.requests.Keys, s.actions.Keys, Descend(s, node, names).value)
    decreases |names|
  {
    if names != [] {
      ChildKnown(s, node, names[0]);
      DescendKnown(s, Child(s, node, names[0]).value, names[1..]);
    }
  }

  lemma ChildKnown(s: State, node: Node, name: string)
    requires Known(s.requests.Keys, s.actions.Keys, node) && Child(s, node, name).Ok?
    ensures Known(s.requests.Keys, s.actions.Keys, Child(s, node, name).value)
  {}

  /** How one request changes the handle table. */
  datatype HandleChange = Same | Bind(fid: Fid, node: Node) | Rework(fid: Fid, handle: Handle) | Drop(fid: Fid)

  ghost predicate Changes(s: State, s1: State, change: HandleChange)
  {
    match change
    case Same => s1.fids == s.fids && s1.tapeWriter == s.tapeWriter
    case Bind(fid, node) =>
      fid != ROOT && fid !in s.fids && s1.fids == s.fids[fid := At(node)] && s1.tapeWriter == s.tapeWriter
      && Known(s.requests.Keys, s.actions.Keys, node)
    case Rework(fid, h) =>
      && fid in s.fids && s1.fids == s.fids[fid := h] && h.node == s.fids[fid].node
      && (h.node == Log(Input) && |s.fids[fid].writeBuf| <= MAX_DOC_BYTES ==> |h.writeBuf| <= MAX_DOC_BYTES)
      && (if h.mode == s.fids[fid].mode then s1.tapeWriter == s.tapeWriter
          else if h.node == Log(Tape) && h.mode.Some? && Writes(h.mode.value)
               then s.tapeWriter == None && s1.tapeWriter == Some(fid)
               else s.fids[fid].mode.None? && s1.tapeWriter == s.tapeWriter)
    case Drop(fid) =>
      s1.fids == s.fids - {fid} && s1.tapeWriter == if s.tapeWriter == Some(fid) then None else s.tapeWriter
  }

  /** Only the handle a request names is changed, and only in the way that request changes one. */
  predicate Fits(s: State, op: Op, change: HandleChange)
  {
    match change
    case Same => true
    case Bind(_, _) => op.Walk?
    case Rework(fid, h) =>
      fid in s.fids &&
      (match op
       case Open(f, _) => f == fid && s.fids[fid].mode.None?
       case Write(f, _, _) => f == fid && h.(writeBuf := [], wrote := false) ==
         s.fids[fid].(writeBuf := [], wrote := false)
       case ReadDocument(f, _, _, _) => f == fid && h.(snapshot := None) == s.fids[fid].(snapshot := None)
       case _ => false)
    case Drop(fid) => op == Clunk(fid)
  }

  lemma ChangeKeeps(s: State, s1: State, change: HandleChange)
    requires LeaseExact(s.fids, s.tapeWriter) && HandlesKnown(s.fids, s.requests.Keys, s.actions.Keys)
    requires InputBounded(s.fids)
    requires Changes(s, s1, change) && s.requests.Keys <= s1.requests.Keys && s.actions.Keys <= s1.actions.Keys
    ensures LeaseExact(s1.fids, s1.tapeWriter) && HandlesKnown(s1.fids, s1.requests.Keys, s1.actions.Keys)
    ensures InputBounded(s1.fids)
  {
    forall f: Fid ensures s1.tapeWriter == Some(f) <==> HoldsTape(s1.fids, f) {
      assert s.tapeWriter == Some(f) <==> HoldsTape(s.fids, f);
    }
  }

  lemma EffectGrows(env: Env, c: Core, e: Effect)
    requires Allowed(c, e)
    ensures c.requests.Keys <= Effected(env, c, e).requests.Keys && c.actions.Keys <= Effected(env, c, e).actions.Keys
  {
    hide PathOf, RequestId, ActionId, NewAction, ExpiryRecord, K.Collected, K.StoreBytes, K.ForkAppend, Frame;
  }

  lemma WalkHandles(env: Env, s: State, fid: Fid, newfid: Fid, names: seq<string>) returns (change: HandleChange)
    requires HandlesKnown(s.fids, s.requests.Keys, s.actions.Keys)
    ensures Changes(s, WalkStep(env, s, fid, newfid, names).0, change)
    ensures Fits(s, Walk(fid, newfid, names), change)
  {
    hide Descend, QidOf;
    change := Same;
    if newfid != ROOT && newfid !in s.fids && NodeOf(s, fid).Ok? {
      var r := Descend(s, NodeOf(s, fid).value, names);
      if r.Ok? {
        DescendKnown(s, NodeOf(s, fid).value, names);
        change := Bind(newfid, r.value);
      }
    }
  }

  lemma OpenHandles(env: Env, s: State, fid: Fid, mode: OpenMode) returns (change: HandleChange)
    ensures Changes(s, OpenStep(env, s, fid, mode).0, change)
    ensures Fits(s, Open(fid, mode), change)
  {
    hide Allocate, IsWritable, Computed, QidOf, PathOf;
    change := Same;
    if fid != ROOT && OpenRefusal(s, fid, mode).None? {
      AllocateCore(env, s, s.fids[fid].node);
      var s1 := OpenStep(env, s, fid, mode).0;
      if s1.fids != s.fids { change := Rework(fid, s1.fids[fid]); }
    }
  }

  lemma BufferHandles(env: Env, s: State, fid: Fid, offset: nat, data: bytes) returns (change: HandleChange)
    requires fid in s.fids
    ensures Changes(s, BufferStep(env, s, fid, offset, data).0, change)
    ensures Fits(s, Op.Write(fid, offset, data), change)
  {
    hide Splice;
    var s1 := BufferStep(env, s, fid, offset, data).0;
    change := if s1.fids == s.fids then Same else Rework(fid, s1.fids[fid]);
  }

  lemma StreamWriteHandles(env: Env, s: State, stream: StreamId, data: bytes)
    ensures Changes(s, StreamWriteStep(env, s, stream, data).0, Same)
    ensures Changes(s, CommandStep(s, data).0, Same)
  {
    hide PathOf, Render, K.ForkAppend, Utf8.Encode, Utf8.IsText;
  }

  lemma ControlHandles(env: Env, s: State, id: string, offset: nat, data: bytes)
    ensures Changes(s, ControlStep(env, s, id, offset, data).0, Same)
  {
    hide PathOf, Render, Utf8.Encode;
  }

  lemma WriteHandles(env: Env, s: State, fid: Fid, offset: nat, data: bytes) returns (change: HandleChange)
    ensures Changes(s, WriteStep(env, s, fid, offset, data).0, change)
    ensures Fits(s, Op.Write(fid, offset, data), change)
  {
    hide StreamWriteStep, CommandStep, ControlStep, BufferStep;
    change := Same;
    if fid in s.fids && fid != ROOT && s.fids[fid].mode.Some? && Writes(s.fids[fid].mode.value) {
      match s.fids[fid].node
      case Log(stream) =>
        StreamWriteHandles(env, s, stream, data);
        if stream == Input { change := BufferHandles(env, s, fid, offset, data); }
      case MachineCtl => StreamWriteHandles(env, s, Tape, data);
      case RequestField(id, p) =>
        ControlHandles(env, s, id, offset, data);
        if p != ReqCtl { change := BufferHandles(env, s, fid, offset, data); }
      case Ui(_) => change := BufferHandles(env, s, fid, offset, data);
      case ActionField(_, _) => change := BufferHandles(env, s, fid, offset, data);
      case _ =>
    }
  }

  lemma CommitHandles(env: Env, s: State, doc: UiDoc, value: bytes)
    ensures Changes(s, CommitInput(s, value), Same)
    ensures Changes(s, CommitUi(env, s, doc, value).0, Same)
  {
    hide PathOf, Render, Frame, Utf8.IsText;
  }

  lemma CommitRequestHandles(env: Env, s: State, id: string, p: RequestPart, value: bytes)
    ensures var s1 := CommitRequest(env, s, id, p, value).0; s1.fids == s.fids && s1.tapeWriter == s.tapeWriter
  {
    hide PathOf, Render, Utf8.IsText, RequestPartName, SetRequestPart;
  }

  lemma CommitActionHandles(env: Env, s: State, id: string, p: ActionPart, value: bytes)
    ensures var s1 := CommitAction(env, s, id, p, value).0; s1.fids == s.fids && s1.tapeWriter == s.tapeWriter
  {
    hide PathOf, Render, Utf8.IsText, K.StoreBytes, ActionPartName, OutputRootName, SetActionPart;
  }

  lemma ClunkHandles(env: Env, s: State, fid: Fid) returns (change: HandleChange)
    ensures Changes(s, ClunkStep(env, s, fid).0, change)
    ensures change == (if fid == ROOT || fid !in s.fids then Same else Drop(fid)) && Fits(s, Clunk(fid), change)
  {
    hide CommitInput, CommitRequest, CommitAction, CommitUi;
    change := if fid == ROOT || fid !in s.fids then Same else Drop(fid);
    if fid in s.fids {
      var h, s1 := s.fids[fid], Released(s, fid);
      match h.node
      case RequestField(id, p) => CommitRequestHandles(env, s1, id, p, h.writeBuf);
      case ActionField(id, p) => CommitActionHandles(env, s1, id, p, h.writeBuf);
      case Ui(doc) => CommitHandles(env, s1, doc, h.writeBuf);
      case _ => CommitHandles(env, s1, Skills, h.writeBuf);
    }
  }

  lemma ReadHandles(env: Env, s: State, fid: Fid, node: Node, offset: nat, count: nat) returns (change: HandleChange)
    ensures Changes(s, DocumentReadStep(env, s, fid, node, offset, count).0, change)
    ensures Fits(s, ReadDocument(fid, node, offset, count), change)
  {
    hide Computed, Slice;
    var s1 := DocumentReadStep(env, s, fid, node, offset, count).0;
    change := if s1.fids == s.fids then Same else Rework(fid, s1.fids[fid]);
  }

  lemma ExpireHandles(env: Env, s: State, id: string, cause: string, journal: Option<ErrorCode>)
    ensures Changes(s, ExpireStep(env, s, id, cause, journal).0, Same)
  {
    hide PathOf, ExpiryRecord, OutputRootName, K.Collected;
  }

  lemma RestoreHandles(env: Env, s: State, id: string, kind: bytes, prompt: bytes, options: bytes)
    ensures Changes(s, RestoreStep(env, s, id, kind, prompt, options).0, Same)
  {
    hide PathOf, Render, RestoredIndex;
  }

  lemma EvaluationHandles(env: Env, s: State, isObject: bool, d: bytes)
    ensures Changes(s, PublishEvaluationStep(env, s, isObject, d).0, Same)
  {
    hide PathOf, Render;
  }

  lemma WorkHandles(env: Env, s: State, isObject: bool, d: bytes)
    ensures Changes(s, PublishWorkStep(env, s, isObject, d).0, Same)
  {
    hide PathOf, Render;
  }

  lemma StepHandles(env: Env, s: State, op: Op) returns (change: HandleChange)
    requires HandlesKnown(s.fids, s.requests.Keys, s.actions.Keys)
    ensures Changes(s, Apply(env, s, op), change)
    ensures Fits(s, op, change)
  {
    hide WalkStep, OpenStep, WriteStep, ClunkStep, DocumentReadStep, ExpireStep, RestoreStep;
    hide PublishEvaluationStep, PublishWorkStep;
    change := Same;
    match op
    case Walk(fid, newfid, names) => change := WalkHandles(env, s, fid, newfid, names);
    case Open(fid, mode) => change := OpenHandles(env, s, fid, mode);
    case ReadDocument(fid, node, offset, count) => change := ReadHandles(env, s, fid, node, offset, count);
    case Write(fid, offset, data) => change := WriteHandles(env, s, fid, offset, data);
    case Clunk(fid) => change := ClunkHandles(env, s, fid);
    case Expire(id, cause, journal) => ExpireHandles(env, s, id, cause, journal);
    case Restore(id, kind, prompt, options) => RestoreHandles(env, s, id, kind, prompt, options);
    case PublishEvaluation(isObject, d) => EvaluationHandles(env, s, isObject, d);
    case PublishWork(isObject, d) => WorkHandles(env, s, isObject, d);
    case Announce(_, _) =>
  }

  // ------------------------------------------------------------------- runs

  /** The request allocates an id at the 64-bit limit, where the counter wraps. */
  predicate Wraps(env: Env, s: State, op: Op) { CounterWraps(CoreOf(s), EffectOf(env, s, op)) }

  /** Every request keeps the invariant, except exactly a clone that wraps its counter. */
  lemma StepKeeps(env: Env, s: State, op: Op)
    requires K.CollisionFree(env.hashing) && Inv(env, s)
    ensures Inv(env, Apply(env, s, op)) <==> !Wraps(env, s, op)
  {
    hide Apply, EffectOf, CoreInv, Effected, LeaseExact, HandlesKnown, Changes;
    var e := EffectOf(env, s, op);
    StepRefines(env, s, op);
    EffectKeeps(env, CoreOf(s), e);
    EffectGrows(env, CoreOf(s), e);
    var change := StepHandles(env, s, op);
    ChangeKeeps(s, Apply(env, s, op), change);
  }

  lemma InitialInv(env: Env, status: bytes, evaluation: bytes, work: bytes, ui: map<UiDoc, bytes>)
    ensures Inv(env, Initial(env, status, evaluation, work, ui))
  {
    var s := Initial(env, status, evaluation, work, ui);
    var h, st := env.hashing, s.knowledge;
    assert K.Ranked(st, map[s.tapeRoot := 0]);
    assert K.MaterializeAll(h, st, [], {s.tapeRoot}) == K.Good([]);
    assert {} + {s.tapeRoot} == {s.tapeRoot};
    forall id ensures OutputAgrees(h, st, s.actions, id) { OutputNamesDistinct(id, id); }
  }

  /** No request of the run wraps a counter. */
  ghost predicate NeverWraps(env: Env, start: State, ops: seq<Op>)
  {
    forall i :: 0 <= i < |ops| ==> !Wraps(env, Run(env, start, ops[..i]), ops[i])
  }

  lemma NeverWrapsPrefix(env: Env, start: State, ops: seq<Op>, k: nat)
    requires NeverWraps(env, start, ops) && k <= |ops|
    ensures NeverWraps(env, start, ops[..k])
  {
    hide Run, Wraps;
    forall i | 0 <= i < k ensures !Wraps(env, Run(env, start, ops[..k][..i]), ops[..k][i]) {
      assert ops[..k][..i] == ops[..i];
    }
  }

  /** The invariant holds at every point of every run that wraps no counter. */
  lemma {:induction false} RunKeeps(env: Env, start: State, ops: seq<Op>)
    requires K.CollisionFree(env.hashing) && Inv(env, start) && NeverWraps(env, start, ops)
    ensures Inv(env, Run(env, start, ops))
    decreases |ops|
  {
    hide Inv, Wraps, Apply;
    if ops != [] {
      var before := ops[..|ops| - 1];
      NeverWrapsPrefix(env, start, ops, |ops| - 1);
      RunKeeps(env, start, before);
      StepKeeps(env, Run(env, start, before), ops[|ops| - 1]);
    }
  }
}
