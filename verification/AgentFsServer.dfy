/**
 * The agent file server as it runs: fields updated in place, one method per request. Each method
 * does exactly what its step in `AgentFs` says, keeps the server valid, and states what its caller
 * relies on.
 */
module AgentFsServer {
  import opened Bytes
  import Utf8
  import K = Knowledge
  import opened Frames
  import opened AgentFs
  import I = AgentFsInvariant
  import G = AgentFsGuarantees
  import P = AgentFsProjection

  class Server {
    const env: Env
    var logs: map<StreamId, bytes>
    var knowledge: K.Store
    var tapeRoot: K.Hash
    var requests: map<string, Request>
    var actions: map<string, Action>
    var status: bytes
    var evaluation: bytes
    var work: bytes
    var ui: map<UiDoc, bytes>
    var nextRequest: nat
    var nextAction: nat
    var tapeWriter: Option<Fid>
    var versions: map<nat, nat>
    var fids: map<Fid, Handle>

    function Abs(): State
      reads this
    {
      State(logs, knowledge, tapeRoot, requests, actions, status, evaluation, work, ui,
            nextRequest, nextAction, tapeWriter, versions, fids)
    }

    /** The invariant over all runs, and a collision-free digest. */
    ghost predicate Valid()
      reads this
    {
      G.InOrder(env, Abs())
    }

    constructor (env: Env, status: bytes, evaluation: bytes, work: bytes, ui: map<UiDoc, bytes>)
      ensures Abs() == Initial(env, status, evaluation, work, ui) && this.env == env
      ensures K.CollisionFree(env.hashing) ==> Valid()
    {
      I.InitialInv(env, status, evaluation, work, ui);
      this.env := env;
      var root := env.hashing.node([]);
      logs, requests, actions, versions, fids := map[], map[], map[], map[], map[];
      knowledge, tapeRoot := K.Store(map[], map[root := []], map[TAPE_ROOT_NAME := root]), root;
      this.status, this.evaluation, this.work, this.ui := status, evaluation, work, ui;
      nextRequest, nextAction, tapeWriter := 0, 0, None;
    }

    method AppendLog(stream: StreamId, data: bytes)
      modifies this`logs
      ensures Abs() == Append(old(Abs()), stream, data)
    {
      logs := logs[stream := (if stream in logs then logs[stream] else []) + data];
    }

    method Announce(scope: StreamId, record: Record, aggregate: Record)
      modifies this`logs
      ensures Abs() == Notify(old(Abs()), scope, record, aggregate)
    {
      hide Render;
      AppendLog(scope, Render(record));
      AppendLog(Events, Render(aggregate));
    }

    method BumpNode(node: Node)
      modifies this`versions
      ensures Abs() == Bump(env, old(Abs()), node)
    {
      hide NodeKey;
      var path := env.pathOf(NodeKey(node));
      versions := versions[path := ((if path in versions then versions[path] else 0) + 1) % U32_LIMIT];
    }

    method Walk(fid: Fid, newfid: Fid, names: seq<string>) returns (r: Result<Qid>)
      modifies this`fids
      ensures (Abs(), r) == WalkStep(env, old(Abs()), fid, newfid, names)
      ensures old(Valid()) ==> Valid()
    {
      hide Child, QidOf, G.InOrder;
      G.WalkStays(env, Abs(), fid, newfid, names);
      if newfid == ROOT || newfid in fids { return Err(BadRequest); }
      var node := Root;
      if fid != ROOT {
        if fid !in fids { return Err(NotFound); }
        node := fids[fid].node;
      }
      var i := 0;
      while i < |names|
        invariant 0 <= i <= |names| && Abs() == old(Abs())
        invariant Descend(old(Abs()), NodeOf(old(Abs()), fid).value, names) == Descend(old(Abs()), node, names[i..])
      {
        var next := Child(Abs(), node, names[i]);
        if next.Err? { return Err(next.error); }
        node := next.value;
        assert names[i..][1..] == names[i + 1..];
        i := i + 1;
      }
      r := Ok(QidOf(env, Abs(), node));
      fids := fids[newfid := At(node)];
    }

    method AllocateRequest() returns (id: string)
      modifies this`requests, this`nextRequest, this`logs, this`versions
      ensures Abs() == CloneRequest(env, old(Abs())) && id == RequestId(old(nextRequest))
    {
      hide Render, PathOf, RequestId;
      id := RequestId(nextRequest);
      nextRequest := (nextRequest + 1) % U64_LIMIT;
      requests := requests[id := NEW_REQUEST];
      Announce(RequestsEvents, Created(id), RequestChanged(id));
      BumpNode(RequestsDir);
    }

    method AllocateAction() returns (id: string)
      modifies this`actions, this`nextAction, this`logs, this`versions
      ensures Abs() == CloneAction(env, old(Abs())) && id == ActionId(old(nextAction))
    {
      hide Render, PathOf, ActionId, NewAction;
      id := ActionId(nextAction);
      nextAction := (nextAction + 1) % U64_LIMIT;
      actions := actions[id := NewAction()];
      Announce(ActionsEvents, Created(id), ActionChanged(id));
      BumpNode(ActionsDir);
    }

    /** Why an open is refused, if it is. */
    method RefuseOpen(fid: Fid, mode: OpenMode) returns (e: Option<ErrorCode>)
      ensures e == OpenRefusal(Abs(), fid, mode)
    {
      hide IsWritable;
      if fid in fids && fids[fid].mode.Some? { return Some(BadRequest); }
      if fid !in fids { return Some(NotFound); }
      var node := fids[fid].node;
      if Writes(mode) && !IsWritable(node) { return Some(NoAccess); }
      if node == Log(Tape) && Writes(mode) && tapeWriter.Some? { return Some(NoAccess); }
      if (node.RequestsClone? || node.ActionsClone?) && mode != ReadWrite { return Some(NoAccess); }
      e := None;
    }

    method Open(fid: Fid, mode: OpenMode) returns (r: Result<Qid>)
      modifies this
      ensures (Abs(), r) == OpenStep(env, old(Abs()), fid, mode)
      ensures old(Valid()) ==> (Valid() <==> !I.Wraps(env, old(Abs()), Op.Open(fid, mode)))
      ensures old(Valid()) ==> G.Opens(env, old(Abs()), fid, mode, Abs(), r)
      ensures old(Valid()) && r.Ok? && fid in old(fids) && old(fids)[fid].node.RequestsClone? ==>
                fid in fids && fids[fid].cloneId.Some? && fids[fid].cloneId.value in requests.Keys - old(requests).Keys
      ensures old(Valid()) && r.Ok? && fid in old(fids) && old(fids)[fid].node.ActionsClone? ==>
                fid in fids && fids[fid].cloneId.Some? && fids[fid].cloneId.value in actions.Keys - old(actions).Keys
    {
      hide OpenStep, G.InOrder, G.Opens, I.Wraps;
      OpenProperties(env, Abs(), fid, mode);
      r := PerformOpen(fid, mode);
    }

    method PerformOpen(fid: Fid, mode: OpenMode) returns (r: Result<Qid>)
      modifies this
      ensures (Abs(), r) == OpenStep(env, old(Abs()), fid, mode)
    {
      hide PathOf, QidOf, Computed, CloneRequest, CloneAction, RequestId, ActionId, IsWritable;
      if fid == ROOT {
        return if Writes(mode) then Err(NoAccess) else Ok(Qid(Dir, 0, PathOf(env, Root)));
      }
      var refusal := RefuseOpen(fid, mode);
      if refusal.Some? { return Err(refusal.value); }
      var node := fids[fid].node;
      var cloneId: Option<string> := None;
      if node.RequestsClone? {
        var id := AllocateRequest();
        cloneId := Some(id);
      } else if node.ActionsClone? {
        var id := AllocateAction();
        cloneId := Some(id);
      }
      assert (Abs(), cloneId) == Allocate(env, old(Abs()), node);
      assert fids == old(fids) && tapeWriter == old(tapeWriter) by { G.AllocateHandles(env, old(Abs()), node); }
      var buf := fids[fid].writeBuf;
      if mode == ReadWrite && IsDocument(node) {
        var base := Computed(env, Abs(), node);
        if base.Err? { return Err(base.error); }
        buf := base.value;
      }
      fids := fids[fid := fids[fid].(mode := Some(mode), cloneId := cloneId, writeBuf := buf)];
      if node == Log(Tape) && Writes(mode) { tapeWriter := Some(fid); }
      r := Ok(QidOf(env, Abs(), node));
    }

    /** The second locked section of a read of a finite file. */
    method ReadDocument(fid: Fid, node: Node, offset: nat, count: nat) returns (r: Result<bytes>)
      modifies this`fids
      ensures (Abs(), r) == DocumentReadStep(env, old(Abs()), fid, node, offset, count)
      ensures old(Valid()) ==> Valid()
    {
      hide DocumentReadStep, G.InOrder;
      G.ReadStays(env, Abs(), fid, node, offset, count);
      r := PerformRead(fid, node, offset, count);
    }

    method PerformRead(fid: Fid, node: Node, offset: nat, count: nat) returns (r: Result<bytes>)
      modifies this`fids
      ensures (Abs(), r) == DocumentReadStep(env, old(Abs()), fid, node, offset, count)
    {
      hide Computed, Slice;
      if fid == ROOT {
        var shown := Computed(env, Abs(), node);
        return if shown.Ok? then Ok(Slice(shown.value, offset, count)) else Err(shown.error);
      }
      if offset == 0 || (fid in fids && fids[fid].snapshot.None?) {
        var shown := Computed(env, Abs(), node);
        if shown.Err? { return Err(shown.error); }
        if fid !in fids { return Err(NotFound); }
        fids := fids[fid := fids[fid].(snapshot := Some(shown.value))];
      }
      if fid !in fids { return Err(NotFound); }
      r := Ok(Slice(fids[fid].snapshot.value, offset, count));
    }

    method CancelRequest(id: string) returns (r: Result<()>)
      modifies this`requests, this`versions, this`logs
      ensures (Abs(), r) == CancelStep(env, old(Abs()), id)
    {
      hide Render, PathOf;
      if id !in requests { return Err(NotFound); }
      if requests[id].status == Pending {
        requests := requests[id := requests[id].(status := Cancelled)];
        BumpNode(RequestField(id, ReqStatus));
        Announce(RequestsEvents, FieldChanged(id, "status"), RequestChanged(id));
      }
      r := Ok(());
    }

    method AppendTapeBlock(data: bytes) returns (r: Result<()>)
      modifies this`knowledge, this`tapeRoot, this`versions
      ensures match AppendTape(env, old(Abs()), data)
              case Ok(s) => Abs() == s && r == Ok(())
              case Err(e) => Abs() == old(Abs()) && r == Err(e)
    {
      hide PathOf, K.ForkAppend;
      match K.ForkAppend(env.hashing, knowledge, TAPE_ROOT_NAME, tapeRoot, data)
      case Bad(f) => r := Err(MapFault(f));
      case Good((st, root)) =>
        knowledge, tapeRoot := st, root;
        BumpNode(CurrentCheckpoint);
        r := Ok(());
    }

    method WriteStream(stream: StreamId, data: bytes) returns (r: Result<nat>)
      modifies this`knowledge, this`tapeRoot, this`versions, this`logs
      ensures (Abs(), r) == StreamWriteStep(env, old(Abs()), stream, data)
    {
      hide Render, PathOf, AppendTape;
      var record := Bytes(match stream case Output => "output" case UiEvents => "ui:events" case _ => "tape", |data|);
      if stream == Tape {
        var stored := AppendTapeBlock(data);
        if stored.Err? { return Err(stored.error); }
      }
      AppendLog(stream, data);
      if stream == Output { AppendLog(IoEvents, Render(record)); }
      AppendLog(Events, Render(record));
      r := Ok(|data| % U32_LIMIT);
    }

    method Write(fid: Fid, offset: nat, data: bytes) returns (r: Result<nat>)
      modifies this
      ensures (Abs(), r) == WriteStep(env, old(Abs()), fid, offset, data)
      ensures old(Valid()) ==>
                Valid() && G.TapeAgreed(env, Abs()) && G.Takes(env, old(Abs()), fid, offset, data, Abs(), r)
      ensures old(Valid()) ==>
                LogOf(Abs(), Tape) == LogOf(old(Abs()), Tape) + if old(tapeWriter) == Some(fid) then data else []
    {
      WriteProperties(env, Abs(), fid, offset, data);
      hide G.InOrder, G.TapeAgreed, G.Takes, LogOf, Utf8.Encode, Splice, CommandStep, StreamWriteStep,
        CancelStep, PathOf;
      if fid != ROOT && fid !in fids { return Err(NotFound); }
      if fid == ROOT || fids[fid].mode.None? || !Writes(fids[fid].mode.value) { return Err(NoAccess); }
      var node := fids[fid].node;
      if node.Log? && node.stream in {Output, Tape, UiEvents} {
        r := WriteStream(node.stream, data);
      } else if node.MachineCtl? {
        r := WriteCommand(data);
      } else if node.RequestField? && node.rpart == ReqCtl {
        if offset != 0 || data != Utf8.Encode("cancel") { return Err(BadRequest); }
        var done := CancelRequest(node.id);
        r := if done.Err? then Err(done.error) else Ok(|data| % U32_LIMIT);
      } else if node == Log(Input) || IsDocument(node) {
        var h := fids[fid];
        if offset + |data| >= U64_LIMIT { return Err(BadRequest); }
        if offset + |data| > DocumentLimit(node) {
          if node == Ui(Skills) { fids := fids[fid := h.(writeBuf := env.unknownSkills, wrote := true)]; }
          return Err(BadRequest);
        }
        fids := fids[fid := h.(writeBuf := Splice(h.writeBuf, offset, data), wrote := true)];
        r := Ok(|data| % U32_LIMIT);
      } else {
        r := Err(Unsupported);
      }
    }

    method WriteCommand(data: bytes) returns (r: Result<nat>)
      modifies this`logs
      ensures (Abs(), r) == CommandStep(old(Abs()), data)
    {
      hide Utf8.Encode, Utf8.IsText;
      if data == [] || |data| > MAX_COMMAND_BYTES || 10 in data || 13 in data || 0 in data || !Utf8.IsText(data) {
        return Err(BadRequest);
      }
      AppendLog(Events, Utf8.Encode("ctl:") + data + [10]);
      r := Ok(|data| % U32_LIMIT);
    }

    method CommitRequestField(id: string, p: RequestPart, value: bytes) returns (r: Result<()>)
      modifies this`requests, this`versions, this`logs
      ensures (Abs(), r) == CommitRequest(env, old(Abs()), id, p, value)
      ensures r.Ok? <==> Utf8.IsText(value) && (id in old(requests) ==> old(requests)[id].status == Pending)
      ensures r.Err? ==> Abs() == old(Abs())
      ensures r.Ok? && id in old(requests) ==>
                && id in requests && requests == old(requests)[id := requests[id]]
                && (p != ReqStatus && p != ReqCtl ==> G.OneFieldSet(old(requests)[id], requests[id], p, value))
    {
      hide Render, PathOf, Utf8.IsText, RequestPartName, SetRequestPart, G.OneFieldSet;
      if p != ReqStatus && p != ReqCtl && id in requests { G.FieldSet(requests[id], p, value); }
      if !Utf8.IsText(value) { return Err(BadRequest); }
      if id in requests {
        if IsTerminal(requests[id].status) { return Err(NoAccess); }
        requests := requests[id := SetRequestPart(requests[id], p, value)];
      }
      BumpNode(RequestField(id, p));
      if p == ReqResponse { BumpNode(RequestField(id, ReqStatus)); }
      Announce(RequestsEvents, FieldChanged(id, RequestPartName(p)), RequestChanged(id));
      r := Ok(());
    }

    method CommitActionField(id: string, p: ActionPart, value: bytes) returns (r: Result<()>)
      modifies this`actions, this`knowledge, this`versions, this`logs
      ensures (Abs(), r) == CommitAction(env, old(Abs()), id, p, value)
      ensures r.Ok? <==>
                Utf8.IsText(value) && (id in old(actions) && p == ActOutput ==> G.Uncommitted(old(actions)[id]))
      ensures r.Err? ==> Abs() == old(Abs())
      ensures r.Ok? && id in old(actions) ==>
                && id in actions && actions == old(actions)[id := actions[id]]
                && G.OnePartSet(old(actions)[id], actions[id], p, value)
    {
      hide Render, PathOf, Utf8.IsText, ActionPartName, K.StoreBytes, OutputRootName, G.OnePartSet;
      if id in actions { G.PartSet(actions[id], p, value); }
      if !Utf8.IsText(value) { return Err(BadRequest); }
      var root: Option<K.Hash> := None;
      if p == ActOutput {
        if id in actions && (actions[id].outputRoot.Some? || actions[id].expired) { return Err(NoAccess); }
        var (st, hash) := K.StoreBytes(env.hashing, knowledge, OutputRootName(id), value);
        knowledge, root := st, Some(hash);
      }
      if id in actions { actions := actions[id := SetActionPart(actions[id], p, value, root)]; }
      BumpNode(ActionField(id, p));
      Announce(ActionsEvents, FieldChanged(id, ActionPartName(p)), ActionChanged(id));
      r := Ok(());
    }

    method CommitUiDocument(doc: UiDoc, value: bytes) returns (r: Result<()>)
      modifies this`ui, this`versions, this`logs
      ensures (Abs(), r) == CommitUi(env, old(Abs()), doc, value)
      ensures r.Ok? <==> doc == Skills || Utf8.IsText(value)
      ensures ui == if r.Ok? then old(ui)[doc := G.Stored(env, Ui(doc), value)] else old(ui)
    {
      hide Render, PathOf, Utf8.IsText;
      var shown := value;
      if doc == Skills {
        shown := env.skills(if Utf8.IsText(value) then value else []);
      } else if !Utf8.IsText(value) {
        return Err(BadRequest);
      }
      ui := ui[doc := shown];
      BumpNode(Ui(doc));
      AppendLog(Events, Render(UiChanged(doc)));
      r := Ok(());
    }

    method CommitInputMessage(payload: bytes)
      modifies this`logs
      ensures Abs() == CommitInput(old(Abs()), payload)
    {
      hide Render, Frame;
      AppendLog(Input, Frame(payload));
      Announce(IoEvents, Bytes("input", |payload|), Bytes("input", |payload|));
    }

    method Release(fid: Fid)
      modifies this`fids, this`tapeWriter
      ensures Abs() == Released(old(Abs()), fid)
    {
      fids := fids - {fid};
      if tapeWriter == Some(fid) { tapeWriter := None; }
    }

    method Clunk(fid: Fid) returns (r: Result<()>)
      modifies this
      ensures (Abs(), r) == ClunkStep(env, old(Abs()), fid)
      ensures old(Valid()) ==> Valid() && fids == old(fids) - {fid}
      ensures old(Valid()) ==> G.Releases(old(Abs()), fid, Abs(), r) && G.Commits(env, old(Abs()), fid, Abs(), r)
      ensures old(Valid()) && fid in old(fids) && old(fids)[fid].wrote && old(fids)[fid].node == Log(Input) ==>
                r.Ok? && LogOf(Abs(), Input) == LogOf(old(Abs()), Input) + Frame(old(fids)[fid].writeBuf)
    {
      ClunkProperties(env, Abs(), fid);
      hide G.InOrder, G.Commits, G.Releases, LogOf, Frame, CommitInput, CommitRequest, CommitAction, CommitUi, Released;
      if fid == ROOT { return Ok(()); }
      if fid !in fids { return Err(NotFound); }
      var h := fids[fid];
      Release(fid);
      r := Ok(());
      if !h.wrote { return; }
      match h.node
      case Log(stream) =>
        if stream == Input { CommitInputMessage(h.writeBuf); }
      case RequestField(id, p) => r := CommitRequestField(id, p, h.writeBuf);
      case ActionField(id, p) => r := CommitActionField(id, p, h.writeBuf);
      case Ui(doc) => r := CommitUiDocument(doc, h.writeBuf);
      case _ =>
    }

    method ExpireActionOutput(id: string, cause: string, journal: Option<ErrorCode>) returns (r: Result<()>)
      modifies this`knowledge, this`actions, this`versions
      ensures (Abs(), r) == ExpireStep(env, old(Abs()), id, cause, journal)
      ensures old(Valid()) ==> Valid() && G.TapeAgreed(env, Abs()) && LogOf(Abs(), Tape) == LogOf(old(Abs()), Tape)
      ensures old(Valid()) ==> forall k :: k in actions && k != id ==>
                Computed(env, Abs(), ActionField(k, ActOutput)) == Computed(env, old(Abs()), ActionField(k, ActOutput))
    {
      ExpireProperties(env, Abs(), id, cause, journal);
      hide G.InOrder, G.TapeAgreed, Computed, LogOf, PathOf, ExpiryRecord, OutputRootName, K.Collected;
      if id !in actions { return Err(NotFound); }
      if journal.Some? { return Err(journal.value); }
      var unbound := K.Unbind(knowledge, OutputRootName(id));
      if unbound.Bad? { return Err(MapFault(unbound.fault)); }
      knowledge := K.CollectGarbage(unbound.value);
      actions := actions[id := actions[id].(outputRoot := None, expired := true, output := ExpiryRecord(id, cause))];
      BumpNode(ActionField(id, ActOutput));
      r := Ok(());
    }

    method RestorePendingRequest(id: string, kind: bytes, prompt: bytes, options: bytes) returns (r: Result<()>)
      modifies this`requests, this`nextRequest, this`versions, this`logs
      ensures (Abs(), r) == RestoreStep(env, old(Abs()), id, kind, prompt, options)
      ensures old(Valid()) ==> Valid() && P.Restores(env, old(Abs()), id, kind, prompt, options, Abs(), r)
    {
      hide Bump, Notify, RestoredIndex, G.InOrder, P.Restores;
      if Valid() { P.RestoreGives(env, Abs(), id, kind, prompt, options); }
      var index := RestoredIndex(id);
      if index.None? || kind == [] || |kind| > MAX_DOC_BYTES || |prompt| > MAX_DOC_BYTES || |options| > MAX_DOC_BYTES {
        return Err(BadRequest);
      }
      if id in requests {
        var known := requests[id];
        return if known.kind != kind || known.prompt != prompt || known.options != options then Err(BadRequest)
          else Ok(());
      }
      if nextRequest < index.value + 1 { nextRequest := index.value + 1; }
      requests := requests[id := Request(kind, prompt, options, Pending, [])];
      BumpNode(RequestsDir);
      Announce(RequestsEvents, Created(id), RequestChanged(id));
      r := Ok(());
    }

    method PublishEvaluation(isObject: bool, document: bytes) returns (r: Result<()>)
      modifies this`evaluation, this`versions, this`logs
      ensures (Abs(), r) == PublishEvaluationStep(env, old(Abs()), isObject, document)
      ensures old(Valid()) ==> Valid() && P.Published(env, old(Abs()), Node.Evaluation, isObject, document, Abs(), r)
    {
      hide PathOf, Render, G.InOrder, P.Published;
      if Valid() { P.EvaluationPublished(env, Abs(), isObject, document); }
      if !isObject || |document| > MAX_DOC_BYTES { return Err(BadRequest); }
      if evaluation != document {
        evaluation := document;
        BumpNode(Evaluation);
        AppendLog(Events, Render(EvaluationChanged));
      }
      r := Ok(());
    }

    method PublishWork(isObject: bool, document: bytes) returns (r: Result<()>)
      modifies this`work, this`versions, this`logs
      ensures (Abs(), r) == PublishWorkStep(env, old(Abs()), isObject, document)
      ensures old(Valid()) ==> Valid() && P.Published(env, old(Abs()), Node.Work, isObject, document, Abs(), r)
    {
      hide PathOf, Render, G.InOrder, P.Published;
      if Valid() { P.WorkPublished(env, Abs(), isObject, document); }
      if !isObject || |document| > MAX_DOC_BYTES { return Err(BadRequest); }
      if work != document {
        work := document;
        BumpNode(Work);
        AppendLog(Events, Render(WorkChanged));
      }
      r := Ok(());
    }
  }

  /** What `Open` promises, of its step. */
  lemma OpenProperties(env: Env, s: State, fid: Fid, mode: OpenMode)
    ensures var (s1, r) := OpenStep(env, s, fid, mode);
            G.InOrder(env, s) ==>
              && (G.InOrder(env, s1) <==> !I.Wraps(env, s, Op.Open(fid, mode)))
              && G.Opens(env, s, fid, mode, s1, r)
              && (r.Ok? && fid in s.fids && s.fids[fid].node.RequestsClone? ==>
                    && fid in s1.fids && s1.fids[fid].cloneId.Some?
                    && s1.fids[fid].cloneId.value in s1.requests.Keys - s.requests.Keys)
              && (r.Ok? && fid in s.fids && s.fids[fid].node.ActionsClone? ==>
                    && fid in s1.fids && s1.fids[fid].cloneId.Some?
                    && s1.fids[fid].cloneId.value in s1.actions.Keys - s.actions.Keys)
  {
    hide OpenStep, G.Opens, I.Inv, I.Wraps;
    if G.InOrder(env, s) {
      G.OpenGives(env, s, fid, mode);
      if OpenStep(env, s, fid, mode).1.Ok? && fid in s.fids &&
        (s.fids[fid].node.RequestsClone? || s.fids[fid].node.ActionsClone?) {
        G.CloneGives(env, s, fid, mode);
      }
    }
  }

  /** What `Write` promises, of its step. */
  lemma WriteProperties(env: Env, s: State, fid: Fid, offset: nat, data: bytes)
    ensures var (s1, r) := WriteStep(env, s, fid, offset, data);
            G.InOrder(env, s) ==>
              && G.InOrder(env, s1) && G.TapeAgreed(env, s1) && G.Takes(env, s, fid, offset, data, s1, r)
              && LogOf(s1, Tape) == LogOf(s, Tape) + if s.tapeWriter == Some(fid) then data else []
  {
    hide WriteStep, G.InOrder, G.TapeAgreed, G.Takes, LogOf;
    if G.InOrder(env, s) { G.WriteGives(env, s, fid, offset, data); }
  }

  /** What `ExpireActionOutput` promises, of its step. */
  lemma ExpireProperties(env: Env, s: State, id: string, cause: string, journal: Option<ErrorCode>)
    ensures var s1 := ExpireStep(env, s, id, cause, journal).0;
            G.InOrder(env, s) ==>
              && G.InOrder(env, s1) && G.TapeAgreed(env, s1) && LogOf(s1, Tape) == LogOf(s, Tape)
              && forall k :: k in s1.actions && k != id ==>
                   Computed(env, s1, ActionField(k, ActOutput)) == Computed(env, s, ActionField(k, ActOutput))
  {
    hide ExpireStep, G.InOrder, G.TapeAgreed, LogOf, Computed;
    if G.InOrder(env, s) { G.ExpireGives(env, s, id, cause, journal); }
  }

  /** What `Clunk` promises, of its step. */
  lemma ClunkProperties(env: Env, s: State, fid: Fid)
    ensures var (s1, r) := ClunkStep(env, s, fid);
            G.InOrder(env, s) ==>
              && G.InOrder(env, s1) && s1.fids == s.fids - {fid}
              && G.Releases(s, fid, s1, r) && G.Commits(env, s, fid, s1, r)
              && (fid in s.fids && s.fids[fid].wrote && s.fids[fid].node == Log(Input) ==>
                    r.Ok? && LogOf(s1, Input) == LogOf(s, Input) + Frame(s.fids[fid].writeBuf))
  {
    hide ClunkStep, G.InOrder, G.Commits, G.Releases, LogOf, Frame;
    if G.InOrder(env, s) {
      G.ClunkGives(env, s, fid);
      if fid in s.fids && s.fids[fid].wrote && s.fids[fid].node == Log(Input) { G.InputClunk(env, s, fid); }
    }
  }
}
