/** What one request gives its caller, on a server in order. */
module AgentFsGuarantees {
  import opened Bytes
  import Utf8
  import K = Knowledge
  import opened Frames
  import opened AgentFs
  import opened AgentFsCore
  import opened AgentFsInvariant
  import opened AgentFsRuns
  import V = AgentFsVersions

  /** The invariant of the file server, under a collision-free digest. */
  ghost predicate InOrder(env: Env, s: State) { K.CollisionFree(env.hashing) && Inv(env, s) }

  lemma OnlyOpenWraps(env: Env, s: State, op: Op)
    ensures !op.Open? ==> !Wraps(env, s, op)
  {
    hide Utf8.IsText, Utf8.Encode, RestoredIndex, OutputRootName;
  }

  lemma StaysInOrder(env: Env, s: State, op: Op)
    requires !op.Open?
    ensures InOrder(env, s) ==> InOrder(env, Apply(env, s, op))
  {
    hide Apply, Inv, Wraps;
    OnlyOpenWraps(env, s, op);
    if InOrder(env, s) { StepKeeps(env, s, op); }
  }

  lemma WalkStays(env: Env, s: State, fid: Fid, newfid: Fid, names: seq<string>)
    ensures InOrder(env, s) ==> InOrder(env, WalkStep(env, s, fid, newfid, names).0)
  {
    hide WalkStep, InOrder;
    StaysInOrder(env, s, Op.Walk(fid, newfid, names));
  }

  lemma ReadStays(env: Env, s: State, fid: Fid, node: Node, offset: nat, count: nat)
    ensures InOrder(env, s) ==> InOrder(env, DocumentReadStep(env, s, fid, node, offset, count).0)
  {
    hide DocumentReadStep, InOrder;
    StaysInOrder(env, s, Op.ReadDocument(fid, node, offset, count));
  }

  lemma RestoreStays(env: Env, s: State, id: string, kind: bytes, prompt: bytes, options: bytes)
    ensures InOrder(env, s) ==> InOrder(env, RestoreStep(env, s, id, kind, prompt, options).0)
  {
    hide RestoreStep, InOrder;
    StaysInOrder(env, s, Op.Restore(id, kind, prompt, options));
  }

  lemma PublishStays(env: Env, s: State, isObject: bool, document: bytes)
    ensures InOrder(env, s) ==> InOrder(env, PublishEvaluationStep(env, s, isObject, document).0)
    ensures InOrder(env, s) ==> InOrder(env, PublishWorkStep(env, s, isObject, document).0)
  {
    hide PublishEvaluationStep, PublishWorkStep, InOrder, Apply;
    PublishApplies(env, s, isObject, document);
    StaysInOrder(env, s, Op.PublishEvaluation(isObject, document));
    StaysInOrder(env, s, Op.PublishWork(isObject, document));
  }

  lemma PublishApplies(env: Env, s: State, isObject: bool, document: bytes)
    ensures Apply(env, s, Op.PublishEvaluation(isObject, document)) ==
            PublishEvaluationStep(env, s, isObject, document).0
    ensures Apply(env, s, Op.PublishWork(isObject, document)) == PublishWorkStep(env, s, isObject, document).0
  {
    hide PublishEvaluationStep, PublishWorkStep;
  }

  /** The tape stream and the bound checkpoint hold the same bytes. */
  ghost predicate TapeAgreed(env: Env, s: State) { MaterializedTape(env, s) == Ok(LogOf(s, Tape)) }

  lemma InOrderTape(env: Env, s: State)
    ensures InOrder(env, s) ==> TapeAgreed(env, s)
  {
    hide Inv, MaterializedTape, LogOf;
    if InOrder(env, s) { InvTape(env, s); }
  }

  /** The checkpoint file names, on one line, a stored root that materializes to the tape. */
  lemma CheckpointGives(env: Env, s: State) returns (root: K.Hash)
    requires InOrder(env, s)
    ensures Computed(env, s, CurrentCheckpoint) == Ok(Utf8.Encode(root + "\n"))
    ensures K.Materialize(env.hashing, s.knowledge, root, {}) == K.Good(LogOf(s, Tape))
  {
    hide Utf8.Encode, K.Materialize, EvidenceAgrees, RequestIdsBelow, ActionIdsBelow, RequestsSettled, K.Sound;
    root := s.tapeRoot;
  }

  /** A new server shows the documents it was made with, and every stream is empty. */
  lemma NewServerShows(env: Env, status: bytes, evaluation: bytes, work: bytes, ui: map<UiDoc, bytes>)
    ensures var s := Initial(env, status, evaluation, work, ui);
            && Computed(env, s, Status) == Ok(status) && Computed(env, s, Evaluation) == Ok(evaluation)
            && Computed(env, s, Work) == Ok(work)
            && (forall doc :: doc in ui ==> Computed(env, s, Ui(doc)) == Ok(ui[doc]))
            && (forall t :: LogOf(s, t) == []) && s.requests == map[] && s.actions == map[] && s.fids == map[]
  {
  }

  // --------------------------------------------------------------------- open

  predicate IsClone(node: Node) { node == RequestsClone || node == ActionsClone }

  /**
   * Any file but a clone can be read; a file that takes writes can be written, except the status of a
   * request and a tape that is held; a clone is opened both ways.
   */
  ghost predicate MayOpen(s: State, node: Node, mode: OpenMode)
  {
    match mode
    case Read => !IsClone(node)
    case Write | ReadWrite =>
      if IsClone(node) then mode == ReadWrite
      else
        && (IsBuffered(node) || IsImmediate(node)) && (node.RequestField? ==> node.rpart != ReqStatus)
        && (node == Log(Tape) ==> forall f :: !HoldsTape(s.fids, f))
  }

  /**
   * An unopened handle is opened iff its file allows the mode, and then only that handle changes: a
   * document opened both ways starts from what it shows, and only a clone hands out an id. A
   * refusal changes nothing.
   */
  ghost predicate Opens(env: Env, s: State, fid: Fid, mode: OpenMode, s1: State, r: Result<Qid>)
  {
    && (fid == ROOT ==> s1 == s && r == if mode == Read then Ok(Qid(Dir, 0, env.pathOf("/"))) else Err(NoAccess))
    && (fid != ROOT && fid !in s.fids ==> s1 == s && r == Err(NotFound))
    && (fid in s.fids ==>
          var h := s.fids[fid];
          if h.mode.Some? then s1 == s && r == Err(BadRequest)
          else if !MayOpen(s, h.node, mode) then s1 == s && r == Err(NoAccess)
          else
            && r == Ok(QidOf(env, s1, h.node)) && fid in s1.fids
            && var h1 := s1.fids[fid];
            && s1.fids == s.fids[fid := h.(mode := Some(mode), cloneId := h1.cloneId, writeBuf := h1.writeBuf)]
            && (h1.cloneId.Some? <==> IsClone(h.node))
            && (if mode == ReadWrite && IsDocument(h.node) then Computed(env, s, h.node) == Ok(h1.writeBuf)
                else h1.writeBuf == h.writeBuf))
  }

  /** Opening keeps the server in order iff no counter wraps. */
  lemma OpenGives(env: Env, s: State, fid: Fid, mode: OpenMode)
    requires InOrder(env, s)
    ensures var (s1, r) := OpenStep(env, s, fid, mode);
            && (InOrder(env, s1) <==> !Wraps(env, s, Open(fid, mode)))
            && Opens(env, s, fid, mode, s1, r)
  {
    hide Inv, Wraps, OpenStep, Opens;
    assert Apply(env, s, Open(fid, mode)) == OpenStep(env, s, fid, mode).0 by { OpenApplies(env, s, fid, mode); }
    StepKeeps(env, s, Open(fid, mode));
    OpenOpens(env, s, fid, mode);
  }

  lemma OpenOpens(env: Env, s: State, fid: Fid, mode: OpenMode)
    requires InOrder(env, s)
    ensures var (s1, r) := OpenStep(env, s, fid, mode); Opens(env, s, fid, mode, s1, r)
  {
    hide Inv, Allocate, OpenRefusal, MayOpen, Computed, QidOf;
    InvRoot(env, s);
    OpenAllowed(env, s, fid, mode);
    if fid in s.fids {
      AllocateKeeps(env, s, s.fids[fid].node);
      if IsDocument(s.fids[fid].node) { DocumentExists(env, s, fid); }
    }
  }

  lemma OpenAllowed(env: Env, s: State, fid: Fid, mode: OpenMode)
    requires Inv(env, s)
    ensures OpenRefusal(s, fid, mode) ==
            if fid !in s.fids then Some(NotFound)
            else if s.fids[fid].mode.Some? then Some(BadRequest)
            else if !MayOpen(s, s.fids[fid].node, mode) then Some(NoAccess) else None
  {
    hide CoreInv, HandlesKnown, InputBounded;
  }

  lemma AllocateKeeps(env: Env, s: State, node: Node)
    ensures var (s1, id) := Allocate(env, s, node);
            && s1.fids == s.fids && (id.Some? <==> IsClone(node)) && (!IsClone(node) ==> s1 == s)
  {
    hide CloneRequest, CloneAction;
    AllocateHandles(env, s, node);
  }

  lemma AllocateHandles(env: Env, s: State, node: Node)
    ensures Allocate(env, s, node).0.fids == s.fids && Allocate(env, s, node).0.tapeWriter == s.tapeWriter
  {
    hide PathOf, Render, RequestId, ActionId, NewAction;
  }

  /** The document a handle is bound to can be read. */
  lemma DocumentExists(env: Env, s: State, fid: Fid)
    requires InOrder(env, s) && fid in s.fids && IsDocument(s.fids[fid].node)
    ensures Computed(env, s, s.fids[fid].node).Ok?
  {
    hide CoreInv, Computed;
    assert HandlesKnown(s.fids, s.requests.Keys, s.actions.Keys);
    if s.fids[fid].node.ActionField? { OutputReads(env, s, s.fids[fid].node.id); }
    DocumentComputes(env, s, s.fids[fid].node);
  }

  lemma DocumentComputes(env: Env, s: State, node: Node)
    requires IsDocument(node) && Known(s.requests.Keys, s.actions.Keys, node)
    ensures !(node.ActionField? && node.apart == ActOutput) ==> Computed(env, s, node).Ok?
  {
    hide Utf8.Encode, Listing, K.ReadRoot, OutputRootName, RequestBytes;
  }

  lemma OpenApplies(env: Env, s: State, fid: Fid, mode: OpenMode)
    ensures Apply(env, s, Open(fid, mode)) == OpenStep(env, s, fid, mode).0
  {
    hide OpenStep;
  }

  /**
   * A clone hands out an id that was not in use. The id is what reading the clone gives, and the
   * name under which the new entry, pending or running, is found.
   */
  lemma CloneGives(env: Env, s: State, fid: Fid, mode: OpenMode)
    requires InOrder(env, s) && OpenStep(env, s, fid, mode).1.Ok?
    requires fid in s.fids && IsClone(s.fids[fid].node)
    ensures var s1 := OpenStep(env, s, fid, mode).0;
            && fid in s1.fids && s1.fids[fid].cloneId.Some?
            && var id := s1.fids[fid].cloneId.value;
            && BeginRead(env, s1, fid) == Ok(CloneId(id))
            && if s.fids[fid].node == RequestsClone
               then id !in s.requests && s1.requests == s.requests[id := NEW_REQUEST] && s1.actions == s.actions
                    && Child(s1, RequestsDir, id) == Ok(RequestEntry(id))
                    && Computed(env, s1, RequestField(id, ReqStatus)) == Ok(Utf8.Encode("pending"))
               else id !in s.actions && s1.actions == s.actions[id := NewAction()] && s1.requests == s.requests
                    && Child(s1, ActionsDir, id) == Ok(ActionEntry(id))
                    && Computed(env, s1, ActionField(id, ActStatus)) == Ok(Utf8.Encode("running"))
  {
    hide InOrder, OpenStep, BeginRead, Child, Computed, NewAction, Utf8.Encode;
    CloneAllocates(env, s, fid, mode);
    var s1 := OpenStep(env, s, fid, mode).0;
    assert fid != ROOT && s.fids[fid].node != Log(Tape) by { InOrderRoot(env, s); }
    CloneReads(env, s1, fid);
    if s.fids[fid].node == RequestsClone {
      RequestFound(env, s1, s.nextRequest);
    } else {
      ActionFound(env, s1, s.nextAction);
    }
  }

  lemma InOrderRoot(env: Env, s: State)
    requires InOrder(env, s)
    ensures ROOT !in s.fids
  {
    InvRoot(env, s);
  }

  lemma CloneAllocates(env: Env, s: State, fid: Fid, mode: OpenMode)
    requires InOrder(env, s) && OpenStep(env, s, fid, mode).1.Ok?
    requires fid in s.fids && IsClone(s.fids[fid].node)
    ensures var s1 := OpenStep(env, s, fid, mode).0;
            && fid in s1.fids && s1.fids[fid].node == s.fids[fid].node && s1.fids[fid].mode == Some(ReadWrite)
            && if s.fids[fid].node == RequestsClone
               then var id := RequestId(s.nextRequest);
                    && s1.fids[fid].cloneId == Some(id) && id !in s.requests
                    && s1.requests == s.requests[id := NEW_REQUEST] && s1.actions == s.actions
               else var id := ActionId(s.nextAction);
                    && s1.fids[fid].cloneId == Some(id) && id !in s.actions
                    && s1.actions == s.actions[id := NewAction()] && s1.requests == s.requests
  {
    hide Render, PathOf, RequestId, ActionId, NewAction, QidOf, Computed, CoreInv;
    InvIds(env, s);
    assert ROOT !in s.fids by { InvRoot(env, s); }
  }

  lemma CloneReads(env: Env, s: State, fid: Fid)
    requires fid != ROOT && fid in s.fids && IsClone(s.fids[fid].node)
    requires s.fids[fid].mode == Some(ReadWrite) && s.fids[fid].cloneId.Some?
    ensures BeginRead(env, s, fid) == Ok(CloneId(s.fids[fid].cloneId.value))
  {
    hide MaterializedTape;
  }

  lemma RequestFound(env: Env, s: State, n: nat)
    requires RequestId(n) in s.requests && s.requests[RequestId(n)] == NEW_REQUEST
    ensures var id := RequestId(n);
            && Child(s, RequestsDir, id) == Ok(RequestEntry(id))
            && Computed(env, s, RequestField(id, ReqStatus)) == Ok(Utf8.Encode("pending"))
  {
    hide Utf8.Encode, Listing, K.ReadRoot, OutputRootName, Decimal;
    var clone, events := "clone", "events";
    assert RequestId(n)[0] == 'r' && clone[0] == 'c' && events[0] == 'e';
  }

  lemma ActionFound(env: Env, s: State, n: nat)
    requires ActionId(n) in s.actions && s.actions[ActionId(n)] == NewAction()
    ensures var id := ActionId(n);
            && Child(s, ActionsDir, id) == Ok(ActionEntry(id))
            && Computed(env, s, ActionField(id, ActStatus)) == Ok(Utf8.Encode("running"))
  {
    hide Utf8.Encode, Listing, K.ReadRoot, OutputRootName, Decimal;
    var clone, events, help := "clone", "events", "help";
    assert ActionId(n)[0] == 'a' && clone[0] == 'c' && events[0] == 'e' && help[0] == 'h';
  }

  lemma InvIds(env: Env, s: State)
    requires Inv(env, s)
    ensures RequestIdsBelow(s.requests.Keys, s.nextRequest) && ActionIdsBelow(s.actions.Keys, s.nextAction)
  {
    hide TapeAgrees, EvidenceAgrees, RequestsSettled, RequestIdsBelow, ActionIdsBelow;
  }

  lemma InvRoot(env: Env, s: State)
    requires Inv(env, s)
    ensures ROOT !in s.fids
  {
    hide CoreInv;
  }

  // --------------------------------------------------------------------- read

  /**
   * A handle open for reading serves its clone id, the tape, its stream or its file; a tape read sees
   * the whole tape. Any other handle serves nothing.
   */
  lemma ReadGives(env: Env, s: State, fid: Fid)
    requires InOrder(env, s)
    ensures BeginRead(env, s, fid) ==
            if fid == ROOT then Ok(FromDocument(Root))
            else if fid !in s.fids then Err(NotFound)
            else
              var h := s.fids[fid];
              if h.mode != Some(Read) && h.mode != Some(ReadWrite) then Err(NoAccess)
              else if h.cloneId.Some? then Ok(CloneId(h.cloneId.value))
              else match h.node
                case Log(stream) => Ok(if stream == Tape then FromTape(LogOf(s, Tape)) else FromLog(stream))
                case _ => Ok(FromDocument(h.node))
  {
    hide InOrder, MaterializedTape, LogOf;
    InOrderTape(env, s);
  }

  // -------------------------------------------------------------------- write

  /** A handle open for writing. */
  predicate CanWrite(s: State, fid: Fid)
  {
    fid in s.fids && (s.fids[fid].mode == Some(OpenMode.Write) || s.fids[fid].mode == Some(ReadWrite))
  }

  /** A handle whose writes are kept until its release: the input, a document or a field. */
  predicate Buffers(s: State, fid: Fid) { CanWrite(s, fid) && IsBuffered(s.fids[fid].node) }

  predicate IsBuffered(node: Node)
  {
    node == Log(Input) || node.Ui? || node.ActionField? || (node.RequestField? && node.rpart != ReqCtl)
  }

  /** A stream or control file: a write takes effect at once. */
  predicate IsImmediate(node: Node)
  {
    node in {Log(Output), Log(UiEvents), Log(Tape), MachineCtl} || (node.RequestField? && node.rpart == ReqCtl)
  }

  /** One mebibyte, or sixteen for the output of an action. */
  function Capacity(node: Node): nat
  {
    if node.ActionField? && node.apart == ActOutput then 16_777_216 else 1_048_576
  }

  /** `after` is `before` with `data` at `offset`; a gap holds zero bytes. */
  predicate Overlaid(before: bytes, after: bytes, offset: nat, data: bytes)
  {
    && |after| == (if |before| < offset + |data| then offset + |data| else |before|)
    && (forall i :: 0 <= i < |data| ==> after[offset + i] == data[i])
    && forall i :: 0 <= i < |after| && !(offset <= i < offset + |data|) ==>
         after[i] == if i < |before| then before[i] else 0
  }

  /**
   * A buffered write is taken iff it ends within the capacity, and then shows in this handle's buffer
   * alone. A refused one changes nothing, except that oversized skills are replaced by unknown ones
   * when the end of the write fits 64 bits.
   */
  ghost predicate Buffered(env: Env, s: State, fid: Fid, offset: nat, data: bytes, s1: State, r: Result<nat>)
    requires fid in s.fids
  {
    var h := s.fids[fid];
    var forgets := r.Err? && h.node == Ui(Skills) && offset + |data| < U64_LIMIT;
    && r == (if offset + |data| <= Capacity(h.node) then Ok(|data|) else Err(BadRequest))
    && fid in s1.fids
    && (r.Ok? ==> Overlaid(h.writeBuf, s1.fids[fid].writeBuf, offset, data))
    && (forgets ==> s1.fids[fid].writeBuf == env.unknownSkills)
    && s1 == if r.Ok? || forgets
             then s.(fids := s.fids[fid := h.(writeBuf := s1.fids[fid].writeBuf, wrote := true)])
             else s
  }

  function StreamLabel(stream: StreamId): string
  {
    match stream case Output => "output" case UiEvents => "ui:events" case _ => "tape"
  }

  function StreamLine(stream: StreamId, data: bytes): bytes
  {
    Utf8.Encode(StreamLabel(stream) + ":" + Decimal(|data|) + "\n")
  }

  /** What stream `t` gains from a write of `data` to `stream`. */
  function StreamGrowth(stream: StreamId, data: bytes, t: StreamId): bytes
  {
    if t == stream then data
    else if t == Events || (t == IoEvents && stream == Output) then StreamLine(stream, data) else []
  }

  /** A stream write appends, and its size is announced; tape and checkpoint grow together. */
  ghost predicate Streamed(env: Env, s: State, stream: StreamId, data: bytes, s1: State, r: Result<nat>)
  {
    && r == Ok(|data| % U32_LIMIT) && s1.fids == s.fids && s1.tapeWriter == s.tapeWriter
    && (forall t :: LogOf(s1, t) == LogOf(s, t) + StreamGrowth(stream, data, t))
    && forall n :: Computed(env, s, n).Ok? && n != CurrentCheckpoint ==> Computed(env, s1, n) == Computed(env, s, n)
  }

  /** A command is one line of text of at most 64 KiB; it reaches the event stream and nothing else. */
  ghost predicate Commanded(s: State, data: bytes, s1: State, r: Result<nat>)
  {
    && r == (if 0 < |data| <= 65_536 && Utf8.IsText(data) && 0 !in data && 10 !in data && 13 !in data
             then Ok(|data|) else Err(BadRequest))
    && s1 == s.(logs := s1.logs)
    && forall t :: LogOf(s1, t) == LogOf(s, t) + if r.Ok? && t == Events then Utf8.Encode("ctl:") + data + [10] else []
  }

  /** The one control word settles a pending request as cancelled; a decided one stays as it is. */
  ghost predicate Controlled(env: Env, s: State, id: string, offset: nat, data: bytes, s1: State, r: Result<nat>)
  {
    && r == (if offset == 0 && data == Utf8.Encode("cancel") then Ok(6) else Err(BadRequest))
    && s1.fids == s.fids && (r.Err? ==> s1 == s)
    && forall n :: Computed(env, s, n).Ok? ==>
         Computed(env, s1, n) ==
         if r.Ok? && n == RequestField(id, ReqStatus) && Computed(env, s, n) == Ok(Utf8.Encode("pending"))
         then Ok(Utf8.Encode("cancelled")) else Computed(env, s, n)
  }

  /** What a write does, by the handle it comes through. */
  ghost predicate Takes(env: Env, s: State, fid: Fid, offset: nat, data: bytes, s1: State, r: Result<nat>)
  {
    if fid != ROOT && fid !in s.fids then s1 == s && r == Err(NotFound)
    else if !CanWrite(s, fid) then s1 == s && r == Err(NoAccess)
    else if Buffers(s, fid) then Buffered(env, s, fid, offset, data, s1, r)
    else if !IsImmediate(s.fids[fid].node) then s1 == s && r == Err(Unsupported)
    else match s.fids[fid].node
      case Log(stream) => Streamed(env, s, stream, data, s1, r)
      case RequestField(id, _) => Controlled(env, s, id, offset, data, s1, r)
      case _ => Commanded(s, data, s1, r)
  }

  /**
   * A write does what its handle says. It reaches the tape iff it comes through the lease, and then
   * stream and checkpoint both grow by it.
   */
  lemma WriteGives(env: Env, s: State, fid: Fid, offset: nat, data: bytes)
    requires InOrder(env, s)
    ensures var (s1, r) := WriteStep(env, s, fid, offset, data);
            && InOrder(env, s1) && TapeAgreed(env, s1) && Takes(env, s, fid, offset, data, s1, r)
            && LogOf(s1, Tape) == LogOf(s, Tape) + (if s.tapeWriter == Some(fid) then data else [])
  {
    hide Inv, WriteStep, LogOf, MaterializedTape, Takes;
    var op := Op.Write(fid, offset, data);
    assert Apply(env, s, op) == WriteStep(env, s, fid, offset, data).0;
    StaysInOrder(env, s, op);
    StepTape(env, s, op);
    InOrderTape(env, Apply(env, s, op));
    WriteTakes(env, s, fid, offset, data);
  }

  lemma WriteTakes(env: Env, s: State, fid: Fid, offset: nat, data: bytes)
    requires InOrder(env, s)
    ensures var (s1, r) := WriteStep(env, s, fid, offset, data); Takes(env, s, fid, offset, data, s1, r)
  {
    hide Inv, StreamWriteStep, CommandStep, ControlStep, BufferStep, Buffered, Streamed, Commanded, Controlled;
    InvRoot(env, s);
    if CanWrite(s, fid) {
      var node := s.fids[fid].node;
      if Buffers(s, fid) {
        BufferTakes(env, s, fid, offset, data);
      } else if node.Log? && node.stream in {Output, Tape, UiEvents} {
        StreamTakes(env, s, fid, offset, data);
      } else if node.MachineCtl? {
        CommandTakes(s, data);
      } else if node.RequestField? {
        ControlTakes(env, s, fid, offset, data);
      }
    }
  }

  lemma BufferTakes(env: Env, s: State, fid: Fid, offset: nat, data: bytes)
    requires fid in s.fids
    ensures var (s1, r) := BufferStep(env, s, fid, offset, data); Buffered(env, s, fid, offset, data, s1, r)
  {
    var h := s.fids[fid];
    if offset + |data| <= Capacity(h.node) {
      var after := Splice(h.writeBuf, offset, data);
      forall i | 0 <= i < |data| ensures after[offset + i] == data[i] {
        assert after[offset..offset + |data|][i] == after[offset + i];
      }
    }
  }

  lemma CommandTakes(s: State, data: bytes)
    ensures var (s1, r) := CommandStep(s, data); Commanded(s, data, s1, r)
  {
    hide Utf8.Encode, Utf8.IsText;
  }

  /** A change of streams alone changes no file. */
  lemma LogsHidden(env: Env, s: State, s1: State, n: Node)
    requires s1 == s.(logs := s1.logs)
    ensures Computed(env, s1, n) == Computed(env, s, n)
  {
    hide Utf8.Encode, Listing, K.ReadRoot, OutputRootName, RequestBytes;
  }

  lemma StreamTakes(env: Env, s: State, fid: Fid, offset: nat, data: bytes)
    requires InOrder(env, s) && CanWrite(s, fid)
    requires s.fids[fid].node.Log? && s.fids[fid].node.stream in {Output, Tape, UiEvents}
    ensures var (s1, r) := StreamWriteStep(env, s, s.fids[fid].node.stream, data);
            Streamed(env, s, s.fids[fid].node.stream, data, s1, r)
  {
    hide Inv, StreamWriteStep, Computed, LogOf, Utf8.Encode;
    var stream, op := s.fids[fid].node.stream, Op.Write(fid, offset, data);
    var (s1, r) := StreamWriteStep(env, s, stream, data);
    StreamLogs(env, s, stream, data);
    InvRoot(env, s);
    forall n | Computed(env, s, n).Ok? && n != CurrentCheckpoint ensures Computed(env, s1, n) == Computed(env, s, n) {
      if stream == Tape {
        assert Apply(env, s, op) == s1;
        OthersShow(env, s, op, n);
      } else {
        LogsHidden(env, s, s1, n);
      }
    }
  }

  lemma StreamLogs(env: Env, s: State, stream: StreamId, data: bytes)
    requires InOrder(env, s) && stream in {Output, Tape, UiEvents}
    ensures var (s1, r) := StreamWriteStep(env, s, stream, data);
            && r == Ok(|data| % U32_LIMIT) && s1.fids == s.fids && s1.tapeWriter == s.tapeWriter
            && (stream != Tape ==> s1 == s.(logs := s1.logs))
            && forall t :: LogOf(s1, t) == LogOf(s, t) + StreamGrowth(stream, data, t)
  {
    hide Inv, AppendTape, Bump, Render;
    TapeTaken(env, s, data);
    assert Render(Bytes(StreamLabel(stream), |data|)) == StreamLine(stream, data) by { LineRendered(stream, data); }
  }

  lemma LineRendered(stream: StreamId, data: bytes)
    ensures Render(Bytes(StreamLabel(stream), |data|)) == StreamLine(stream, data)
  {
    hide Utf8.Encode;
  }

  lemma TapeTaken(env: Env, s: State, data: bytes)
    requires InOrder(env, s)
    ensures var r := AppendTape(env, s, data);
            r.Ok? && r.value.logs == s.logs && r.value.fids == s.fids && r.value.tapeWriter == s.tapeWriter
  {
    hide PathOf, EvidenceAgrees, RequestIdsBelow, ActionIdsBelow, RequestsSettled, K.ReadRoot, K.Sound;
    K.ForkAppendSound(env.hashing, s.knowledge, TAPE_ROOT_NAME, data);
  }

  lemma ControlTakes(env: Env, s: State, fid: Fid, offset: nat, data: bytes)
    requires InOrder(env, s) && CanWrite(s, fid) && s.fids[fid].node.RequestField? && s.fids[fid].node.rpart == ReqCtl
    ensures var (s1, r) := ControlStep(env, s, s.fids[fid].node.id, offset, data);
            Controlled(env, s, s.fids[fid].node.id, offset, data, s1, r)
  {
    hide Inv, ControlStep, Computed, Utf8.Encode, V.Touched, Apply, Wraps;
    var id, op := s.fids[fid].node.id, Op.Write(fid, offset, data);
    var (s1, r) := ControlStep(env, s, id, offset, data);
    InvRoot(env, s);
    CancelTaken(env, s, fid, offset, data);
    forall n | Computed(env, s, n).Ok?
      ensures Computed(env, s1, n) ==
              if r.Ok? && n == RequestField(id, ReqStatus) && Computed(env, s, n) == Ok(Utf8.Encode("pending"))
              then Ok(Utf8.Encode("cancelled")) else Computed(env, s, n)
    {
      if n == RequestField(id, ReqStatus) {
        StatusShown(env, s, id);
        StatusShown(env, s1, id);
      } else {
        ControlApplies(env, s, fid, offset, data);
        OthersShow(env, s, op, n);
      }
    }
  }

  lemma ControlApplies(env: Env, s: State, fid: Fid, offset: nat, data: bytes)
    requires CanWrite(s, fid) && s.fids[fid].node.RequestField? && s.fids[fid].node.rpart == ReqCtl && fid != ROOT
    ensures var op, id := Op.Write(fid, offset, data), s.fids[fid].node.id;
            && Apply(env, s, op) == ControlStep(env, s, id, offset, data).0 && !Wraps(env, s, op)
            && forall n :: n in V.Touched(CoreOf(s), EffectOf(env, s, op)) ==> n == RequestField(id, ReqStatus)
  {
    hide ControlStep, Utf8.Encode;
  }

  /** The status file tells exactly whether a request is pending. */
  lemma StatusShown(env: Env, s: State, id: string)
    requires id in s.requests
    ensures var st, shown := s.requests[id].status, Computed(env, s, RequestField(id, ReqStatus));
            && (st == Pending <==> shown == Ok(Utf8.Encode("pending")))
            && (st == Cancelled <==> shown == Ok(Utf8.Encode("cancelled")))
            && (st == Answered <==> shown == Ok(Utf8.Encode("answered")))
            && shown == Ok(Utf8.Encode(StatusText(st)))
  {
    hide Utf8.Encode;
    var st := s.requests[id].status;
    StatusesDiffer(st, Pending);
    StatusesDiffer(st, Cancelled);
    StatusesDiffer(st, Answered);
  }

  lemma StatusesDiffer(a: RequestStatus, b: RequestStatus)
    ensures Utf8.Encode(StatusText(a)) == Utf8.Encode(StatusText(b)) ==> a == b
  {
    hide Utf8.Encode, Utf8.Decode, Utf8.IsText;
    Utf8.DecodeEncode(StatusText(a));
    Utf8.DecodeEncode(StatusText(b));
  }

  lemma CancelTaken(env: Env, s: State, fid: Fid, offset: nat, data: bytes)
    requires InOrder(env, s) && CanWrite(s, fid) && s.fids[fid].node.RequestField? && s.fids[fid].node.rpart == ReqCtl
    ensures var id := s.fids[fid].node.id;
            var (s1, r) := ControlStep(env, s, id, offset, data);
            && r == (if offset == 0 && data == Utf8.Encode("cancel") then Ok(6) else Err(BadRequest))
            && s1.fids == s.fids && (r.Err? ==> s1 == s) && id in s.requests && id in s1.requests
            && (s1.requests[id].status ==
                if r.Ok? && s.requests[id].status == Pending then Cancelled else s.requests[id].status)
  {
    hide CoreInv, PathOf, Render, Utf8.Encode;
    assert HandlesKnown(s.fids, s.requests.Keys, s.actions.Keys);
    CancelWord();
  }

  lemma CancelWord()
    ensures |Utf8.Encode("cancel")| == 6
  {
  }

  // -------------------------------------------------------------------- clunk

  /** A file that a release commits: a UI document, a field of an action, or a settable field of a request. */
  predicate IsField(node: Node)
  {
    node.Ui? || node.ActionField? || (node.RequestField? && node.rpart in {ReqKind, ReqPrompt, ReqOptions, ReqResponse})
  }

  predicate CommitsField(s: State, fid: Fid) { fid in s.fids && s.fids[fid].wrote && IsField(s.fids[fid].node) }

  /** No output was ever stored. */
  predicate Uncommitted(a: Action) { a.outputRoot.None? && !a.expired }

  /** Text, and for a request that it is undecided, for an output that there is none yet; skills take anything. */
  predicate Accepts(s: State, node: Node, value: bytes)
  {
    match node
    case RequestField(id, _) => Utf8.IsText(value) && id in s.requests && s.requests[id].status == Pending
    case ActionField(id, p) => Utf8.IsText(value) && id in s.actions && (p == ActOutput ==> Uncommitted(s.actions[id]))
    case Ui(doc) => doc == Skills || Utf8.IsText(value)
    case _ => false
  }

  /** What a file keeps of a committed value: skills are validated, anything else is kept as it is. */
  function Stored(env: Env, node: Node, value: bytes): bytes
  {
    if node == Ui(Skills) then env.skills(if Utf8.IsText(value) then value else []) else value
  }

  /** What file `n` shows once `value` is committed to file `node`. */
  ghost function Shows(env: Env, s: State, node: Node, value: bytes, n: Node): Result<bytes>
  {
    if n == node then Ok(Stored(env, node, value))
    else if node.RequestField? && node.rpart == ReqResponse && n == RequestField(node.id, ReqStatus)
    then Ok(Utf8.Encode("answered"))
    else Computed(env, s, n)
  }

  /**
   * A written field is committed iff it is accepted; it then shows what was written, an answered
   * request shows that it is, and every other file shows what it did before. A refusal changes no file.
   */
  ghost predicate Commits(env: Env, s: State, fid: Fid, s1: State, r: Result<()>)
  {
    CommitsField(s, fid) ==>
      var node, value := s.fids[fid].node, s.fids[fid].writeBuf;
      && (r.Ok? <==> Accepts(s, node, value))
      && forall n :: Computed(env, s, n).Ok? ==>
           Computed(env, s1, n) == if r.Ok? then Shows(env, s, node, value, n) else Computed(env, s, n)
  }

  /** A release of nothing bound is refused; one of a handle never written only drops it and its lease. */
  ghost predicate Releases(s: State, fid: Fid, s1: State, r: Result<()>)
  {
    && (fid == ROOT ==> s1 == s && r == Ok(()))
    && (fid != ROOT && fid !in s.fids ==> s1 == s && r == Err(NotFound))
    && (fid in s.fids && !s.fids[fid].wrote ==>
          var lease := if s.tapeWriter == Some(fid) then None else s.tapeWriter;
          r == Ok(()) && s1 == s.(fids := s.fids - {fid}, tapeWriter := lease))
  }

  /** Releasing a handle frees it and commits what was written: an input message is framed, a field stored. */
  lemma ClunkGives(env: Env, s: State, fid: Fid)
    requires InOrder(env, s)
    ensures var (s1, r) := ClunkStep(env, s, fid);
            && Releases(s, fid, s1, r)
            && InOrder(env, s1) && s1.fids == s.fids - {fid} && Commits(env, s, fid, s1, r)
            && LogOf(s1, Input) == LogOf(s, Input) + Framed(CommittedInput(s, Clunk(fid)))
  {
    hide Inv, ClunkStep, LogOf, Framed, CommittedInput, Commits, Releases;
    ClunkApplies(env, s, fid);
    ClunkReleases(env, s, fid);
    StepInput(env, s, Op.Clunk(fid));
    ClunkDrops(env, s, fid);
    FieldCommits(env, s, fid);
  }

  lemma ClunkReleases(env: Env, s: State, fid: Fid)
    requires Inv(env, s)
    ensures var (s1, r) := ClunkStep(env, s, fid); Releases(s, fid, s1, r)
  {
    hide Inv, CommitInput, CommitRequest, CommitAction, CommitUi;
    InvRoot(env, s);
  }

  /** Releasing a written input handle frames what it holds. */
  lemma InputClunk(env: Env, s: State, fid: Fid)
    requires InOrder(env, s) && fid in s.fids && s.fids[fid].wrote && s.fids[fid].node == Log(Input)
    ensures var (s1, r) := ClunkStep(env, s, fid);
            r.Ok? && LogOf(s1, Input) == LogOf(s, Input) + Frame(s.fids[fid].writeBuf)
  {
    hide InOrder, Frame, Commits, CommitInput;
    ClunkGives(env, s, fid);
    var buf := s.fids[fid].writeBuf;
    assert CommittedInput(s, Op.Clunk(fid)) == [buf];
    assert Framed([buf]) == Frame(buf) by { FramedOne(buf); }
  }

  lemma ClunkApplies(env: Env, s: State, fid: Fid)
    requires InOrder(env, s)
    ensures Apply(env, s, Op.Clunk(fid)) == ClunkStep(env, s, fid).0 && InOrder(env, ClunkStep(env, s, fid).0)
  {
    hide ClunkStep, InOrder;
    StaysInOrder(env, s, Op.Clunk(fid));
  }

  lemma ClunkDrops(env: Env, s: State, fid: Fid)
    requires Inv(env, s)
    ensures ClunkStep(env, s, fid).0.fids == s.fids - {fid}
  {
    hide Inv, CommitInput, CommitRequest, CommitAction, CommitUi;
    InvRoot(env, s);
    var change := ClunkHandles(env, s, fid);
  }

  lemma FieldCommits(env: Env, s: State, fid: Fid)
    requires InOrder(env, s)
    ensures var (s1, r) := ClunkStep(env, s, fid); Commits(env, s, fid, s1, r)
  {
    hide Inv, ClunkStep, Computed, Accepts, Shows;
    if CommitsField(s, fid) {
      var (s1, r) := ClunkStep(env, s, fid);
      var node, value := s.fids[fid].node, s.fids[fid].writeBuf;
      FieldAccepted(env, s, fid);
      forall n | Computed(env, s, n).Ok?
        ensures Computed(env, s1, n) == if r.Ok? then Shows(env, s, node, value, n) else Computed(env, s, n)
      {
        FieldShows(env, s, fid, n);
      }
    }
  }

  lemma FieldAccepted(env: Env, s: State, fid: Fid)
    requires InOrder(env, s) && CommitsField(s, fid)
    ensures ClunkStep(env, s, fid).1.Ok? <==> Accepts(s, s.fids[fid].node, s.fids[fid].writeBuf)
  {
    hide CoreInv, Render, PathOf, Utf8.IsText, K.StoreBytes, OutputRootName, SetRequestPart, SetActionPart;
    assert HandlesKnown(s.fids, s.requests.Keys, s.actions.Keys);
    assert ROOT !in s.fids;
  }

  /** What the release of a written field touches. */
  lemma FieldTouches(env: Env, s: State, fid: Fid)
    requires InOrder(env, s) && CommitsField(s, fid)
    ensures var node, t := s.fids[fid].node, V.Touched(CoreOf(s), EffectOf(env, s, Clunk(fid)));
            if !Accepts(s, node, s.fids[fid].writeBuf) then t == []
            else if node.RequestField? && node.rpart == ReqResponse then t == [node, RequestField(node.id, ReqStatus)]
            else t == [node]
  {
    hide CoreInv, Utf8.IsText, OutputRootName;
    assert HandlesKnown(s.fids, s.requests.Keys, s.actions.Keys);
    assert ROOT !in s.fids;
  }

  lemma FieldShows(env: Env, s: State, fid: Fid, n: Node)
    requires InOrder(env, s) && CommitsField(s, fid) && Computed(env, s, n).Ok?
    ensures var (s1, r) := ClunkStep(env, s, fid);
            Computed(env, s1, n) ==
            if r.Ok? then Shows(env, s, s.fids[fid].node, s.fids[fid].writeBuf, n) else Computed(env, s, n)
  {
    hide InOrder, Wraps, ClunkStep, Computed, Accepts, V.Touched, Utf8.Encode, Apply, Shows, CommitsField, EffectOf;
    FieldAccepted(env, s, fid);
    ClunkApplies(env, s, fid);
    OnlyOpenWraps(env, s, Clunk(fid));
    if n in V.Touched(CoreOf(s), EffectOf(env, s, Clunk(fid))) {
      FieldTouches(env, s, fid);
      WrittenShows(env, s, fid, n);
    } else {
      OthersShow(env, s, Clunk(fid), n);
      if ClunkStep(env, s, fid).1.Ok? { UntouchedShows(env, s, fid, n); }
    }
  }

  lemma UntouchedShows(env: Env, s: State, fid: Fid, n: Node)
    requires InOrder(env, s) && CommitsField(s, fid) && Accepts(s, s.fids[fid].node, s.fids[fid].writeBuf)
    requires n !in V.Touched(CoreOf(s), EffectOf(env, s, Clunk(fid)))
    ensures Shows(env, s, s.fids[fid].node, s.fids[fid].writeBuf, n) == Computed(env, s, n)
  {
    hide InOrder, Accepts, V.Touched, EffectOf, Utf8.Encode, Computed;
    FieldTouches(env, s, fid);
  }

  lemma WrittenShows(env: Env, s: State, fid: Fid, n: Node)
    requires InOrder(env, s) && CommitsField(s, fid) && ClunkStep(env, s, fid).1.Ok?
    requires var node := s.fids[fid].node;
             n == node || (node.RequestField? && node.rpart == ReqResponse && n == RequestField(node.id, ReqStatus))
    ensures Computed(env, ClunkStep(env, s, fid).0, n) == Shows(env, s, s.fids[fid].node, s.fids[fid].writeBuf, n)
  {
    hide InOrder, ClunkStep, Computed, Utf8.Encode;
    var node := s.fids[fid].node;
    if node.RequestField? {
      RequestShows(env, s, fid, n);
    } else if node.ActionField? && node.apart == ActOutput {
      OutputShows(env, s, fid);
    } else {
      DocumentShows(env, s, fid);
    }
  }

  /** A file that a request does not touch shows the same afterwards. */
  lemma OthersShow(env: Env, s: State, op: Op, n: Node)
    requires InOrder(env, s) && !Wraps(env, s, op)
    requires n !in V.Touched(CoreOf(s), EffectOf(env, s, op)) && Computed(env, s, n).Ok?
    ensures Computed(env, Apply(env, s, op), n) == Computed(env, s, n)
  {
    hide Inv, Apply, Computed, EffectOf, V.Touched, Effected, Allowed;
    StepRefines(env, s, op);
    InvCore(env, s);
    V.ShownIsComputed(env, s, n);
    V.ShownIsComputed(env, Apply(env, s, op), n);
    V.EffectShows(env, CoreOf(s), EffectOf(env, s, op), n);
  }

  lemma RequestShows(env: Env, s: State, fid: Fid, n: Node)
    requires InOrder(env, s) && CommitsField(s, fid) && ClunkStep(env, s, fid).1.Ok? && s.fids[fid].node.RequestField?
    requires var node := s.fids[fid].node;
             n == node || (node.rpart == ReqResponse && n == RequestField(node.id, ReqStatus))
    ensures Computed(env, ClunkStep(env, s, fid).0, n) == Shows(env, s, s.fids[fid].node, s.fids[fid].writeBuf, n)
  {
    hide Inv, ClunkStep, SetRequestPart, Utf8.Encode, Listing, K.ReadRoot, OutputRootName;
    RequestStored(env, s, fid);
    var node, value := s.fids[fid].node, s.fids[fid].writeBuf;
    FieldSet(s.requests[node.id], node.rpart, value);
  }

  /** Field `p` now reads `value`; a response also settles the status; every other field reads as before. */
  predicate OneFieldSet(before: Request, after: Request, p: RequestPart, value: bytes)
  {
    forall q :: RequestBytes(after, q) ==
      if q == p then value
      else if q == ReqStatus && p == ReqResponse then Utf8.Encode("answered") else RequestBytes(before, q)
  }

  lemma FieldSet(r: Request, p: RequestPart, value: bytes)
    requires p in {ReqKind, ReqPrompt, ReqOptions, ReqResponse}
    ensures OneFieldSet(r, SetRequestPart(r, p, value), p, value)
  {
    hide Utf8.Encode;
  }

  /** Field `p` of the action now reads `value`, and every other field reads as before. */
  predicate OnePartSet(before: Action, after: Action, p: ActionPart, value: bytes)
  {
    forall q :: ActionBytes(after, q) == if q == p then value else ActionBytes(before, q)
  }

  lemma PartSet(a: Action, p: ActionPart, value: bytes)
    ensures forall root :: OnePartSet(a, SetActionPart(a, p, value, root), p, value)
  {
  }

  lemma RequestStored(env: Env, s: State, fid: Fid)
    requires Inv(env, s) && CommitsField(s, fid) && ClunkStep(env, s, fid).1.Ok? && s.fids[fid].node.RequestField?
    ensures var s1, node := ClunkStep(env, s, fid).0, s.fids[fid].node;
            && node.id in s.requests && node.id in s1.requests
            && s1.requests[node.id] == SetRequestPart(s.requests[node.id], node.rpart, s.fids[fid].writeBuf)
  {
    hide CoreInv, Render, PathOf, Utf8.IsText, RequestPartName, SetRequestPart;
    assert HandlesKnown(s.fids, s.requests.Keys, s.actions.Keys);
    assert ROOT !in s.fids;
  }

  lemma DocumentShows(env: Env, s: State, fid: Fid)
    requires InOrder(env, s) && CommitsField(s, fid) && ClunkStep(env, s, fid).1.Ok?
    requires var node := s.fids[fid].node; node.Ui? || (node.ActionField? && node.apart != ActOutput)
    ensures var node := s.fids[fid].node;
            Computed(env, ClunkStep(env, s, fid).0, node) == Shows(env, s, node, s.fids[fid].writeBuf, node)
  {
    hide CoreInv, Render, PathOf, Utf8.IsText, K.StoreBytes, OutputRootName, ActionPartName, Listing, Utf8.Encode;
    assert HandlesKnown(s.fids, s.requests.Keys, s.actions.Keys);
    assert ROOT !in s.fids;
  }

  lemma OutputShows(env: Env, s: State, fid: Fid)
    requires InOrder(env, s) && CommitsField(s, fid) && ClunkStep(env, s, fid).1.Ok?
    requires s.fids[fid].node.ActionField? && s.fids[fid].node.apart == ActOutput
    ensures Computed(env, ClunkStep(env, s, fid).0, s.fids[fid].node) == Ok(s.fids[fid].writeBuf)
  {
    hide Inv, ClunkStep, Computed;
    ClunkApplies(env, s, fid);
    OutputStored(env, s, fid);
    OutputReads(env, ClunkStep(env, s, fid).0, s.fids[fid].node.id);
  }

  lemma OutputStored(env: Env, s: State, fid: Fid)
    requires Inv(env, s) && CommitsField(s, fid) && ClunkStep(env, s, fid).1.Ok?
    requires s.fids[fid].node.ActionField? && s.fids[fid].node.apart == ActOutput
    ensures var s1, id := ClunkStep(env, s, fid).0, s.fids[fid].node.id;
            id in s1.actions && s1.actions[id].output == s.fids[fid].writeBuf
  {
    hide CoreInv, Render, PathOf, Utf8.IsText, K.StoreBytes, OutputRootName;
    assert HandlesKnown(s.fids, s.requests.Keys, s.actions.Keys);
    assert ROOT !in s.fids;
  }

  // ------------------------------------------------------------------- expiry

  /** An expiry that succeeds touches one output; every other output and the tape read as before. */
  lemma ExpireGives(env: Env, s: State, id: string, cause: string, journal: Option<ErrorCode>)
    requires InOrder(env, s)
    ensures var (s1, r) := ExpireStep(env, s, id, cause, journal);
            && InOrder(env, s1) && TapeAgreed(env, s1) && LogOf(s1, Tape) == LogOf(s, Tape)
            && (r.Ok? <==> id in s.actions && s.actions[id].outputRoot.Some? && journal.None?)
            && s1.actions.Keys == s.actions.Keys
            && forall k :: k in s.actions ==>
                 Computed(env, s1, ActionField(k, ActOutput)) ==
                 if r.Ok? && k == id then Ok(ExpiryRecord(id, cause)) else Computed(env, s, ActionField(k, ActOutput))
  {
    hide Inv, ExpireStep, LogOf, Computed, MaterializedTape, ExpiryRecord;
    var op := Op.Expire(id, cause, journal);
    var s1 := ExpireStep(env, s, id, cause, journal).0;
    assert Apply(env, s, op) == s1;
    StaysInOrder(env, s, op);
    InOrderTape(env, s1);
    InOrderTape(env, s);
    ExpiryIsolated(env, s, id, cause, journal);
  }
}
