/**
 * The agent file server as a value: its tree of nodes, its state, and what each request of the
 * file protocol does to that state. Every request runs under the one state lock, so each
 * function here is one atomic step; `AgentFsServer` carries the steps out in place.
 */
module AgentFs {
  import opened Bytes
  import Utf8
  import K = Knowledge
  import opened Frames

  type Fid = nat
  const ROOT: Fid := 0

  const MAX_DOC_BYTES: nat := 0x10_0000
  const MAX_ACTION_OUTPUT_BYTES: nat := 0x100_0000
  const MAX_COMMAND_BYTES: nat := 64 * 1024
  const TAPE_ROOT_NAME := "machine/tape"

  datatype ErrorCode = NotFound | NoAccess | BadRequest | Unsupported | NotDirectory | Io
  datatype Result<+T> = Ok(value: T) | Err(error: ErrorCode)
  datatype OpenMode = Read | Write | ReadWrite
  datatype FileKind = Dir | File | Stream | Clone
  datatype Qid = Qid(kind: FileKind, version: nat, path: nat)

  predicate Writes(mode: OpenMode) { mode != Read }

  datatype StreamId = Input | Output | Events | IoEvents | RequestsEvents | ActionsEvents | UiEvents | Tape
  datatype UiDoc = Skills | Models | Queue | Activity | Plan | Thinking | Notice
  datatype RequestPart = ReqKind | ReqPrompt | ReqOptions | ReqStatus | ReqCtl | ReqResponse
  datatype ActionPart = ActName | ActStatus | ActOutput | ActResult | ActApproval | ActProcess

  datatype Node =
    | Root | IoDir | MachineDir | UiDir | CheckpointsDir | ContextDir | ChildrenDir
    | RequestsDir | ActionsDir
    | Log(stream: StreamId)
    | Status | Evaluation | Work | MachineCtl | ActionsHelp | CurrentCheckpoint
    | Ui(doc: UiDoc)
    | RequestsClone | ActionsClone
    | RequestEntry(id: string) | RequestField(id: string, rpart: RequestPart)
    | ActionEntry(id: string) | ActionField(id: string, apart: ActionPart)

  datatype RequestStatus = Pending | Answered | Closed | Cancelled
  datatype Request = Request(kind: bytes, prompt: bytes, options: bytes, status: RequestStatus, response: bytes)

  datatype Action = Action(
    name: bytes, status: bytes, output: bytes, outputRoot: Option<K.Hash>, expired: bool,
    result: bytes, approval: bytes, process: bytes)

  /** One client handle: where it is bound, how it was opened, and what it has buffered. */
  datatype Handle = Handle(
    node: Node, mode: Option<OpenMode>, cloneId: Option<string>,
    writeBuf: bytes, snapshot: Option<bytes>, wrote: bool)

  datatype State = State(
    logs: map<StreamId, bytes>,
    knowledge: K.Store, tapeRoot: K.Hash,
    requests: map<string, Request>, actions: map<string, Action>,
    status: bytes, evaluation: bytes, work: bytes, ui: map<UiDoc, bytes>,
    nextRequest: nat, nextAction: nat,
    tapeWriter: Option<Fid>,
    versions: map<nat, nat>,
    fids: map<Fid, Handle>)

  /**
   * What the server takes from outside: SHA-256, the qid hash, key order, skill validation, and
   * the fixed texts (the record of unknown skills, listings of fixed directories, help files).
   */
  datatype Env = Env(
    hashing: K.Hashing,
    pathOf: string -> nat,
    keyOrder: set<string> -> seq<string>,
    skills: bytes -> bytes,
    unknownSkills: bytes,
    fixed: Node -> bytes)

  function At(node: Node): Handle { Handle(node, None, None, [], None, false) }

  function LogOf(s: State, stream: StreamId): bytes
  {
    if stream in s.logs then s.logs[stream] else []
  }

  function Append(s: State, stream: StreamId, data: bytes): State
  {
    s.(logs := s.logs[stream := LogOf(s, stream) + data])
  }

  /** One line of an event stream. */
  datatype Record =
    | Created(id: string)
    | RequestChanged(id: string) | ActionChanged(id: string)
    | FieldChanged(id: string, field: string)
    | Bytes(surface: string, count: nat)
    | UiChanged(doc: UiDoc)
    | EvaluationChanged | WorkChanged

  function Render(r: Record): bytes
  {
    Utf8.Encode(
      match r
      case Created(id) => "created:" + id + "\n"
      case RequestChanged(id) => "request:" + id + "\n"
      case ActionChanged(id) => "action:" + id + "\n"
      case FieldChanged(id, field) => id + ":" + field + "\n"
      case Bytes(surface, n) => surface + ":" + Decimal(n) + "\n"
      case UiChanged(doc) => "ui:" + UiName(doc) + "\n"
      case EvaluationChanged => "evaluation\n"
      case WorkChanged => "work\n")
  }

  /** Announce on the aggregate stream. */
  function Say(s: State, r: Record): State { Append(s, Events, Render(r)) }

  /** Announce on a scoped stream, then on the aggregate stream. */
  function Notify(s: State, scope: StreamId, r: Record, aggregate: Record): State
  {
    Say(Append(s, scope, Render(r)), aggregate)
  }

  // ------------------------------------------------------------ identity

  function RequestPartName(p: RequestPart): string
  {
    match p
    case ReqKind => "kind" case ReqPrompt => "prompt" case ReqOptions => "options"
    case ReqStatus => "status" case ReqCtl => "ctl" case ReqResponse => "response"
  }

  function ActionPartName(p: ActionPart): string
  {
    match p
    case ActName => "name" case ActStatus => "status" case ActOutput => "output"
    case ActResult => "result" case ActApproval => "approval" case ActProcess => "process"
  }

  function StreamKey(stream: StreamId): string
  {
    match stream
    case Input => "io/input" case Output => "io/output" case Events => "events"
    case IoEvents => "io/events" case RequestsEvents => "requests/events"
    case ActionsEvents => "actions/events" case UiEvents => "machine/ui/events" case Tape => "machine/tape"
  }

  function UiName(doc: UiDoc): string
  {
    match doc
    case Skills => "skills" case Models => "models" case Queue => "queue" case Activity => "activity"
    case Plan => "plan" case Thinking => "thinking" case Notice => "notice"
  }

  function NodeKey(node: Node): string
  {
    match node
    case Root => "/" case IoDir => "io" case MachineDir => "machine" case UiDir => "machine/ui"
    case CheckpointsDir => "machine/checkpoints" case ContextDir => "context" case ChildrenDir => "children"
    case RequestsDir => "requests" case ActionsDir => "actions"
    case Log(stream) => StreamKey(stream)
    case Status => "machine/status" case Evaluation => "machine/evaluation" case Work => "machine/work"
    case MachineCtl => "machine/ctl" case ActionsHelp => "actions/help"
    case CurrentCheckpoint => "machine/checkpoints/current"
    case Ui(doc) => "machine/ui/" + UiName(doc)
    case RequestsClone => "requests/clone" case ActionsClone => "actions/clone"
    case RequestEntry(id) => "requests/" + id
    case RequestField(id, p) => "requests/" + id + "/" + RequestPartName(p)
    case ActionEntry(id) => "actions/" + id
    case ActionField(id, p) => "actions/" + id + "/" + ActionPartName(p)
  }

  function KindOf(node: Node): FileKind
  {
    match node
    case Root | IoDir | MachineDir | UiDir | CheckpointsDir | ContextDir | ChildrenDir => Dir
    case RequestsDir | ActionsDir | RequestEntry(_) | ActionEntry(_) => Dir
    case Log(_) => Stream
    case RequestsClone | ActionsClone => Clone
    case _ => File
  }

  function VersionIn(versions: map<nat, nat>, path: nat): nat
  {
    if path in versions then versions[path] else 0
  }

  /** Versions are 32-bit and wrap. */
  function Bumped(versions: map<nat, nat>, path: nat): map<nat, nat>
  {
    versions[path := (VersionIn(versions, path) + 1) % U32_LIMIT]
  }

  function PathOf(env: Env, node: Node): nat { env.pathOf(NodeKey(node)) }

  function QidOf(env: Env, s: State, node: Node): Qid
  {
    Qid(KindOf(node), VersionIn(s.versions, PathOf(env, node)), PathOf(env, node))
  }

  function Bump(env: Env, s: State, node: Node): State
  {
    s.(versions := Bumped(s.versions, PathOf(env, node)))
  }

  // ----------------------------------------------------------- traversal

  function NodeOf(s: State, fid: Fid): Result<Node>
  {
    if fid == ROOT then Ok(Root)
    else if fid in s.fids then Ok(s.fids[fid].node)
    else Err(NotFound)
  }

  function Child(s: State, node: Node, name: string): Result<Node>
  {
    match node
    case Root =>
      if name == "io" then Ok(IoDir) else if name == "machine" then Ok(MachineDir)
      else if name == "events" then Ok(Log(Events)) else if name == "requests" then Ok(RequestsDir)
      else if name == "actions" then Ok(ActionsDir) else if name == "context" then Ok(ContextDir)
      else if name == "children" then Ok(ChildrenDir) else Err(NotFound)
    case IoDir =>
      if name == "input" then Ok(Log(Input)) else if name == "output" then Ok(Log(Output))
      else if name == "events" then Ok(Log(IoEvents)) else Err(NotFound)
    case MachineDir =>
      if name == "tape" then Ok(Log(Tape)) else if name == "status" then Ok(Status)
      else if name == "evaluation" then Ok(Evaluation) else if name == "work" then Ok(Work)
      else if name == "ctl" then Ok(MachineCtl) else if name == "ui" then Ok(UiDir)
      else if name == "checkpoints" then Ok(CheckpointsDir) else Err(NotFound)
    case UiDir =>
      if name == "skills" then Ok(Ui(Skills)) else if name == "models" then Ok(Ui(Models))
      else if name == "queue" then Ok(Ui(Queue)) else if name == "activity" then Ok(Ui(Activity))
      else if name == "plan" then Ok(Ui(Plan)) else if name == "thinking" then Ok(Ui(Thinking))
      else if name == "notice" then Ok(Ui(Notice)) else if name == "events" then Ok(Log(UiEvents))
      else Err(NotFound)
    case CheckpointsDir => if name == "current" then Ok(CurrentCheckpoint) else Err(NotFound)
    case RequestsDir =>
      if name == "clone" then Ok(RequestsClone) else if name == "events" then Ok(Log(RequestsEvents))
      else if name in s.requests then Ok(RequestEntry(name)) else Err(NotFound)
    case RequestEntry(id) =>
      if name == "kind" then Ok(RequestField(id, ReqKind)) else if name == "prompt" then Ok(RequestField(id, ReqPrompt))
      else if name == "options" then Ok(RequestField(id, ReqOptions))
      else if name == "status" then Ok(RequestField(id, ReqStatus))
      else if name == "ctl" then Ok(RequestField(id, ReqCtl))
      else if name == "response" then Ok(RequestField(id, ReqResponse))
      else Err(NotFound)
    case ActionsDir =>
      if name == "help" then Ok(ActionsHelp) else if name == "clone" then Ok(ActionsClone)
      else if name == "events" then Ok(Log(ActionsEvents))
      else if name in s.actions then Ok(ActionEntry(name)) else Err(NotFound)
    case ActionEntry(id) =>
      if name == "name" then Ok(ActionField(id, ActName)) else if name == "status" then Ok(ActionField(id, ActStatus))
      else if name == "output" then Ok(ActionField(id, ActOutput))
      else if name == "result" then Ok(ActionField(id, ActResult))
      else if name == "approval" then Ok(ActionField(id, ActApproval))
      else if name == "process" then Ok(ActionField(id, ActProcess))
      else Err(NotFound)
    case ContextDir | ChildrenDir => Err(NotFound)
    case _ => Err(NotDirectory)
  }

  function Descend(s: State, node: Node, names: seq<string>): Result<Node>
    decreases |names|
  {
    if names == [] then Ok(node)
    else match Child(s, node, names[0])
      case Ok(next) => Descend(s, next, names[1..])
      case Err(e) => Err(e)
  }

  // -------------------------------------------------------- file contents

  function StatusText(st: RequestStatus): string
  {
    match st
    case Pending => "pending" case Answered => "answered" case Closed => "closed" case Cancelled => "cancelled"
  }

  predicate IsTerminal(st: RequestStatus) { st != Pending }

  function OutputRootName(id: string): string { "actions/" + id + "/output" }

  function JoinLines(names: seq<string>): string
  {
    if names == [] then "" else if |names| == 1 then names[0] else names[0] + "\n" + JoinLines(names[1..])
  }

  function Listing(env: Env, fixed: seq<string>, ids: set<string>): bytes
  {
    Utf8.Encode(JoinLines(fixed + env.keyOrder(ids)))
  }

  function RequestBytes(r: Request, p: RequestPart): bytes
  {
    match p
    case ReqCtl => Utf8.Encode("cancel\n")
    case ReqKind => r.kind case ReqPrompt => r.prompt case ReqOptions => r.options
    case ReqStatus => Utf8.Encode(StatusText(r.status))
    case ReqResponse => r.response
  }

  function MapFault(f: K.Fault): ErrorCode
  {
    match f
    case MissingBlock | MissingNode | UnknownRoot => NotFound
    case HashMismatch | Cycle => Io
  }

  function FromStore(o: K.Outcome<bytes>): Result<bytes>
  {
    match o case Good(b) => Ok(b) case Bad(f) => Err(MapFault(f))
  }

  /** The stored fields of an action, apart from its output. */
  function ActionBytes(a: Action, p: ActionPart): bytes
  {
    match p
    case ActName => a.name case ActStatus => a.status case ActOutput => a.output
    case ActResult => a.result case ActApproval => a.approval case ActProcess => a.process
  }

  function UiBytes(s: State, doc: UiDoc): bytes { if doc in s.ui then s.ui[doc] else [] }

  function Computed(env: Env, s: State, node: Node): Result<bytes>
  {
    match node
    case CurrentCheckpoint => Ok(Utf8.Encode(s.tapeRoot + "\n"))
    case Status => Ok(s.status)
    case Evaluation => Ok(s.evaluation)
    case Work => Ok(s.work)
    case Ui(doc) => Ok(UiBytes(s, doc))
    case RequestsDir => Ok(Listing(env, ["clone", "events"], s.requests.Keys))
    case ActionsDir => Ok(Listing(env, ["clone", "events", "help"], s.actions.Keys))
    case RequestField(id, p) => if id in s.requests then Ok(RequestBytes(s.requests[id], p)) else Err(NotFound)
    case ActionField(id, p) =>
      if id !in s.actions then Err(NotFound)
      else if p == ActOutput && !s.actions[id].expired && s.actions[id].outputRoot.Some? then
        FromStore(K.ReadRoot(env.hashing, s.knowledge, OutputRootName(id)))
      else Ok(ActionBytes(s.actions[id], p))
    case Log(_) | RequestsClone | ActionsClone => Err(Unsupported)
    case _ => Ok(env.fixed(node))
  }

  function MaterializedTape(env: Env, s: State): Result<bytes>
  {
    FromStore(K.ReadRoot(env.hashing, s.knowledge, TAPE_ROOT_NAME))
  }

  predicate IsWritable(node: Node)
  {
    match node
    case Log(stream) => stream in {Input, Output, Tape, UiEvents}
    case MachineCtl | Ui(_) | RequestsClone | ActionsClone | ActionField(_, _) => true
    case RequestField(_, p) => p != ReqStatus
    case _ => false
  }

  /** Whole documents whose previous content is the base of a read-write open. */
  predicate IsDocument(node: Node) { node.Ui? || node.RequestField? || node.ActionField? }

  // ---------------------------------------------------------------- walk

  function WalkStep(env: Env, s: State, fid: Fid, newfid: Fid, names: seq<string>): (State, Result<Qid>)
  {
    if newfid == ROOT || newfid in s.fids then (s, Err(BadRequest))
    else match NodeOf(s, fid)
      case Err(e) => (s, Err(e))
      case Ok(start) =>
        match Descend(s, start, names)
        case Err(e) => (s, Err(e))
        case Ok(node) => (s.(fids := s.fids[newfid := At(node)]), Ok(QidOf(env, s, node)))
  }

  // ---------------------------------------------------------------- open

  function RequestId(n: nat): string { "r" + Decimal(n) }
  function ActionId(n: nat): string { "a" + Decimal(n) }

  const NEW_REQUEST := Request([], [], [], Pending, [])

  function NewAction(): Action { Action([], Utf8.Encode("running"), [], None, false, [], [], []) }

  /** Clone-via-open: counters are 64-bit and wrap. */
  function CloneRequest(env: Env, s: State): State
  {
    var id := RequestId(s.nextRequest);
    var s1 := s.(nextRequest := (s.nextRequest + 1) % U64_LIMIT, requests := s.requests[id := NEW_REQUEST]);
    Bump(env, Notify(s1, RequestsEvents, Created(id), RequestChanged(id)), RequestsDir)
  }

  function CloneAction(env: Env, s: State): State
  {
    var id := ActionId(s.nextAction);
    var s1 := s.(nextAction := (s.nextAction + 1) % U64_LIMIT, actions := s.actions[id := NewAction()]);
    Bump(env, Notify(s1, ActionsEvents, Created(id), ActionChanged(id)), ActionsDir)
  }

  /** Why an open is refused, if it is. */
  function OpenRefusal(s: State, fid: Fid, mode: OpenMode): Option<ErrorCode>
  {
    if fid !in s.fids then Some(NotFound)
    else if s.fids[fid].mode.Some? then Some(BadRequest)
    else
      var node := s.fids[fid].node;
      if Writes(mode) && !IsWritable(node) then Some(NoAccess)
      else if node == Log(Tape) && Writes(mode) && s.tapeWriter.Some? then Some(NoAccess)
      else if (node.RequestsClone? || node.ActionsClone?) && mode != ReadWrite then Some(NoAccess)
      else None
  }

  /** What opening `node` allocates, and the id it hands out. */
  function Allocate(env: Env, s: State, node: Node): (State, Option<string>)
  {
    if node.RequestsClone? then (CloneRequest(env, s), Some(RequestId(s.nextRequest)))
    else if node.ActionsClone? then (CloneAction(env, s), Some(ActionId(s.nextAction)))
    else (s, None)
  }

  /** The handle as opened; a write-open of the tape takes the lease. */
  function Opened(s: State, fid: Fid, mode: OpenMode, cloneId: Option<string>, buf: bytes): State
    requires fid in s.fids
  {
    var h := s.fids[fid].(mode := Some(mode), cloneId := cloneId, writeBuf := buf);
    s.(fids := s.fids[fid := h],
       tapeWriter := if h.node == Log(Tape) && Writes(mode) then Some(fid) else s.tapeWriter)
  }

  function OpenStep(env: Env, s: State, fid: Fid, mode: OpenMode): (State, Result<Qid>)
  {
    if fid == ROOT then
      (s, if Writes(mode) then Err(NoAccess) else Ok(Qid(Dir, 0, PathOf(env, Root))))
    else if OpenRefusal(s, fid, mode).Some? then (s, Err(OpenRefusal(s, fid, mode).value))
    else
      var node := s.fids[fid].node;
      var (s1, cloneId) := Allocate(env, s, node);
      var base := if mode == ReadWrite && IsDocument(node) then Computed(env, s1, node)
                  else Ok(s.fids[fid].writeBuf);
      if base.Err? then (s1, Err(base.error))
      else
        var s2 := Opened(s1, fid, mode, cloneId, base.value);
        (s2, Ok(QidOf(env, s2, node)))
  }

  // ---------------------------------------------------------------- read

  /** What the first locked section of a read decides. */
  datatype ReadPlan =
    | CloneId(id: string)
    | FromTape(checkpoint: bytes)
    | FromLog(stream: StreamId)
    | FromDocument(node: Node)

  function BeginRead(env: Env, s: State, fid: Fid): Result<ReadPlan>
  {
    if fid == ROOT then Ok(FromDocument(Root))
    else if fid !in s.fids then Err(NotFound)
    else
      var h := s.fids[fid];
      if h.mode != Some(Read) && h.mode != Some(ReadWrite) then Err(NoAccess)
      else if h.node == Log(Tape) then
        match MaterializedTape(env, s)
        case Err(e) => Err(e)
        case Ok(b) => Ok(if h.cloneId.Some? then CloneId(h.cloneId.value) else FromTape(b))
      else if h.cloneId.Some? then Ok(CloneId(h.cloneId.value))
      else if h.node.Log? then Ok(FromLog(h.node.stream))
      else Ok(FromDocument(h.node))
  }

  /** A stream read returns once there is a byte at `offset`. */
  predicate StreamReady(s: State, stream: StreamId, offset: nat) { offset < |LogOf(s, stream)| }

  /** A tape read serves the checkpoint it saw, or the stream beyond it. */
  function TapeRead(s: State, checkpoint: bytes, offset: nat, count: nat): bytes
    requires offset < |checkpoint| || StreamReady(s, Tape, offset)
  {
    if offset < |checkpoint| then Slice(checkpoint, offset, count) else Slice(LogOf(s, Tape), offset, count)
  }

  /** The second locked section of a read of a finite file. */
  function DocumentReadStep(env: Env, s: State, fid: Fid, node: Node, offset: nat, count: nat): (State, Result<bytes>)
  {
    if fid == ROOT then
      (s, match Computed(env, s, node) case Ok(b) => Ok(Slice(b, offset, count)) case Err(e) => Err(e))
    else if offset == 0 || (fid in s.fids && s.fids[fid].snapshot.None?) then
      match Computed(env, s, node)
      case Err(e) => (s, Err(e))
      case Ok(b) =>
        if fid !in s.fids then (s, Err(NotFound))
        else (s.(fids := s.fids[fid := s.fids[fid].(snapshot := Some(b))]), Ok(Slice(b, offset, count)))
    else if fid !in s.fids then (s, Err(NotFound))
    else (s, Ok(Slice(s.fids[fid].snapshot.value, offset, count)))
  }

  // --------------------------------------------------------------- write

  function Zeros(n: nat): (z: bytes) ensures |z| == n { seq(n, _ => 0) }

  /** `data` laid over `buf` at `start`, the gap filled with zero bytes. */
  function Splice(buf: bytes, start: nat, data: bytes): (r: bytes)
    ensures |r| == if |buf| < start + |data| then start + |data| else |buf|
    ensures r[start..start + |data|] == data
    ensures forall i :: 0 <= i < |r| && !(start <= i < start + |data|) ==> r[i] == if i < |buf| then buf[i] else 0
  {
    var padded := if |buf| < start + |data| then buf + Zeros(start + |data| - |buf|) else buf;
    padded[..start] + data + padded[start + |data|..]
  }

  function AppendTape(env: Env, s: State, data: bytes): Result<State>
  {
    match K.ForkAppend(env.hashing, s.knowledge, TAPE_ROOT_NAME, s.tapeRoot, data)
    case Bad(f) => Err(MapFault(f))
    case Good((st, root)) => Ok(Bump(env, s.(knowledge := st, tapeRoot := root), CurrentCheckpoint))
  }

  function Written(data: bytes): Result<nat> { Ok(|data| % U32_LIMIT) }

  function StreamWriteStep(env: Env, s: State, stream: StreamId, data: bytes): (State, Result<nat>)
  {
    var record := Bytes(match stream case Output => "output" case UiEvents => "ui:events" case _ => "tape", |data|);
    var checked := if stream == Tape then AppendTape(env, s, data) else Ok(s);
    if checked.Err? then (s, Err(checked.error))
    else
      var s1 := Append(checked.value, stream, data);
      (if stream == Output then Notify(s1, IoEvents, record, record) else Say(s1, record), Written(data))
  }

  function CommandStep(s: State, data: bytes): (State, Result<nat>)
  {
    if data == [] || |data| > MAX_COMMAND_BYTES || 10 in data || 13 in data || 0 in data || !Utf8.IsText(data)
    then (s, Err(BadRequest))
    else (Append(s, Events, Utf8.Encode("ctl:") + data + [10]), Written(data))
  }

  function CancelStep(env: Env, s: State, id: string): (State, Result<()>)
  {
    if id !in s.requests then (s, Err(NotFound))
    else if s.requests[id].status == Pending then
      var s1 := s.(requests := s.requests[id := s.requests[id].(status := Cancelled)]);
      var s2 := Bump(env, s1, RequestField(id, ReqStatus));
      (Notify(s2, RequestsEvents, FieldChanged(id, "status"), RequestChanged(id)), Ok(()))
    else if !IsTerminal(s.requests[id].status) then (s, Err(BadRequest))
    else (s, Ok(()))
  }

  function ControlStep(env: Env, s: State, id: string, offset: nat, data: bytes): (State, Result<nat>)
  {
    if offset != 0 || data != Utf8.Encode("cancel") then (s, Err(BadRequest))
    else
      var (s1, r) := CancelStep(env, s, id);
      (s1, if r.Err? then Err(r.error) else Written(data))
  }

  function DocumentLimit(node: Node): nat
  {
    if node.ActionField? && node.apart == ActOutput then MAX_ACTION_OUTPUT_BYTES else MAX_DOC_BYTES
  }

  function BufferStep(env: Env, s: State, fid: Fid, offset: nat, data: bytes): (State, Result<nat>)
    requires fid in s.fids
  {
    var h := s.fids[fid];
    if offset + |data| >= U64_LIMIT then (s, Err(BadRequest))
    else if offset + |data| > DocumentLimit(h.node) then
      (if h.node == Ui(Skills)
       then s.(fids := s.fids[fid := h.(writeBuf := env.unknownSkills, wrote := true)]) else s,
       Err(BadRequest))
    else
      (s.(fids := s.fids[fid := h.(writeBuf := Splice(h.writeBuf, offset, data), wrote := true)]), Written(data))
  }

  function WriteStep(env: Env, s: State, fid: Fid, offset: nat, data: bytes): (State, Result<nat>)
  {
    if fid != ROOT && fid !in s.fids then (s, Err(NotFound))
    else if fid == ROOT || s.fids[fid].mode.None? || !Writes(s.fids[fid].mode.value) then (s, Err(NoAccess))
    else
      match s.fids[fid].node
      case Log(stream) =>
        if stream in {Output, Tape, UiEvents} then StreamWriteStep(env, s, stream, data)
        else if stream == Input then BufferStep(env, s, fid, offset, data)
        else (s, Err(Unsupported))
      case MachineCtl => CommandStep(s, data)
      case RequestField(id, p) =>
        if p == ReqCtl then ControlStep(env, s, id, offset, data) else BufferStep(env, s, fid, offset, data)
      case Ui(_) | ActionField(_, _) => BufferStep(env, s, fid, offset, data)
      case _ => (s, Err(Unsupported))
  }

  // --------------------------------------------------------------- clunk

  function CommitInput(s: State, payload: bytes): State
  {
    var record := Bytes("input", |payload|);
    Notify(Append(s, Input, Frame(payload)), IoEvents, record, record)
  }

  function SetRequestPart(r: Request, p: RequestPart, value: bytes): Request
  {
    match p
    case ReqKind => r.(kind := value)
    case ReqPrompt => r.(prompt := value)
    case ReqOptions => r.(options := value)
    case ReqResponse => r.(response := value, status := Answered)
    case ReqStatus | ReqCtl => r
  }

  function CommitRequest(env: Env, s: State, id: string, p: RequestPart, value: bytes): (State, Result<()>)
  {
    if !Utf8.IsText(value) then (s, Err(BadRequest))
    else if id in s.requests && IsTerminal(s.requests[id].status) then (s, Err(NoAccess))
    else
      var s1 := if id in s.requests
                then s.(requests := s.requests[id := SetRequestPart(s.requests[id], p, value)]) else s;
      var s2 := Bump(env, s1, RequestField(id, p));
      var s3 := if p == ReqResponse then Bump(env, s2, RequestField(id, ReqStatus)) else s2;
      (Notify(s3, RequestsEvents, FieldChanged(id, RequestPartName(p)), RequestChanged(id)), Ok(()))
  }

  function SetActionPart(a: Action, p: ActionPart, value: bytes, root: Option<K.Hash>): Action
  {
    match p
    case ActName => a.(name := value)
    case ActStatus => a.(status := value)
    case ActOutput => a.(output := value, outputRoot := root, expired := false)
    case ActResult => a.(result := value)
    case ActApproval => a.(approval := value)
    case ActProcess => a.(process := value)
  }

  function CommitAction(env: Env, s: State, id: string, p: ActionPart, value: bytes): (State, Result<()>)
  {
    if !Utf8.IsText(value) then (s, Err(BadRequest))
    else if p == ActOutput && id in s.actions && (s.actions[id].outputRoot.Some? || s.actions[id].expired)
    then (s, Err(NoAccess))
    else
      var (st, root) := K.StoreBytes(env.hashing, s.knowledge, OutputRootName(id), value);
      var s0 := if p == ActOutput then s.(knowledge := st) else s;
      var s1 := if id in s.actions
                then s0.(actions := s.actions[id := SetActionPart(s.actions[id], p, value, Some(root))]) else s0;
      var s2 := Bump(env, s1, ActionField(id, p));
      (Notify(s2, ActionsEvents, FieldChanged(id, ActionPartName(p)), ActionChanged(id)), Ok(()))
  }

  function CommitUi(env: Env, s: State, doc: UiDoc, value: bytes): (State, Result<()>)
  {
    if doc != Skills && !Utf8.IsText(value) then (s, Err(BadRequest))
    else
      var shown := if doc == Skills then env.skills(if Utf8.IsText(value) then value else []) else value;
      var s1 := Bump(env, s.(ui := s.ui[doc := shown]), Ui(doc));
      (Say(s1, UiChanged(doc)), Ok(()))
  }

  /** Releasing a handle gives up its lease and commits what it buffered. */
  function Released(s: State, fid: Fid): State
  {
    s.(fids := s.fids - {fid}, tapeWriter := if s.tapeWriter == Some(fid) then None else s.tapeWriter)
  }

  function ClunkStep(env: Env, s: State, fid: Fid): (State, Result<()>)
  {
    if fid == ROOT then (s, Ok(()))
    else if fid !in s.fids then (s, Err(NotFound))
    else
      var h := s.fids[fid];
      var s1 := Released(s, fid);
      if !h.wrote then (s1, Ok(()))
      else
        match h.node
        case Log(stream) => if stream == Input then (CommitInput(s1, h.writeBuf), Ok(())) else (s1, Ok(()))
        case RequestField(id, p) => CommitRequest(env, s1, id, p, h.writeBuf)
        case ActionField(id, p) => CommitAction(env, s1, id, p, h.writeBuf)
        case Ui(doc) => CommitUi(env, s1, doc, h.writeBuf)
        case _ => (s1, Ok(()))
  }

  // ------------------------------------------------- the owning runtime

  function EscapeChar(c: char): string
  {
    match c
    case '\"' => "\\\"" case '\\' => "\\\\" case '\n' => "\\n" case '\r' => "\\r" case '\t' => "\\t"
    case other => [other]
  }

  function Escaped(text: string): string
  {
    if text == [] then [] else EscapeChar(text[0]) + Escaped(text[1..])
  }

  function JsonString(text: string): string { "\"" + Escaped(text) + "\"" }

  function ExpiryRecord(id: string, cause: string): bytes
  {
    Utf8.Encode("{\"type\":\"evidence_retention_expired\",\"reference\":"
                + JsonString("/actions/" + id + "/output") + ",\"cause\":" + JsonString(cause) + "}")
  }

  /** Drop one action's stored output; `journal` is the error the retention journal raised, if any. */
  ghost function ExpireStep(
      env: Env, s: State, id: string, cause: string, journal: Option<ErrorCode>): (State, Result<()>)
  {
    if id !in s.actions then (s, Err(NotFound))
    else if journal.Some? then (s, Err(journal.value))
    else match K.Unbind(s.knowledge, OutputRootName(id))
      case Bad(f) => (s, Err(MapFault(f)))
      case Good(st) =>
        var a := s.actions[id].(outputRoot := None, expired := true, output := ExpiryRecord(id, cause));
        (Bump(env, s.(knowledge := K.Collected(st), actions := s.actions[id := a]), ActionField(id, ActOutput)), Ok(()))
  }

  /** The index of a well-formed request id below the 64-bit limit. */
  function RestoredIndex(id: string): Option<nat>
  {
    if id == [] || id[0] != 'r' then None
    else match ParseUnsigned(Codes(id[1..]))
      case None => None
      case Some(n) => if n < U64_LIMIT - 1 && id == RequestId(n) then Some(n) else None
  }

  function RestoreStep(env: Env, s: State, id: string, kind: bytes, prompt: bytes, options: bytes): (State, Result<()>)
  {
    var index := RestoredIndex(id);
    if index.None? || kind == [] || |kind| > MAX_DOC_BYTES || |prompt| > MAX_DOC_BYTES || |options| > MAX_DOC_BYTES
    then (s, Err(BadRequest))
    else if id in s.requests then
      var r := s.requests[id];
      (s, if r.kind != kind || r.prompt != prompt || r.options != options then Err(BadRequest) else Ok(()))
    else
      var next := if s.nextRequest < index.value + 1 then index.value + 1 else s.nextRequest;
      var s1 := s.(nextRequest := next, requests := s.requests[id := Request(kind, prompt, options, Pending, [])]);
      var s2 := Bump(env, s1, RequestsDir);
      (Notify(s2, RequestsEvents, Created(id), RequestChanged(id)), Ok(()))
  }

  function PublishEvaluationStep(env: Env, s: State, isObject: bool, document: bytes): (State, Result<()>)
  {
    if !isObject || |document| > MAX_DOC_BYTES then (s, Err(BadRequest))
    else if s.evaluation == document then (s, Ok(()))
    else (Say(Bump(env, s.(evaluation := document), Evaluation), EvaluationChanged), Ok(()))
  }

  function PublishWorkStep(env: Env, s: State, isObject: bool, document: bytes): (State, Result<()>)
  {
    if !isObject || |document| > MAX_DOC_BYTES then (s, Err(BadRequest))
    else if s.work == document then (s, Ok(()))
    else (Say(Bump(env, s.(work := document), Work), WorkChanged), Ok(()))
  }

  /** Process events announced by the overlay. */
  function AnnounceStep(s: State, io: bool, record: bytes): State
  {
    Append(if io then Append(s, IoEvents, record) else s, Events, record)
  }

  // ---------------------------------------------------------------- runs

  datatype Op =
    | Walk(fid: Fid, newfid: Fid, names: seq<string>)
    | Open(fid: Fid, mode: OpenMode)
    | ReadDocument(fid: Fid, node: Node, offset: nat, count: nat)
    | Write(fid: Fid, offset: nat, data: bytes)
    | Clunk(fid: Fid)
    | Expire(id: string, cause: string, journal: Option<ErrorCode>)
    | Restore(id: string, kind: bytes, prompt: bytes, options: bytes)
    | PublishEvaluation(isObject: bool, document: bytes)
    | PublishWork(isObject: bool, document: bytes)
    | Announce(io: bool, record: bytes)

  ghost function Apply(env: Env, s: State, op: Op): State
  {
    match op
    case Walk(fid, newfid, names) => WalkStep(env, s, fid, newfid, names).0
    case Open(fid, mode) => OpenStep(env, s, fid, mode).0
    case ReadDocument(fid, node, offset, count) => DocumentReadStep(env, s, fid, node, offset, count).0
    case Write(fid, offset, data) => WriteStep(env, s, fid, offset, data).0
    case Clunk(fid) => ClunkStep(env, s, fid).0
    case Expire(id, cause, journal) => ExpireStep(env, s, id, cause, journal).0
    case Restore(id, kind, prompt, options) => RestoreStep(env, s, id, kind, prompt, options).0
    case PublishEvaluation(isObject, document) => PublishEvaluationStep(env, s, isObject, document).0
    case PublishWork(isObject, document) => PublishWorkStep(env, s, isObject, document).0
    case Announce(io, record) => AnnounceStep(s, io, record)
  }

  /** A new server: an empty tape checkpoint is bound, nothing else exists. */
  function Initial(env: Env, status: bytes, evaluation: bytes, work: bytes, ui: map<UiDoc, bytes>): State
  {
    var root := env.hashing.node([]);
    var st := K.Store(map[], map[root := []], map[TAPE_ROOT_NAME := root]);
    State(map[], st, root, map[], map[], status, evaluation, work, ui, 0, 0, None, map[], map[])
  }

  ghost function Run(env: Env, start: State, ops: seq<Op>): State
  {
    if ops == [] then start else Apply(env, Run(env, start, ops[..|ops| - 1]), ops[|ops| - 1])
  }
}
