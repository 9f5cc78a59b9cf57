/** What holds over whole runs of the agent file server, from any state that satisfies `Inv`. */
module AgentFsRuns {
  import opened Bytes
  import Utf8
  import K = Knowledge
  import opened Frames
  import opened AgentFs
  import opened AgentFsCore
  import opened AgentFsInvariant

  // ------------------------------------------------------------------- tape

  /** The tape bytes one request adds: the data of a write through the lease holder's handle. */
  function TapeDelta(s: State, op: Op): bytes
  {
    if op.Write? && s.tapeWriter == Some(op.fid) then op.data else []
  }

  ghost function TapeWrites(env: Env, start: State, ops: seq<Op>): seq<bytes>
  {
    if ops == [] then []
    else
      var before := ops[..|ops| - 1];
      TapeWrites(env, start, before) + [TapeDelta(Run(env, start, before), ops[|ops| - 1])]
  }

  /** A request appends to the tape exactly when it writes through the lease. */
  lemma TapeEffect(env: Env, s: State, op: Op)
    requires Inv(env, s)
    ensures var e := EffectOf(env, s, op);
            if op.Write? && s.tapeWriter == Some(op.fid) then e == TapeAppend(op.data) else !e.TapeAppend?
  {
    hide CoreInv, HandlesKnown, Utf8.IsText, Utf8.Encode, RestoredIndex, OutputRootName;
    if op.Write? { assert s.tapeWriter == Some(op.fid) <==> HoldsTape(s.fids, op.fid); }
  }

  lemma EffectTape(env: Env, c: Core, e: Effect)
    requires Allowed(c, e)
    ensures Effected(env, c, e).tape == c.tape + if e.TapeAppend? then e.data else []
  {
    hide PathOf, RequestId, ActionId, NewAction, ExpiryRecord, K.Collected, K.StoreBytes, K.ForkAppend, Frame;
  }

  lemma StepTape(env: Env, s: State, op: Op)
    requires Inv(env, s)
    ensures LogOf(Apply(env, s, op), Tape) == LogOf(s, Tape) + TapeDelta(s, op)
  {
    hide Apply, EffectOf, Inv, Effected;
    StepRefines(env, s, op);
    TapeEffect(env, s, op);
    EffectTape(env, CoreOf(s), EffectOf(env, s, op));
  }

  lemma {:induction false} TapeIsWrites(env: Env, start: State, ops: seq<Op>)
    requires K.CollisionFree(env.hashing) && Inv(env, start) && NeverWraps(env, start, ops)
    ensures LogOf(Run(env, start, ops), Tape) == LogOf(start, Tape) + Flatten(TapeWrites(env, start, ops))
    decreases |ops|
  {
    hide Apply, Inv, NeverWraps, TapeDelta, LogOf;
    if ops != [] {
      var before := ops[..|ops| - 1];
      var s0 := Run(env, start, before);
      NeverWrapsPrefix(env, start, ops, |ops| - 1);
      TapeIsWrites(env, start, before);
      RunKeeps(env, start, before);
      StepTape(env, s0, ops[|ops| - 1]);
      FlattenSnoc(TapeWrites(env, start, before), TapeDelta(s0, ops[|ops| - 1]));
    }
  }

  /**
   * After any run the tape is what it was followed by the lease holders' writes, in order; the
   * checkpoint bound in the store materializes to the same bytes; and the lease names exactly
   * the one live handle that holds the tape open for writing.
   */
  lemma TapeRefinement(env: Env, start: State, ops: seq<Op>)
    requires K.CollisionFree(env.hashing) && Inv(env, start) && NeverWraps(env, start, ops)
    ensures var s := Run(env, start, ops);
            && LogOf(s, Tape) == LogOf(start, Tape) + Flatten(TapeWrites(env, start, ops))
            && MaterializedTape(env, s) == Ok(LogOf(s, Tape))
            && forall f: Fid :: s.tapeWriter == Some(f) <==> HoldsTape(s.fids, f)
  {
    hide Run, Inv, NeverWraps, LogOf, Flatten, MaterializedTape;
    TapeIsWrites(env, start, ops);
    RunKeeps(env, start, ops);
    InvTape(env, Run(env, start, ops));
  }

  lemma InvTape(env: Env, s: State)
    requires Inv(env, s)
    ensures MaterializedTape(env, s) == Ok(LogOf(s, Tape))
    ensures forall f: Fid :: s.tapeWriter == Some(f) <==> HoldsTape(s.fids, f)
  {
    hide EvidenceAgrees, RequestIdsBelow, ActionIdsBelow, RequestsSettled, K.Sound;
  }

  /** While one handle holds the tape, every other write-open is refused and changes nothing. */
  lemma SecondWriterRefused(env: Env, s: State, holder: Fid, other: Fid, mode: OpenMode)
    requires Inv(env, s) && HoldsTape(s.fids, holder) && Writes(mode)
    requires other in s.fids && s.fids[other].node == Log(Tape)
    ensures OpenStep(env, s, other, mode).1.Err? && OpenStep(env, s, other, mode).0 == s
    ensures HoldsTape(s.fids, other) ==> other == holder
  {
    hide CoreInv;
    assert s.tapeWriter == Some(holder);
    assert s.tapeWriter == Some(other) <==> HoldsTape(s.fids, other);
  }

  /**
   * A tape read takes its checkpoint in one state and may finish from the stream in a later one.
   * Wherever it finishes, it returns the tape's own bytes at its offset.
   */
  lemma TapeReadCoherent(env: Env, start: State, ops: seq<Op>, fid: Fid, offset: nat, count: nat)
    requires K.CollisionFree(env.hashing) && Inv(env, start) && NeverWraps(env, start, ops)
    requires BeginRead(env, start, fid).Ok? && BeginRead(env, start, fid).value.FromTape?
    requires offset < |BeginRead(env, start, fid).value.checkpoint| || StreamReady(Run(env, start, ops), Tape, offset)
    ensures var tape := LogOf(Run(env, start, ops), Tape);
            var r := TapeRead(Run(env, start, ops), BeginRead(env, start, fid).value.checkpoint, offset, count);
            offset + |r| <= |tape| && r == tape[offset..offset + |r|] && (count > 0 ==> r != []) && |r| <= count
  {
    hide Run, Inv, NeverWraps, BeginRead, MaterializedTape, LogOf, TapeWrites, Flatten;
    CheckpointRead(env, start, fid);
    TapeRefinement(env, start, ops);
    InvTape(env, start);
  }

  lemma CheckpointRead(env: Env, s: State, fid: Fid)
    requires BeginRead(env, s, fid).Ok? && BeginRead(env, s, fid).value.FromTape?
    ensures MaterializedTape(env, s) == Ok(BeginRead(env, s, fid).value.checkpoint)
  {
    hide MaterializedTape;
  }

  // ------------------------------------------------------------------ input

  /** The message one request commits: the buffer of a written `io/input` handle being released. */
  function CommittedInput(s: State, op: Op): seq<bytes>
  {
    if op.Clunk? && op.fid in s.fids && s.fids[op.fid].node == Log(Input) && s.fids[op.fid].wrote
    then [s.fids[op.fid].writeBuf] else []
  }

  ghost function Messages(env: Env, start: State, ops: seq<Op>): seq<bytes>
  {
    if ops == [] then []
    else
      var before := ops[..|ops| - 1];
      Messages(env, start, before) + CommittedInput(Run(env, start, before), ops[|ops| - 1])
  }

  lemma InputEffect(env: Env, s: State, op: Op)
    requires Inv(env, s)
    ensures var e := EffectOf(env, s, op); CommittedInput(s, op) == if e.InputFrame? then [e.payload] else []
    ensures Framable(CommittedInput(s, op))
  {
    hide CoreInv, HandlesKnown, Utf8.IsText, Utf8.Encode, RestoredIndex, OutputRootName;
    assert ROOT !in s.fids;
  }

  lemma EffectInput(env: Env, c: Core, e: Effect)
    requires Allowed(c, e)
    ensures Effected(env, c, e).input == c.input + if e.InputFrame? then Frame(e.payload) else []
  {
    hide PathOf, RequestId, ActionId, NewAction, ExpiryRecord, K.Collected, K.StoreBytes, K.ForkAppend, Frame;
  }

  lemma StepInput(env: Env, s: State, op: Op)
    requires Inv(env, s)
    ensures LogOf(Apply(env, s, op), Input) == LogOf(s, Input) + Framed(CommittedInput(s, op))
    ensures |CommittedInput(s, op)| <= 1
  {
    hide Apply, EffectOf, Inv, Effected, CommittedInput, Frame;
    StepRefines(env, s, op);
    InputEffect(env, s, op);
    EffectInput(env, CoreOf(s), EffectOf(env, s, op));
    var m := CommittedInput(s, op);
    if m != [] { assert m[1..] == [] && Frame(m[0]) + [] == Frame(m[0]); }
  }

  lemma FramedOne(payload: bytes)
    ensures Framed([payload]) == Frame(payload)
  {
    hide Frame;
    FramedSnoc([], payload);
    assert [] + [payload] == [payload];
  }

  lemma FramedNothing(log: bytes)
    ensures log == log + Framed([])
  {
  }

  lemma FramedMaybe(log: bytes, sent: seq<bytes>, m: seq<bytes>)
    requires |m| <= 1
    ensures log + Framed(sent) + Framed(m) == log + Framed(sent + m)
  {
    hide Frame;
    if m == [] {
      assert sent + m == sent;
    } else {
      FramedSnoc(sent, m[0]);
      FramedSnoc([], m[0]);
      assert m == [m[0]] && [] + m == m;
    }
  }

  /** The input stream is the frames of the committed messages, in the order they were released. */
  lemma {:induction false} InputIsFramed(env: Env, start: State, ops: seq<Op>)
    requires K.CollisionFree(env.hashing) && Inv(env, start) && NeverWraps(env, start, ops)
    ensures LogOf(Run(env, start, ops), Input) == LogOf(start, Input) + Framed(Messages(env, start, ops))
    ensures Framable(Messages(env, start, ops))
    decreases |ops|
  {
    hide Apply, Inv, NeverWraps, CommittedInput, Framed, LogOf;
    if ops == [] {
      FramedNothing(LogOf(start, Input));
    } else {
      var before := ops[..|ops| - 1];
      var s0, sent := Run(env, start, before), Messages(env, start, before);
      var m := CommittedInput(s0, ops[|ops| - 1]);
      NeverWrapsPrefix(env, start, ops, |ops| - 1);
      InputIsFramed(env, start, before);
      RunKeeps(env, start, before);
      StepInput(env, s0, ops[|ops| - 1]);
      InputEffect(env, s0, ops[|ops| - 1]);
      FramedMaybe(LogOf(start, Input), sent, m);
    }
  }

  /**
   * Draining `io/input` of a server whose input started empty returns exactly the committed
   * messages, whatever bytes they hold; a reader that has seen only a prefix of the stream
   * decodes a prefix of them.
   */
  lemma InputRoundTrip(env: Env, start: State, ops: seq<Op>, seen: nat)
    requires K.CollisionFree(env.hashing) && Inv(env, start) && NeverWraps(env, start, ops)
    requires LogOf(start, Input) == [] && seen <= |LogOf(Run(env, start, ops), Input)|
    ensures Decode(LogOf(Run(env, start, ops), Input)) == Messages(env, start, ops)
    ensures Decode(LogOf(Run(env, start, ops), Input)[..seen]) <= Messages(env, start, ops)
  {
    hide Run, Inv, NeverWraps, Decode, Framed;
    InputIsFramed(env, start, ops);
    assert [] + Framed(Messages(env, start, ops)) == Framed(Messages(env, start, ops));
    DecodeFramed(Messages(env, start, ops));
    DecodePrefix(Messages(env, start, ops), seen);
  }

  // --------------------------------------------------------------- requests

  /** A request changes only while pending, and only an answer brings a response. */
  predicate RequestEvolves(r: Request, r1: Request)
  {
    (IsTerminal(r.status) ==> r1 == r) && Settled(r1)
  }

  lemma EffectRequests(env: Env, c: Core, e: Effect)
    requires K.CollisionFree(env.hashing) && CoreInv(env, c) && Allowed(c, e) && !CounterWraps(c, e)
    ensures forall id :: id in c.requests ==>
              id in Effected(env, c, e).requests && RequestEvolves(c.requests[id], Effected(env, c, e).requests[id])
    ensures c.nextRequest <= Effected(env, c, e).nextRequest
  {
    hide PathOf, RequestId, ActionId, NewAction, ExpiryRecord, K.Collected, K.StoreBytes, K.ForkAppend, Frame;
    hide TapeAgrees, EvidenceAgrees;
    if e == NewRequestId { NewRequestKeeps(env, c); }
  }

  /**
   * Over any run: no request disappears; once answered or cancelled it never changes again; a
   * response is present only if answered; and the id counter never goes back.
   */
  lemma {:induction false} RequestsSettle(env: Env, start: State, ops: seq<Op>)
    requires K.CollisionFree(env.hashing) && Inv(env, start) && NeverWraps(env, start, ops)
    ensures var s := Run(env, start, ops);
            && (forall id :: id in start.requests ==>
              id in s.requests && RequestEvolves(start.requests[id], s.requests[id]))
            && start.nextRequest <= s.nextRequest
    decreases |ops|
  {
    hide Apply, Inv, NeverWraps, Effected, EffectOf;
    if ops == [] {
      InvRequests(env, start);
    } else {
      var before := ops[..|ops| - 1];
      var s0 := Run(env, start, before);
      NeverWrapsAt(env, start, ops);
      RequestsSettle(env, start, before);
      RunKeeps(env, start, before);
      StepRefines(env, s0, ops[|ops| - 1]);
      InvCore(env, s0);
      EffectRequests(env, CoreOf(s0), EffectOf(env, s0, ops[|ops| - 1]));
    }
  }

  lemma NeverWrapsAt(env: Env, start: State, ops: seq<Op>)
    requires NeverWraps(env, start, ops) && ops != []
    ensures NeverWraps(env, start, ops[..|ops| - 1]) && !Wraps(env, Run(env, start, ops[..|ops| - 1]), ops[|ops| - 1])
  {
    hide Run, Wraps;
    NeverWrapsPrefix(env, start, ops, |ops| - 1);
  }

  lemma InvCore(env: Env, s: State)
    requires Inv(env, s)
    ensures CoreInv(env, CoreOf(s))
  {
    hide CoreInv;
  }

  lemma InvRequests(env: Env, s: State)
    requires Inv(env, s)
    ensures RequestsSettled(s.requests)
  {
    hide EvidenceAgrees, RequestIdsBelow, ActionIdsBelow, TapeAgrees;
  }

  /** Of any number of racing responses and cancels, the first to land decides for good. */
  lemma DecidedForGood(env: Env, start: State, ops: seq<Op>, id: string)
    requires K.CollisionFree(env.hashing) && Inv(env, start) && NeverWraps(env, start, ops)
    requires id in start.requests && start.requests[id].status != Pending
    ensures id in Run(env, start, ops).requests && Run(env, start, ops).requests[id] == start.requests[id]
  {
    hide Run, Inv, NeverWraps;
    RequestsSettle(env, start, ops);
  }

  /** An id handed out by a clone was never in use before, at any earlier point of the run. */
  lemma CloneIsFresh(env: Env, start: State, ops: seq<Op>, id: string)
    requires K.CollisionFree(env.hashing) && Inv(env, start) && NeverWraps(env, start, ops)
    requires id in start.requests
    ensures RequestId(Run(env, start, ops).nextRequest) != id
  {
    hide Run, NeverWraps, RequestId;
    RequestsSettle(env, start, ops);
    RunKeeps(env, start, ops);
    assert RequestIdsBelow(Run(env, start, ops).requests.Keys, Run(env, start, ops).nextRequest);
  }

  // --------------------------------------------------------------- evidence

  ghost predicate IsExpiryRecord(id: string, output: bytes) { exists cause :: output == ExpiryRecord(id, cause) }

  /** A committed output keeps its bytes until it becomes an expiry record, which then stays. */
  ghost predicate OutputEvolves(id: string, a: Action, a1: Action)
  {
    && (a.outputRoot.Some? ==>
          || (a1.outputRoot.Some? && !a1.expired && a1.output == a.output)
          || (a1.outputRoot.None? && a1.expired && IsExpiryRecord(id, a1.output)))
    && (a.outputRoot.None? && a.expired ==> a1.outputRoot.None? && a1.expired && a1.output == a.output)
  }

  lemma ActionsUntouched(env: Env, c: Core, e: Effect)
    requires Allowed(c, e) && !e.NewActionId? && !e.SetAction? && !e.Expiry?
    ensures Effected(env, c, e).actions == c.actions
  {
    hide PathOf, RequestId, ActionId, NewAction, K.ForkAppend, Frame;
  }

  lemma EffectOutputs(env: Env, c: Core, e: Effect)
    requires K.CollisionFree(env.hashing) && CoreInv(env, c) && Allowed(c, e) && !CounterWraps(c, e)
    ensures forall id :: id in c.actions ==>
              id in Effected(env, c, e).actions && OutputEvolves(id, c.actions[id], Effected(env, c, e).actions[id])
  {
    hide TapeAgrees, RequestIdsBelow, RequestsSettled, K.ReadRoot;
    forall id | id in c.actions ensures !(c.actions[id].outputRoot.Some? && c.actions[id].expired) {
      assert OutputAgrees(env.hashing, c.knowledge, c.actions, id);
    }
    if e.NewActionId? {
      NewActionKeeps(env, c);
    } else if e.SetAction? || e.Expiry? {
      assert OutputAgrees(env.hashing, c.knowledge, c.actions, e.id);
      OneActionEvolves(env, c, e);
    } else {
      hide Effected;
      ActionsUntouched(env, c, e);
    }
  }

  lemma OneActionEvolves(env: Env, c: Core, e: Effect)
    requires Allowed(c, e) && (e.SetAction? || e.Expiry?)
    requires forall id :: id in c.actions ==> !(c.actions[id].outputRoot.Some? && c.actions[id].expired)
    requires e.Expiry? ==> c.actions[e.id].outputRoot.Some?
    ensures forall id :: id in c.actions ==>
              id in Effected(env, c, e).actions && OutputEvolves(id, c.actions[id], Effected(env, c, e).actions[id])
  {
    hide PathOf, OutputRootName, ExpiryRecord, K.Collected, K.StoreBytes;
    var c1 := Effected(env, c, e);
    forall id | id in c.actions ensures id in c1.actions && OutputEvolves(id, c.actions[id], c1.actions[id]) {
      if e.Expiry? { assert IsExpiryRecord(e.id, ExpiryRecord(e.id, e.cause)); }
    }
  }

  lemma {:induction false} OutputsEvolve(env: Env, start: State, ops: seq<Op>)
    requires K.CollisionFree(env.hashing) && Inv(env, start) && NeverWraps(env, start, ops)
    ensures var s := Run(env, start, ops);
            forall id :: id in start.actions ==> id in s.actions && OutputEvolves(id, start.actions[id], s.actions[id])
    decreases |ops|
  {
    hide Apply, Inv, NeverWraps, Effected, EffectOf, IsExpiryRecord;
    if ops == [] {
      forall id | id in start.actions ensures !(start.actions[id].outputRoot.Some? && start.actions[id].expired) {
        ExpiryCondition(env, start, id);
      }
    } else {
      var before := ops[..|ops| - 1];
      var s0 := Run(env, start, before);
      NeverWrapsAt(env, start, ops);
      OutputsEvolve(env, start, before);
      RunKeeps(env, start, before);
      StepRefines(env, s0, ops[|ops| - 1]);
      InvCore(env, s0);
      EffectOutputs(env, CoreOf(s0), EffectOf(env, s0, ops[|ops| - 1]));
    }
  }

  lemma OutputReads(env: Env, s: State, id: string)
    requires Inv(env, s) && id in s.actions
    ensures Computed(env, s, ActionField(id, ActOutput)) == Ok(s.actions[id].output)
  {
    hide TapeAgrees, RequestIdsBelow, ActionIdsBelow, RequestsSettled, K.ReadRoot, OutputRootName;
    assert OutputAgrees(env.hashing, s.knowledge, s.actions, id);
  }

  /**
   * Over any run, a committed output reads back its exact bytes until it becomes an expiry
   * record, and an expiry record reads back unchanged for ever.
   */
  lemma EvidenceDurable(env: Env, start: State, ops: seq<Op>, id: string)
    requires K.CollisionFree(env.hashing) && Inv(env, start) && NeverWraps(env, start, ops)
    requires id in start.actions && (start.actions[id].outputRoot.Some? || start.actions[id].expired)
    ensures id in Run(env, start, ops).actions
    ensures var s := Run(env, start, ops);
            || Computed(env, s, ActionField(id, ActOutput)) == Computed(env, start, ActionField(id, ActOutput))
            || (start.actions[id].outputRoot.Some?
                && exists cause :: Computed(env, s, ActionField(id, ActOutput)) == Ok(ExpiryRecord(id, cause)))
  {
    hide Run, Inv, NeverWraps, Computed, ExpiryRecord;
    OutputsEvolve(env, start, ops);
    RunKeeps(env, start, ops);
    OutputReads(env, start, id);
    OutputReads(env, Run(env, start, ops), id);
  }

  /** A second commit of an action's output is refused and changes nothing that is stored. */
  lemma OutputWriteOnce(env: Env, s: State, fid: Fid, id: string)
    requires Inv(env, s) && fid in s.fids && s.fids[fid].node == ActionField(id, ActOutput) && s.fids[fid].wrote
    requires id in s.actions && (s.actions[id].outputRoot.Some? || s.actions[id].expired)
    ensures ClunkStep(env, s, fid).1.Err? && CoreOf(ClunkStep(env, s, fid).0) == CoreOf(s)
  {
    hide CoreInv, Utf8.IsText, K.StoreBytes, Render;
    ReleasedCore(s, fid);
  }

  /**
   * Expiring one action succeeds exactly when it has a committed, unexpired output and the
   * journal accepts; it then leaves the tape and every other action's output as they were, even
   * where contents are shared. Otherwise nothing changes.
   */
  lemma ExpiryIsolated(env: Env, s: State, id: string, cause: string, journal: Option<ErrorCode>)
    requires K.CollisionFree(env.hashing) && Inv(env, s)
    ensures var (s1, r) := ExpireStep(env, s, id, cause, journal);
            && (r.Ok? <==> id in s.actions && s.actions[id].outputRoot.Some? && journal.None?)
            && (r.Err? ==> s1 == s)
            && (r.Ok? ==>
                  && Computed(env, s1, ActionField(id, ActOutput)) == Ok(ExpiryRecord(id, cause))
                  && MaterializedTape(env, s1) == MaterializedTape(env, s) && LogOf(s1, Tape) == LogOf(s, Tape)
                  && s1.actions.Keys == s.actions.Keys
                  && forall k :: k in s.actions && k != id ==>
                       Computed(env, s1, ActionField(k, ActOutput)) == Computed(env, s, ActionField(k, ActOutput)))
  {
    hide Inv, ExpireStep, Computed, MaterializedTape, ExpiryRecord, OutputRootName, LogOf, Wraps;
    var (s1, r) := ExpireStep(env, s, id, cause, journal);
    ExpireShape(env, s, id, cause, journal);
    if id in s.actions { ExpiryCondition(env, s, id); }
    if r.Ok? {
      assert Inv(env, s1) by { ExpireInv(env, s, id, cause, journal); }
      InvTape(env, s);
      InvTape(env, s1);
      OutputReads(env, s1, id);
      forall k | k in s.actions && k != id
        ensures Computed(env, s1, ActionField(k, ActOutput)) == Computed(env, s, ActionField(k, ActOutput))
      {
        OutputReads(env, s, k);
        OutputReads(env, s1, k);
      }
    }
  }

  lemma ExpireShape(env: Env, s: State, id: string, cause: string, journal: Option<ErrorCode>)
    ensures var (s1, r) := ExpireStep(env, s, id, cause, journal);
            && (r.Ok? <==> id in s.actions && journal.None? && OutputRootName(id) in s.knowledge.roots)
            && (r.Err? ==> s1 == s)
            && LogOf(s1, Tape) == LogOf(s, Tape) && s1.actions.Keys == s.actions.Keys
            && (r.Ok? ==> s1.actions[id].output == ExpiryRecord(id, cause))
            && forall k :: k in s.actions && k != id ==> s1.actions[k] == s.actions[k]
  {
    hide ExpiryRecord, OutputRootName, PathOf, K.Collected;
  }

  lemma ExpireInv(env: Env, s: State, id: string, cause: string, journal: Option<ErrorCode>)
    requires K.CollisionFree(env.hashing) && Inv(env, s)
    ensures Inv(env, ExpireStep(env, s, id, cause, journal).0)
  {
    hide Inv, ExpireStep, OutputRootName;
    StepKeeps(env, s, Expire(id, cause, journal));
  }

  lemma ExpiryCondition(env: Env, s: State, id: string)
    requires Inv(env, s) && id in s.actions
    ensures OutputRootName(id) in s.knowledge.roots <==> s.actions[id].outputRoot.Some?
    ensures s.actions[id].outputRoot.Some? ==> !s.actions[id].expired
  {
    hide TapeAgrees, RequestIdsBelow, ActionIdsBelow, RequestsSettled, K.ReadRoot, OutputRootName;
    assert OutputAgrees(env.hashing, s.knowledge, s.actions, id);
  }
}
