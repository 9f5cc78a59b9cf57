/** A message or a document sent in pieces through one handle, interleaved with everyone else's requests. */
module AgentFsWrites {
  import opened Bytes
  import opened Frames
  import opened AgentFs
  import opened AgentFsCore
  import opened AgentFsInvariant
  import G = AgentFsGuarantees

  /** Others' requests, then the next piece written through the handle. */
  datatype Piece = Piece(others: seq<Op>, data: bytes)

  /** Requests that neither release the handle nor write through it. */
  predicate ByOthers(fid: Fid, ops: seq<Op>)
  {
    forall i :: 0 <= i < |ops| ==> ops[i] != Clunk(fid) && !(ops[i].Write? && ops[i].fid == fid)
  }

  /** The state after the pieces, each written where the one before it ended. */
  ghost function Sent(env: Env, s: State, fid: Fid, at: nat, pieces: seq<Piece>): State
    decreases |pieces|
  {
    if pieces == [] then s
    else
      var s1 := WriteStep(env, Run(env, s, pieces[0].others), fid, at, pieces[0].data).0;
      Sent(env, s1, fid, at + |pieces[0].data|, pieces[1..])
  }

  /** Each round of requests is by others and wraps no counter, in the state it starts from. */
  ghost predicate Fair(env: Env, s: State, fid: Fid, at: nat, pieces: seq<Piece>)
    decreases |pieces|
  {
    pieces == [] ||
    (&& ByOthers(fid, pieces[0].others) && NeverWraps(env, s, pieces[0].others)
     && var s1 := WriteStep(env, Run(env, s, pieces[0].others), fid, at, pieces[0].data).0;
     Fair(env, s1, fid, at + |pieces[0].data|, pieces[1..]))
  }

  function Payload(pieces: seq<Piece>): bytes
  {
    if pieces == [] then [] else pieces[0].data + Payload(pieces[1..])
  }

  /** The handle holds exactly `buf`. */
  predicate Holding(s: State, fid: Fid, node: Node, buf: bytes, wrote: bool)
  {
    G.Buffers(s, fid) && s.fids[fid].node == node && s.fids[fid].writeBuf == buf && s.fids[fid].wrote == wrote
  }

  lemma StepKeepsBuffer(env: Env, s: State, op: Op, fid: Fid, node: Node, buf: bytes, wrote: bool)
    requires Inv(env, s) && Holding(s, fid, node, buf, wrote) && ByOthers(fid, [op])
    ensures Holding(Apply(env, s, op), fid, node, buf, wrote)
  {
    hide Apply, CoreInv, LeaseExact;
    assert op == [op][0];
    var change := StepHandles(env, s, op);
  }

  lemma {:induction false} OthersKeepBuffer(
      env: Env, s: State, ops: seq<Op>, fid: Fid, node: Node, buf: bytes, wrote: bool)
    requires G.InOrder(env, s) && NeverWraps(env, s, ops) && Holding(s, fid, node, buf, wrote) && ByOthers(fid, ops)
    ensures G.InOrder(env, Run(env, s, ops)) && Holding(Run(env, s, ops), fid, node, buf, wrote)
    decreases |ops|
  {
    hide Apply, Inv, NeverWraps, Holding;
    RunKeeps(env, s, ops);
    if ops != [] {
      var before := ops[..|ops| - 1];
      NeverWrapsPrefix(env, s, ops, |ops| - 1);
      OthersKeepBuffer(env, s, before, fid, node, buf, wrote);
      StepKeepsBuffer(env, Run(env, s, before), ops[|ops| - 1], fid, node, buf, wrote);
    }
  }

  /** A piece written at the end of the buffer extends it. */
  lemma PieceExtends(env: Env, s: State, fid: Fid, node: Node, buf: bytes, wrote: bool, data: bytes)
    requires G.InOrder(env, s) && Holding(s, fid, node, buf, wrote) && |buf| + |data| <= G.Capacity(node)
    ensures var s1 := WriteStep(env, s, fid, |buf|, data).0;
            G.InOrder(env, s1) && Holding(s1, fid, node, buf + data, true)
  {
    hide G.InOrder, WriteStep, G.TapeAgreed, G.Overlaid, LogOf;
    G.WriteGives(env, s, fid, |buf|, data);
    var s1 := WriteStep(env, s, fid, |buf|, data).0;
    OverlaidEnd(buf, s1.fids[fid].writeBuf, data);
  }

  lemma OverlaidEnd(buf: bytes, after: bytes, data: bytes)
    requires G.Overlaid(buf, after, |buf|, data)
    ensures after == buf + data
  {
    forall i | |buf| <= i < |after| ensures after[i] == (buf + data)[i] {
      assert after[|buf| + (i - |buf|)] == data[i - |buf|];
    }
  }

  lemma {:induction false} PiecesExtend(
      env: Env, s: State, fid: Fid, node: Node, buf: bytes, wrote: bool, pieces: seq<Piece>)
    requires G.InOrder(env, s) && Holding(s, fid, node, buf, wrote) && Fair(env, s, fid, |buf|, pieces)
    requires |buf| + |Payload(pieces)| <= G.Capacity(node)
    ensures var s1 := Sent(env, s, fid, |buf|, pieces);
            G.InOrder(env, s1) && Holding(s1, fid, node, buf + Payload(pieces), wrote || pieces != [])
    decreases |pieces|
  {
    hide G.InOrder, WriteStep, Run, Holding, NeverWraps;
    if pieces == [] {
      assert buf + Payload(pieces) == buf;
    } else {
      var p := pieces[0];
      var s0 := Run(env, s, p.others);
      OthersKeepBuffer(env, s, p.others, fid, node, buf, wrote);
      PieceExtends(env, s0, fid, node, buf, wrote, p.data);
      var s1 := WriteStep(env, s0, fid, |buf|, p.data).0;
      PiecesExtend(env, s1, fid, node, buf + p.data, true, pieces[1..]);
      assert buf + p.data + Payload(pieces[1..]) == buf + Payload(pieces);
    }
  }

  /** A handle just opened for writing, with nothing buffered. */
  predicate Fresh(s: State, fid: Fid, node: Node) { Holding(s, fid, node, [], false) }

  /** The state before the release: the pieces, then others once more. */
  ghost function Filled(env: Env, s: State, fid: Fid, pieces: seq<Piece>, last: seq<Op>): State
  {
    Run(env, Sent(env, s, fid, 0, pieces), last)
  }

  ghost predicate Sending(env: Env, s: State, fid: Fid, node: Node, pieces: seq<Piece>, last: seq<Op>)
  {
    && Fresh(s, fid, node) && pieces != [] && |Payload(pieces)| <= G.Capacity(node)
    && Fair(env, s, fid, 0, pieces) && ByOthers(fid, last) && NeverWraps(env, Sent(env, s, fid, 0, pieces), last)
  }

  lemma FilledHolds(env: Env, s: State, fid: Fid, node: Node, pieces: seq<Piece>, last: seq<Op>)
    requires G.InOrder(env, s) && Sending(env, s, fid, node, pieces, last)
    ensures var s1 := Filled(env, s, fid, pieces, last);
            G.InOrder(env, s1) && Holding(s1, fid, node, Payload(pieces), true)
  {
    hide G.InOrder, Run, Holding, NeverWraps, Sent;
    PiecesExtend(env, s, fid, node, [], false, pieces);
    assert [] + Payload(pieces) == Payload(pieces);
    OthersKeepBuffer(env, Sent(env, s, fid, 0, pieces), last, fid, node, Payload(pieces), true);
  }

  /**
   * However a message is cut into pieces, and whatever others do between them, releasing the handle
   * frames exactly that message on the input stream.
   */
  lemma InputSentInPieces(env: Env, s: State, fid: Fid, pieces: seq<Piece>, last: seq<Op>)
    requires G.InOrder(env, s) && Sending(env, s, fid, Log(Input), pieces, last)
    ensures var before := Filled(env, s, fid, pieces, last);
            var (after, r) := ClunkStep(env, before, fid);
            r.Ok? && LogOf(after, Input) == LogOf(before, Input) + Frame(Payload(pieces))
  {
    hide G.InOrder, ClunkStep, LogOf, Frame, Filled, G.Commits;
    FilledHolds(env, s, fid, Log(Input), pieces, last);
    G.InputClunk(env, Filled(env, s, fid, pieces, last), fid);
  }

  /** Likewise a field: it is committed iff it is accepted then, and shows exactly what was sent. */
  lemma FieldSentInPieces(env: Env, s: State, fid: Fid, node: Node, pieces: seq<Piece>, last: seq<Op>)
    requires G.InOrder(env, s) && Sending(env, s, fid, node, pieces, last) && G.IsField(node)
    ensures var before := Filled(env, s, fid, pieces, last);
            var (after, r) := ClunkStep(env, before, fid);
            && (r.Ok? <==> G.Accepts(before, node, Payload(pieces)))
            && (r.Ok? ==> Computed(env, after, node) == Ok(G.Stored(env, node, Payload(pieces))))
  {
    hide G.InOrder, ClunkStep, LogOf, Filled, Computed, G.Accepts;
    FilledHolds(env, s, fid, node, pieces, last);
    var before := Filled(env, s, fid, pieces, last);
    G.ClunkGives(env, before, fid);
    G.DocumentExists(env, before, fid);
  }
}
