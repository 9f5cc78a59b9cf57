/** Chunked reads of a finite file, interleaved with everyone else's requests. */
module AgentFsReads {
  import opened Bytes
  import K = Knowledge
  import opened AgentFs
  import opened AgentFsCore
  import opened AgentFsInvariant

  /** Requests that neither release the reader's handle nor read through it. */
  predicate ByOthers(fid: Fid, ops: seq<Op>)
  {
    forall i :: 0 <= i < |ops| ==> ops[i] != Clunk(fid) && !(ops[i].ReadDocument? && ops[i].fid == fid)
  }

  /** What one chunk read consists of: others' requests, then the reader's own. */
  datatype Round = Round(others: seq<Op>, count: nat)

  ghost function ReadAt(env: Env, s: State, fid: Fid, node: Node, offset: nat, round: Round): (State, Result<bytes>)
  {
    DocumentReadStep(env, Run(env, s, round.others), fid, node, offset, round.count)
  }

  /** The chunks a reader gets who advances its offset by what each read returned. */
  ghost function Chunks(env: Env, s: State, fid: Fid, node: Node, offset: nat, rounds: seq<Round>): seq<Result<bytes>>
    decreases |rounds|
  {
    if rounds == [] then []
    else
      var (s1, r) := ReadAt(env, s, fid, node, offset, rounds[0]);
      [r] + Chunks(env, s1, fid, node, offset + (if r.Ok? then |r.value| else 0), rounds[1..])
  }

  /** The file `content` cut into chunks of the requested sizes. */
  function Cut(content: bytes, offset: nat, rounds: seq<Round>): seq<Result<bytes>>
    requires offset <= |content|
    decreases |rounds|
  {
    if rounds == [] then []
    else
      var chunk := Slice(content, offset, rounds[0].count);
      [Ok(chunk)] + Cut(content, offset + |chunk|, rounds[1..])
  }

  /** The handle is open on `node` and has `snapshot`. */
  predicate Reading(s: State, fid: Fid, node: Node, mode: OpenMode, snapshot: Option<bytes>)
  {
    fid in s.fids && s.fids[fid].node == node && s.fids[fid].mode == Some(mode) && s.fids[fid].snapshot == snapshot
  }

  lemma StepKeepsReader(env: Env, s: State, op: Op, fid: Fid, node: Node, mode: OpenMode, snapshot: Option<bytes>)
    requires Inv(env, s) && Reading(s, fid, node, mode, snapshot) && ByOthers(fid, [op])
    ensures Reading(Apply(env, s, op), fid, node, mode, snapshot)
  {
    hide Apply, CoreInv, LeaseExact;
    assert op == [op][0];
    var change := StepHandles(env, s, op);
  }

  lemma {:induction false} OthersKeepReader(
      env: Env, s: State, ops: seq<Op>, fid: Fid, node: Node, mode: OpenMode, snapshot: Option<bytes>)
    requires K.CollisionFree(env.hashing) && Inv(env, s) && NeverWraps(env, s, ops)
    requires Reading(s, fid, node, mode, snapshot) && ByOthers(fid, ops)
    ensures Inv(env, Run(env, s, ops)) && Reading(Run(env, s, ops), fid, node, mode, snapshot)
    decreases |ops|
  {
    hide Apply, Inv, NeverWraps, Reading;
    RunKeeps(env, s, ops);
    if ops != [] {
      var before := ops[..|ops| - 1];
      NeverWrapsPrefix(env, s, ops, |ops| - 1);
      RunKeeps(env, s, before);
      OthersKeepReader(env, s, before, fid, node, mode, snapshot);
      StepKeepsReader(env, Run(env, s, before), ops[|ops| - 1], fid, node, mode, snapshot);
    }
  }

  /** Each round is by others and wraps no counter, in the state it starts from. */
  ghost predicate Fair(env: Env, s: State, fid: Fid, node: Node, offset: nat, rounds: seq<Round>)
    decreases |rounds|
  {
    rounds == [] ||
    var (s1, r) := ReadAt(env, s, fid, node, offset, rounds[0]);
    && ByOthers(fid, rounds[0].others) && NeverWraps(env, s, rounds[0].others)
    && Fair(env, s1, fid, node, offset + (if r.Ok? then |r.value| else 0), rounds[1..])
  }

  lemma ReadStepKeeps(env: Env, s: State, fid: Fid, node: Node, offset: nat, count: nat)
    requires K.CollisionFree(env.hashing) && Inv(env, s)
    ensures Inv(env, DocumentReadStep(env, s, fid, node, offset, count).0)
  {
    hide Inv, DocumentReadStep, CoreOf;
    StepKeeps(env, s, ReadDocument(fid, node, offset, count));
  }

  /** After the first chunk, every chunk comes from the snapshot the first one took. */
  lemma {:induction false} LaterChunks(
      env: Env, s: State, fid: Fid, node: Node, mode: OpenMode, content: bytes, offset: nat, rounds: seq<Round>)
    requires K.CollisionFree(env.hashing) && Inv(env, s) && fid != ROOT
    requires Reading(s, fid, node, mode, Some(content)) && offset <= |content| && offset > 0
    requires Fair(env, s, fid, node, offset, rounds)
    ensures Chunks(env, s, fid, node, offset, rounds) == Cut(content, offset, rounds)
    decreases |rounds|
  {
    hide Inv, NeverWraps, Run, Computed;
    if rounds != [] {
      OthersKeepReader(env, s, rounds[0].others, fid, node, mode, Some(content));
      var s0 := Run(env, s, rounds[0].others);
      var (s1, r) := ReadAt(env, s, fid, node, offset, rounds[0]);
      assert s1 == s0 && r == Ok(Slice(content, offset, rounds[0].count));
      LaterChunks(env, s1, fid, node, mode, content, offset + |r.value|, rounds[1..]);
    }
  }

  lemma RootShown(env: Env, s: State)
    ensures Computed(env, s, Root) == Ok(env.fixed(Root))
  {
  }

  /** The root directory is always readable and never changes. */
  lemma {:induction false} RootChunks(env: Env, s: State, offset: nat, rounds: seq<Round>)
    requires offset <= |env.fixed(Root)|
    ensures Chunks(env, s, ROOT, Root, offset, rounds) == Cut(env.fixed(Root), offset, rounds)
    decreases |rounds|
  {
    hide Run, Computed;
    if rounds != [] {
      RootShown(env, Run(env, s, rounds[0].others));
      var r := ReadAt(env, s, ROOT, Root, offset, rounds[0]);
      RootChunks(env, r.0, offset + |r.1.value|, rounds[1..]);
    }
  }

  /** The state in which round `k` begins. */
  ghost function Before(env: Env, s: State, fid: Fid, node: Node, offset: nat, rounds: seq<Round>, k: nat): State
    requires k <= |rounds|
    decreases k
  {
    if k == 0 then s
    else
      var (s1, r) := ReadAt(env, s, fid, node, offset, rounds[0]);
      Before(env, s1, fid, node, offset + (if r.Ok? then |r.value| else 0), rounds[1..], k - 1)
  }

  /** What the file holds at the instant of read `k`. */
  ghost function SeenAt(env: Env, s: State, fid: Fid, node: Node, rounds: seq<Round>, k: nat): Result<bytes>
    requires k < |rounds|
  {
    Computed(env, Run(env, Before(env, s, fid, node, 0, rounds, k), rounds[k].others), node)
  }

  /** Before read `k` nothing was read; from then on the chunks are the file at the instant of read `k`. */
  ghost predicate Untorn(env: Env, s: State, fid: Fid, node: Node, rounds: seq<Round>, k: nat)
  {
    var chunks := Chunks(env, s, fid, node, 0, rounds);
    && |chunks| == |rounds| && k <= |rounds|
    && (forall i :: 0 <= i < k ==> chunks[i].Err? || chunks[i] == Ok([]))
    && (k < |rounds| ==>
          && SeenAt(env, s, fid, node, rounds, k).Ok?
          && chunks[k..] == Cut(SeenAt(env, s, fid, node, rounds, k).value, 0, rounds[k..])
          && chunks[k] != Ok([]))
  }

  lemma {:induction false} ChunkCount(env: Env, s: State, fid: Fid, node: Node, offset: nat, rounds: seq<Round>)
    ensures |Chunks(env, s, fid, node, offset, rounds)| == |rounds|
    decreases |rounds|
  {
    hide ReadAt;
    if rounds != [] {
      var (s1, r) := ReadAt(env, s, fid, node, offset, rounds[0]);
      ChunkCount(env, s1, fid, node, offset + (if r.Ok? then |r.value| else 0), rounds[1..]);
    }
  }

  /** A round that reads nothing leaves the rest of the story to the later rounds. */
  lemma LaterUntorn(env: Env, s: State, fid: Fid, node: Node, rounds: seq<Round>, k: nat)
    requires rounds != []
    requires var (s1, r) := ReadAt(env, s, fid, node, 0, rounds[0]);
             (r.Err? || r == Ok([])) && Untorn(env, s1, fid, node, rounds[1..], k)
    ensures Untorn(env, s, fid, node, rounds, k + 1)
  {
    hide ReadAt, Run, Computed;
    var (s1, r) := ReadAt(env, s, fid, node, 0, rounds[0]);
    var chunks, later := Chunks(env, s, fid, node, 0, rounds), Chunks(env, s1, fid, node, 0, rounds[1..]);
    assert chunks == [r] + later;
    assert chunks[k + 1..] == later[k..] && rounds[k + 1..] == rounds[1..][k..];
  }

  lemma {:induction false} HandleUntorn(
      env: Env, s: State, fid: Fid, node: Node, mode: OpenMode, rounds: seq<Round>) returns (k: nat)
    requires K.CollisionFree(env.hashing) && Inv(env, s) && fid != ROOT && Fair(env, s, fid, node, 0, rounds)
    requires fid in s.fids && Reading(s, fid, node, mode, s.fids[fid].snapshot)
    ensures Untorn(env, s, fid, node, rounds, k)
    decreases |rounds|
  {
    hide Inv, NeverWraps, Run, Computed;
    if rounds == [] { return 0; }
    OthersKeepReader(env, s, rounds[0].others, fid, node, mode, s.fids[fid].snapshot);
    var s0 := Run(env, s, rounds[0].others);
    var (s1, r) := ReadAt(env, s, fid, node, 0, rounds[0]);
    ReadStepKeeps(env, s0, fid, node, 0, rounds[0].count);
    if r.Err? || r == Ok([]) {
      k := HandleUntorn(env, s1, fid, node, mode, rounds[1..]);
      LaterUntorn(env, s, fid, node, rounds, k);
      k := k + 1;
    } else {
      var content := Computed(env, s0, node).value;
      LaterChunks(env, s1, fid, node, mode, content, |r.value|, rounds[1..]);
      ChunkCount(env, s, fid, node, 0, rounds);
      assert rounds[0..] == rounds;
      k := 0;
    }
  }

  lemma {:induction false} RootUntorn(env: Env, s: State, rounds: seq<Round>) returns (k: nat)
    ensures Untorn(env, s, ROOT, Root, rounds, k)
    decreases |rounds|
  {
    hide Run, Computed;
    if rounds == [] { return 0; }
    RootShown(env, Run(env, s, rounds[0].others));
    var (s1, r) := ReadAt(env, s, ROOT, Root, 0, rounds[0]);
    if r == Ok([]) {
      k := RootUntorn(env, s1, rounds[1..]);
      LaterUntorn(env, s, ROOT, Root, rounds, k);
      k := k + 1;
    } else {
      RootChunks(env, s, 0, rounds);
      ChunkCount(env, s, ROOT, Root, 0, rounds);
      assert rounds[0..] == rounds;
      k := 0;
    }
  }

  /**
   * A reader that starts at offset 0 and advances by what it gets sees one instant of the file:
   * up to some read it gets nothing, and from there on the chunks are the content at the moment
   * of that read, cut to the requested sizes, whatever other clients do in between. Reads of no
   * bytes, of an empty file and of one that cannot be shown only put that instant off.
   */
  lemma UntornReads(env: Env, s: State, fid: Fid, node: Node, rounds: seq<Round>) returns (k: nat)
    requires K.CollisionFree(env.hashing) && Inv(env, s)
    requires BeginRead(env, s, fid) == Ok(FromDocument(node)) && Fair(env, s, fid, node, 0, rounds)
    ensures Untorn(env, s, fid, node, rounds, k)
  {
    hide Inv, Fair, Untorn, MaterializedTape;
    if fid == ROOT { k := RootUntorn(env, s, rounds); }
    else { k := HandleUntorn(env, s, fid, node, s.fids[fid].mode.value, rounds); }
  }

  function Joined(chunks: seq<Result<bytes>>): bytes
  {
    if chunks == [] then [] else (if chunks[0].Ok? then chunks[0].value else []) + Joined(chunks[1..])
  }

  /** Chunks always concatenate to a prefix, and to everything once a wanted chunk comes back empty. */
  lemma {:induction false} CutWhole(content: bytes, offset: nat, rounds: seq<Round>)
    requires offset <= |content|
    ensures |Cut(content, offset, rounds)| == |rounds|
    ensures var j := Joined(Cut(content, offset, rounds));
            offset + |j| <= |content| && j == content[offset..offset + |j|]
    ensures (exists i :: 0 <= i < |rounds| && rounds[i].count > 0 && Cut(content, offset, rounds)[i] == Ok([])) ==>
              Joined(Cut(content, offset, rounds)) == content[offset..]
    decreases |rounds|
  {
    if rounds != [] {
      var chunk := Slice(content, offset, rounds[0].count);
      var rest := Cut(content, offset + |chunk|, rounds[1..]);
      CutWhole(content, offset + |chunk|, rounds[1..]);
      assert Joined(Cut(content, offset, rounds)) == chunk + Joined(rest);
      if i :| 0 <= i < |rounds| && rounds[i].count > 0 && Cut(content, offset, rounds)[i] == Ok([]) {
        if i > 0 { assert rounds[1..][i - 1].count > 0 && rest[i - 1] == Ok([]); }
      }
    }
  }

  lemma {:induction false} JoinedSkips(chunks: seq<Result<bytes>>, k: nat)
    requires k <= |chunks| && forall i :: 0 <= i < k ==> chunks[i].Err? || chunks[i] == Ok([])
    ensures Joined(chunks) == Joined(chunks[k..])
    decreases k
  {
    if k == 0 {
      assert chunks[0..] == chunks;
    } else {
      assert chunks[1..][k - 1..] == chunks[k..];
      JoinedSkips(chunks[1..], k - 1);
    }
  }

  /**
   * Concatenated, the chunks are a prefix of the file as it was at one read, and the whole of it
   * once a later read that asks for bytes comes back empty; or nothing at all was read.
   */
  lemma UntornWhole(env: Env, s: State, fid: Fid, node: Node, rounds: seq<Round>) returns (k: nat)
    requires K.CollisionFree(env.hashing) && Inv(env, s)
    requires BeginRead(env, s, fid) == Ok(FromDocument(node)) && Fair(env, s, fid, node, 0, rounds)
    ensures var chunks := Chunks(env, s, fid, node, 0, rounds);
            && |chunks| == |rounds| && k <= |rounds|
            && (k == |rounds| ==> Joined(chunks) == [])
            && (k < |rounds| ==>
                  && SeenAt(env, s, fid, node, rounds, k).Ok?
                  && var content := SeenAt(env, s, fid, node, rounds, k).value;
                  && Joined(chunks) <= content
                  && ((exists i :: k <= i < |rounds| && rounds[i].count > 0 && chunks[i] == Ok([])) ==>
                    Joined(chunks) == content))
  {
    hide Inv, Run, Computed, Fair, Chunks, Cut, Joined, SeenAt;
    k := UntornReads(env, s, fid, node, rounds);
    var chunks := Chunks(env, s, fid, node, 0, rounds);
    JoinedSkips(chunks, k);
    if k < |rounds| {
      var content := SeenAt(env, s, fid, node, rounds, k).value;
      CutWhole(content, 0, rounds[k..]);
      assert content[0..] == content;
      if i :| k <= i < |rounds| && rounds[i].count > 0 && chunks[i] == Ok([]) {
        assert rounds[k..][i - k].count > 0 && chunks[k..][i - k] == Ok([]);
      }
    } else {
      JoinedNothing();
    }
  }

  lemma JoinedNothing()
    ensures Joined([]) == []
  {
  }
}
