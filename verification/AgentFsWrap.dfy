/** Where request ids can repeat: a restored id at the 64-bit limit makes the next clone wrap. */
module AgentFsWrap {
  import opened Bytes
  import opened AgentFs
  import opened AgentFsCore

  lemma RestoredIndexOf(n: nat)
    ensures RestoredIndex(RequestId(n)) == if n < U64_LIMIT - 1 then Some(n) else None
  {
    hide ParseUnsigned, Decimal, Codes;
    var id := RequestId(n);
    assert id[0] == 'r' && id[1..] == Decimal(n);
    DecimalParses(n);
  }

  lemma RunSnoc(env: Env, start: State, ops: seq<Op>, op: Op)
    ensures Run(env, start, ops + [op]) == Apply(env, Run(env, start, ops), op)
  {
    hide Apply;
    assert (ops + [op])[..|ops|] == ops;
  }

  predicate Unopened(s: State, fid: Fid)
  {
    fid != ROOT && fid in s.fids && s.fids[fid].node == RequestsClone && s.fids[fid].mode.None?
  }

  lemma CloneOpens(env: Env, s: State, fid: Fid)
    requires Unopened(s, fid)
    ensures var s1 := Apply(env, s, Open(fid, ReadWrite));
            && s1.requests == s.requests[RequestId(s.nextRequest) := NEW_REQUEST]
            && s1.nextRequest == (s.nextRequest + 1) % U64_LIMIT
            && forall f :: f != fid && Unopened(s, f) ==> Unopened(s1, f)
  {
    hide PathOf, Render, RequestId, QidOf, Computed, CloneAction, NodeKey;
  }

  lemma RestoreInserts(env: Env, s: State, n: nat, kind: bytes)
    requires kind != [] && |kind| <= MAX_DOC_BYTES && n < U64_LIMIT - 1 && RequestId(n) !in s.requests &&
             n >= s.nextRequest
    ensures var s1 := Apply(env, s, Restore(RequestId(n), kind, [], []));
            && s1.requests == s.requests[RequestId(n) := Request(kind, [], [], Pending, [])]
            && s1.nextRequest == n + 1 && s1.fids == s.fids
  {
    hide PathOf, Render, RequestId, RestoredIndex;
    RestoredIndexOf(n);
  }

  lemma WalkBinds(env: Env, s: State, fid: Fid)
    requires fid != ROOT && fid !in s.fids
    ensures var s1 := Apply(env, s, Walk(ROOT, fid, ["requests", "clone"]));
            && s1.requests == s.requests && s1.nextRequest == s.nextRequest && Unopened(s1, fid)
            && s1.fids == s.fids[fid := At(RequestsClone)]
            && forall f :: Unopened(s, f) ==> Unopened(s1, f)
  {
    hide QidOf;
    assert Descend(s, Root, ["requests", "clone"]) == Ok(RequestsClone) by {
      assert ["requests", "clone"][1..] == ["clone"] && ["clone"][1..] == [];
      assert Child(s, Root, "requests") == Ok(RequestsDir) && Child(s, RequestsDir, "clone") == Ok(RequestsClone);
      assert Descend(s, RequestsClone, []) == Ok(RequestsClone);
      assert Descend(s, RequestsDir, ["clone"]) == Ok(RequestsClone);
    }
  }

  lemma {:induction false} RunAppend(env: Env, start: State, a: seq<Op>, b: seq<Op>)
    ensures Run(env, start, a + b) == Run(env, Run(env, start, a), b)
    decreases |b|
  {
    hide Apply;
    if b == [] {
      assert a + b == a;
    } else {
      var c, op := b[..|b| - 1], b[|b| - 1];
      RunAppend(env, start, a, c);
      RunSnoc(env, start, a + c, op);
      assert (a + c) + [op] == a + b;
    }
  }

  /** With the request counter at the 64-bit limit, two clones overwrite any request `r0`. */
  lemma WrappedClonesOverwrite(env: Env, s: State)
    requires s.nextRequest == U64_LIMIT - 1 && 1 !in s.fids && 2 !in s.fids
    ensures var walks := [Walk(ROOT, 1, ["requests", "clone"]), Walk(ROOT, 2, ["requests", "clone"])];
            var s1 := Run(env, s, walks + [Open(1, ReadWrite), Open(2, ReadWrite)]);
            RequestId(0) in s1.requests && s1.requests[RequestId(0)] == NEW_REQUEST
  {
    hide Apply, RequestId, Run, Unopened;
    var w1, w2 := Walk(ROOT, 1, ["requests", "clone"]), Walk(ROOT, 2, ["requests", "clone"]);
    var p1, p2 := Open(1, ReadWrite), Open(2, ReadWrite);
    assert [] + [w1] == [w1] && [w1] + [w2] == [w1, w2] && [w1, w2] + [p1] == [w1, w2, p1];
    assert [w1, w2, p1] + [p2] == [w1, w2] + [p1, p2];
    RunEmpty(env, s);
    RunSnoc(env, s, [], w1);
    WalkBinds(env, s, 1);
    RunSnoc(env, s, [w1], w2);
    WalkBinds(env, Apply(env, s, w1), 2);
    RunSnoc(env, s, [w1, w2], p1);
    CloneOpens(env, Run(env, s, [w1, w2]), 1);
    RunSnoc(env, s, [w1, w2, p1], p2);
    CloneOpens(env, Run(env, s, [w1, w2, p1]), 2);
  }

  /**
   * A run of six requests on a new server after which request `r0` has been silently replaced:
   * restore `r0`, restore the largest admissible id, and clone twice.
   */
  lemma WrapReusesId(env: Env, start: State)
    requires start.requests == map[] && start.nextRequest == 0 && 1 !in start.fids && 2 !in start.fids
    ensures var restores := [Restore(RequestId(0), [1], [], []), Restore(RequestId(U64_LIMIT - 2), [1], [], [])];
            var walks := [Walk(ROOT, 1, ["requests", "clone"]), Walk(ROOT, 2, ["requests", "clone"])];
            var ops := restores + (walks + [Open(1, ReadWrite), Open(2, ReadWrite)]);
            && RequestId(0) in Run(env, start, restores).requests
            && Run(env, start, restores).requests[RequestId(0)] == Request([1], [], [], Pending, [])
            && RequestId(0) in Run(env, start, ops).requests
            && Run(env, start, ops).requests[RequestId(0)] == NEW_REQUEST
  {
    hide Apply, RequestId, Run;
    var o1, o2 := Restore(RequestId(0), [1], [], []), Restore(RequestId(U64_LIMIT - 2), [1], [], []);
    var walks := [Walk(ROOT, 1, ["requests", "clone"]), Walk(ROOT, 2, ["requests", "clone"])];
    IdsDistinct(0, U64_LIMIT - 2);
    RunEmpty(env, start);
    RunSnoc(env, start, [], o1);
    RestoreInserts(env, start, 0, [1]);
    RunSnoc(env, start, [o1], o2);
    RestoreInserts(env, Apply(env, start, o1), U64_LIMIT - 2, [1]);
    assert [] + [o1] == [o1] && [o1] + [o2] == [o1, o2];
    WrappedClonesOverwrite(env, Run(env, start, [o1, o2]));
    RunAppend(env, start, [o1, o2], walks + [Open(1, ReadWrite), Open(2, ReadWrite)]);
  }

  lemma RunEmpty(env: Env, start: State)
    ensures Run(env, start, []) == start
  {}
}
