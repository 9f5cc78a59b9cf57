/** What the owning runtime's own calls give: restored requests and published documents. */
module AgentFsProjection {
  import opened Bytes
  import Utf8
  import K = Knowledge
  import opened AgentFs
  import opened AgentFsCore
  import opened AgentFsInvariant
  import V = AgentFsVersions
  import G = AgentFsGuarantees
  import W = AgentFsWrap

  /** A request id below the 64-bit limit, a kind, and texts of at most one mebibyte. */
  ghost predicate Restorable(id: string, kind: bytes, prompt: bytes, options: bytes)
  {
    && (exists n: nat :: n < U64_LIMIT - 1 && id == "r" + Decimal(n))
    && 0 < |kind| <= 1_048_576 && |prompt| <= 1_048_576 && |options| <= 1_048_576
  }

  ghost predicate ShowsRequest(env: Env, s: State, id: string, kind: bytes, prompt: bytes, options: bytes)
  {
    && Computed(env, s, RequestField(id, ReqKind)) == Ok(kind)
    && Computed(env, s, RequestField(id, ReqPrompt)) == Ok(prompt)
    && Computed(env, s, RequestField(id, ReqOptions)) == Ok(options)
  }

  lemma RestorableIndex(id: string)
    ensures RestoredIndex(id).Some? <==> exists n: nat :: n < U64_LIMIT - 1 && id == "r" + Decimal(n)
    ensures RestoredIndex(id).Some? ==> id == RequestId(RestoredIndex(id).value)
  {
    hide ParseUnsigned, Codes, Decimal;
    forall n: nat | n < U64_LIMIT - 1 && id == "r" + Decimal(n) ensures RestoredIndex(id).Some? {
      W.RestoredIndexOf(n);
    }
  }

  /**
   * A restore succeeds iff it is well formed and the id is free or already shows the same texts. A
   * free id becomes a pending request that shows them; in any other case nothing changes.
   */
  ghost predicate Restores(
      env: Env, s: State, id: string, kind: bytes, prompt: bytes, options: bytes, s1: State, r: Result<()>)
  {
    && (r.Ok? <==> Restorable(id, kind, prompt, options)
                   && (id in s.requests ==> ShowsRequest(env, s, id, kind, prompt, options)))
    && (r.Ok? ==> ShowsRequest(env, s1, id, kind, prompt, options))
    && if r.Ok? && id !in s.requests
       then id in s1.requests && s1.requests == s.requests[id := s1.requests[id]]
            && Computed(env, s1, RequestField(id, ReqStatus)) == Ok(Utf8.Encode("pending"))
            && Computed(env, s1, RequestField(id, ReqResponse)) == Ok([])
            && s1.actions == s.actions && s1.fids == s.fids && s1.knowledge == s.knowledge
       else s1 == s
  }

  lemma RestoreGives(env: Env, s: State, id: string, kind: bytes, prompt: bytes, options: bytes)
    requires G.InOrder(env, s)
    ensures var (s1, r) := RestoreStep(env, s, id, kind, prompt, options);
            G.InOrder(env, s1) && Restores(env, s, id, kind, prompt, options, s1, r)
  {
    hide G.InOrder, RestoreStep, Utf8.Encode, RestoredIndex, Restorable, ShowsRequest, Computed;
    G.RestoreStays(env, s, id, kind, prompt, options);
    RestoreStored(env, s, id, kind, prompt, options);
    RequestShown(env, s, id, kind, prompt, options);
    RequestShown(env, RestoreStep(env, s, id, kind, prompt, options).0, id, kind, prompt, options);
  }

  lemma RestoreStored(env: Env, s: State, id: string, kind: bytes, prompt: bytes, options: bytes)
    ensures var (s1, r) := RestoreStep(env, s, id, kind, prompt, options);
            && (r.Ok? <==> Restorable(id, kind, prompt, options)
                           && (id in s.requests ==> Holds(s.requests[id], kind, prompt, options)))
            && (if r.Ok? && id !in s.requests
                then s1.requests == s.requests[id := Request(kind, prompt, options, Pending, [])]
                     && s1.actions == s.actions && s1.fids == s.fids && s1.knowledge == s.knowledge
                else s1 == s)
  {
    hide RestoredIndex, Render, PathOf, Decimal;
    RestorableIndex(id);
  }

  predicate Holds(r: Request, kind: bytes, prompt: bytes, options: bytes)
  {
    r.kind == kind && r.prompt == prompt && r.options == options
  }

  lemma RequestShown(env: Env, s: State, id: string, kind: bytes, prompt: bytes, options: bytes)
    ensures id in s.requests ==>
              var r := s.requests[id];
              && (ShowsRequest(env, s, id, kind, prompt, options) <==> Holds(r, kind, prompt, options))
              && (r.status == Pending ==> Computed(env, s, RequestField(id, ReqStatus)) == Ok(Utf8.Encode("pending")))
              && Computed(env, s, RequestField(id, ReqResponse)) == Ok(r.response)
  {
    hide Utf8.Encode, Listing, K.ReadRoot, OutputRootName;
  }

  /**
   * A document is published iff it is an object of at most one mebibyte; its file then shows it and
   * every other file shows what it did. A refusal changes nothing.
   */
  ghost predicate Published(env: Env, s: State, file: Node, isObject: bool, document: bytes, s1: State, r: Result<()>)
  {
    && r == (if isObject && |document| <= 1_048_576 then Ok(()) else Err(BadRequest))
    && (r.Err? ==> s1 == s) && s1.fids == s.fids
    && forall n :: Computed(env, s, n).Ok? ==>
         Computed(env, s1, n) == if r.Ok? && n == file then Ok(document) else Computed(env, s, n)
  }

  lemma EvaluationPublished(env: Env, s: State, isObject: bool, document: bytes)
    requires G.InOrder(env, s)
    ensures var (s1, r) := PublishEvaluationStep(env, s, isObject, document);
            G.InOrder(env, s1) && Published(env, s, Evaluation, isObject, document, s1, r)
  {
    hide G.InOrder, PublishEvaluationStep, Computed, Apply, Wraps, EffectOf, V.Touched;
    G.PublishStays(env, s, isObject, document);
    EvaluationStored(env, s, isObject, document);
    var s1 := PublishEvaluationStep(env, s, isObject, document).0;
    RuntimeFiles(env, s);
    RuntimeFiles(env, s1);
    forall n | Computed(env, s, n).Ok? && n != Evaluation ensures Computed(env, s1, n) == Computed(env, s, n) {
      G.OthersShow(env, s, Op.PublishEvaluation(isObject, document), n);
    }
  }

  lemma EvaluationStored(env: Env, s: State, isObject: bool, document: bytes)
    ensures var (s1, r) := PublishEvaluationStep(env, s, isObject, document);
            var op := Op.PublishEvaluation(isObject, document);
            && r == (if isObject && |document| <= 1_048_576 then Ok(()) else Err(BadRequest))
            && (r.Err? ==> s1 == s) && s1.fids == s.fids && s1.evaluation == (if r.Ok? then document else s.evaluation)
            && Apply(env, s, op) == s1 && !Wraps(env, s, op)
            && forall n :: n in V.Touched(CoreOf(s), EffectOf(env, s, op)) ==> n == Evaluation
  {
    hide Render, PathOf;
  }

  lemma WorkPublished(env: Env, s: State, isObject: bool, document: bytes)
    requires G.InOrder(env, s)
    ensures var (s1, r) := PublishWorkStep(env, s, isObject, document);
            G.InOrder(env, s1) && Published(env, s, Work, isObject, document, s1, r)
  {
    hide G.InOrder, PublishWorkStep, Computed, Apply, Wraps, EffectOf, V.Touched;
    G.PublishStays(env, s, isObject, document);
    WorkStored(env, s, isObject, document);
    var s1 := PublishWorkStep(env, s, isObject, document).0;
    RuntimeFiles(env, s);
    RuntimeFiles(env, s1);
    forall n | Computed(env, s, n).Ok? && n != Work ensures Computed(env, s1, n) == Computed(env, s, n) {
      G.OthersShow(env, s, Op.PublishWork(isObject, document), n);
    }
  }

  lemma WorkStored(env: Env, s: State, isObject: bool, document: bytes)
    ensures var (s1, r) := PublishWorkStep(env, s, isObject, document);
            var op := Op.PublishWork(isObject, document);
            && r == (if isObject && |document| <= 1_048_576 then Ok(()) else Err(BadRequest))
            && (r.Err? ==> s1 == s) && s1.fids == s.fids && s1.work == (if r.Ok? then document else s.work)
            && Apply(env, s, op) == s1 && !Wraps(env, s, op)
            && forall n :: n in V.Touched(CoreOf(s), EffectOf(env, s, op)) ==> n == Work
  {
    hide Render, PathOf;
  }

  lemma RuntimeFiles(env: Env, s: State)
    ensures Computed(env, s, Evaluation) == Ok(s.evaluation) && Computed(env, s, Work) == Ok(s.work)
  {
  }
}
