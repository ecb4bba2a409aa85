// The claims that span the whole system: from an ingested document to a cited clause, and from the router's
// thresholds to what the API stores.

module EndToEnd {
  import opened Prelude
  import opened Chunker
  import opened CostMeter
  import opened Agents
  import opened Graph
  import opened GraphTheorems
  import Rag
  import RagTheorems
  import L = Lifecycle
  import LT = LifecycleTheorems
  import ApiWorker
  import ExactlyOnce

  // ===== Retrieval inside the graph =========================================================

  function RagFault(e: Rag.RagError): Fault {
    match e
    case NotReady => Fault("Pipeline has not ingested a corpus yet.", false)
    case InvalidChunk(id) => Fault("validation error for " + id, false)
  }

  ghost function FromRag(r: Result<Rag.RetrievalResult, Rag.RagError>): Result<Rag.RetrievalResult, Fault> {
    if r.Ok? then Ok(r.value) else Err(RagFault(r.error))
  }

  /** The policy-retrieval node asks a pipeline that has ingested `corpus`. */
  ghost predicate AsksPipeline(env: Env, corpus: seq<SourceDoc>, config: Rag.RagConfig, p: Rag.Providers) {
    && Rag.CorpusEnds(corpus, config)
    && Rag.ChunkMap(Rag.Indexed(corpus, config))
    && forall query: string ::
         env.retrieve(query) == FromRag(Rag.RetrieveSpec(config, p, Rag.Indexed(corpus, config), query, None, None))
  }

  /** Some document of the corpus, when chunked, yields this chunk under this id. */
  ghost predicate Produced(corpus: seq<SourceDoc>, config: Rag.RagConfig, id: string, ch: Chunk)
    requires Rag.CorpusEnds(corpus, config)
  {
    ch.clauseId == id
    && exists i :: 0 <= i < |corpus| && ch in ChunksOf(corpus[i], config.chunkTokens, config.chunkOverlap)
  }

  lemma AskedPipeline(env: Env, corpus: seq<SourceDoc>, config: Rag.RagConfig, p: Rag.Providers, query: string)
    requires AsksPipeline(env, corpus, config, p)
    ensures env.retrieve(query) == FromRag(Rag.RetrieveSpec(config, p, Rag.Indexed(corpus, config), query, None, None))
  {
  }

  /** A failing pipeline is recorded, not crashed on: its exceptions have messages. */
  lemma PipelineFaultsNamed(env: Env, corpus: seq<SourceDoc>, config: Rag.RagConfig, p: Rag.Providers, query: string)
    requires AsksPipeline(env, corpus, config, p) && env.retrieve(query).Err?
    ensures !Unrecordable(env.retrieve(query).error)
  {
    AskedPipeline(env, corpus, config, p, query);
  }

  ghost predicate Known(chunks: Dict<Chunk>, r: Rag.RetrievalResult) {
    forall i :: 0 <= i < |r.chunks| ==> r.chunks[i].citation.clauseId in chunks.m
  }

  /** What the pipeline answers names known chunks, and an empty answer does not suffice. */
  lemma AnswersKnown(env: Env, corpus: seq<SourceDoc>, config: Rag.RagConfig, p: Rag.Providers, query: string,
      r: Rag.RetrievalResult)
    requires AsksPipeline(env, corpus, config, p) && env.retrieve(query) == Ok(r)
    ensures Known(Rag.Indexed(corpus, config), r) && (r.sufficient ==> r.chunks != [])
  {
    var chunks := Rag.Indexed(corpus, config);
    AskedPipeline(env, corpus, config, p, query);
    GroundedAnswer(config, p, chunks, query, r);
  }

  lemma GroundedAnswer(config: Rag.RagConfig, p: Rag.Providers, chunks: Dict<Chunk>, query: string,
      r: Rag.RetrievalResult)
    requires Rag.ChunkMap(chunks) && Rag.RetrieveSpec(config, p, chunks, query, None, None) == Ok(r)
    ensures Known(chunks, r) && (r.sufficient ==> r.chunks != [])
  {
    RagTheorems.RetrievalGrounded(config, p, chunks, query, None, None);
    forall i | 0 <= i < |r.chunks| ensures r.chunks[i].citation.clauseId in chunks.m {
      assert RagTheorems.Quotes(chunks.m, r.chunks[i]);
    }
  }

  /** The context of a decided adjudication is made of one answer of the retriever. */
  lemma ContextSource(env: Env) returns (r: Rag.RetrievalResult)
    requires Adjudicate(env).Decided?
    ensures
      var a := Adjudicate(env);
      env.retrieve(env.queryOf(a.facts)) == Ok(r) && a.context == ContextFrom(env.lower, r)
  {
    r := env.retrieve(env.queryOf(Adjudicate(env).facts)).value;
  }

  lemma ContextIdsKnown(lower: string -> string, chunks: Dict<Chunk>, r: Rag.RetrievalResult)
    requires Known(chunks, r) && r.chunks != []
    ensures ContextIds(ContextFrom(lower, r)) <= chunks.m.Keys
  {
    var context := ContextFrom(lower, r);
    forall i | 0 <= i < |context.citations| ensures context.citations[i].clauseId in chunks.m {
      assert context.citations[i] == r.chunks[i].citation;
    }
  }

  /** Grounding chain: whatever the LLM says, an automatic disposition under a confidence threshold above
      0.1 rests on an opinion that cites at least one clause, and every clause it cites is in the pipeline's
      chunk map, put there by chunking an ingested document. */
  lemma GroundingChain(env: Env, corpus: seq<SourceDoc>, config: Rag.RagConfig, p: Rag.Providers)
    requires ValidEnv(env) && AsksPipeline(env, corpus, config, p)
    requires RunGraph(env).crash.None? && RunGraph(env).states != [] && Auto(Final(RunGraph(env)))
    requires env.thresholds.confidence > CONFIDENCE_UNGROUNDED
    ensures
      var s, chunks := Final(RunGraph(env)), Rag.Indexed(corpus, config);
      && s.coverage.Some? && s.coverage.value.citations != []
      && forall i :: 0 <= i < |s.coverage.value.citations| ==>
           var id := s.coverage.value.citations[i].clauseId;
           id in chunks.m && Produced(corpus, config, id, chunks.m[id])
  {
    RunRefines(env);
    DecidedParts(env);
    var a, chunks := Adjudicate(env), Rag.Indexed(corpus, config);
    var r := ContextSource(env);
    AnswersKnown(env, corpus, config, p, env.queryOf(a.facts), r);
    ContextIdsKnown(env.lower, chunks, r);
    forall i | 0 <= i < |a.coverage.citations|
      ensures
        var id := a.coverage.citations[i].clauseId;
        id in chunks.m && Produced(corpus, config, id, chunks.m[id])
    {
      assert a.coverage.citations[i].clauseId in ContextIds(a.context);
      Rag.IndexedProvenance(corpus, config, a.coverage.citations[i].clauseId);
    }
  }

  /** The in-memory set-up: the default retrieval settings, documents the model accepts, the identity
      reranker. */
  ghost predicate InMemoryDefaults(env: Env, corpus: seq<SourceDoc>, p: Rag.Providers) {
    && AsksPipeline(env, corpus, Rag.DEFAULT_CONFIG, p)
    && (forall i :: 0 <= i < |corpus| ==> RagTheorems.ValidSource(corpus[i]))
    && RagTheorems.IdentityReranker(p.rerank)
  }

  lemma NeverSufficient(env: Env, corpus: seq<SourceDoc>, p: Rag.Providers, query: string, r: Rag.RetrievalResult)
    requires InMemoryDefaults(env, corpus, p) && env.retrieve(query) == Ok(r)
    ensures !r.sufficient
  {
    AskedPipeline(env, corpus, Rag.DEFAULT_CONFIG, p, query);
    RagTheorems.IndexedIsNamed(corpus, Rag.DEFAULT_CONFIG);
    RagTheorems.DefaultNeverSufficient(p, Rag.Indexed(corpus, Rag.DEFAULT_CONFIG), query, None, None);
  }

  /** In the in-memory set-up with the default retrieval settings, no context ever suffices, so no run is
      decided automatically under any confidence threshold above 0.1 (the default is 0.7): every completed
      run escalates. */
  lemma DefaultsAlwaysEscalate(env: Env, corpus: seq<SourceDoc>, p: Rag.Providers)
    requires ValidEnv(env) && InMemoryDefaults(env, corpus, p)
    requires env.thresholds.confidence > CONFIDENCE_UNGROUNDED && RunGraph(env).crash.None?
    ensures RunGraph(env).states != [] && Final(RunGraph(env)).disposition == Some(Escalated)
  {
    RunRefines(env);
    if Adjudicate(env).Decided? {
      DecidedParts(env);
      var r := ContextSource(env);
      NeverSufficient(env, corpus, p, env.queryOf(Adjudicate(env).facts), r);
    }
  }

  // ===== Graph runs inside the protocol =====================================================

  /** What streaming the graph yields: the input state first, then the state after each node. */
  function Streamed(env: Env): seq<GraphState> {
    [INITIAL] + RunGraph(env).states
  }

  function GraphResult(env: Env): L.RunResult {
    ApiWorker.ResultOf(Streamed(env), RunGraph(env).crash.Some?)
  }

  /** A graph run gives the worker what the protocol expects: a result whose steps are the events the worker
      publishes, and which fails exactly when the graph crashes. */
  lemma GraphRunsFit(env: Env)
    ensures L.StepsOf(GraphResult(env)) == Published(Streamed(env), 0)
    ensures if RunGraph(env).crash.Some? then GraphResult(env).Fails?
            else RunGraph(env).states != []
                 && GraphResult(env) == L.Finished(Final(RunGraph(env)).trace, Final(RunGraph(env)).disposition)
  {
    var stream := Streamed(env);
    RunRefines(env);
    RunGrows(env, Intake, INITIAL);
    assert stream[1..] == RunGraph(env).states && stream[0] == INITIAL;
    ApiWorker.HandledIsSettled(stream, RunGraph(env).crash.Some?, false);
    if RunGraph(env).crash.None? {
      assert stream[|stream| - 1] == Final(RunGraph(env));
    }
  }

  /** The worker runs the graph, in environments of some kind. */
  ghost predicate RunsGraph(cfg: L.Config, kind: Env -> bool) {
    forall r :: cfg.legal(r) ==> exists env :: kind(env) && ValidEnv(env) && r == GraphResult(env)
  }

  /** A torn timeout can hurt every completed run of the graph: it has at least eight steps, and the first can be
      sent twice. */
  lemma GraphRunsCanRepeat(cfg: L.Config, env: Env)
    requires cfg.legal(GraphResult(env)) && RunGraph(env).crash.None?
    ensures GraphResult(env).Finished? && |GraphResult(env).trace| >= 8
    ensures ExactlyOnce.CanGoWrong(cfg, GraphResult(env)) <==> !cfg.atomic
  {
    GraphRunsFit(env);
    RunHasEightSteps(env);
    ExactlyOnce.TornTimeoutExactly(cfg, GraphResult(env));
  }

  /** A stored trace and disposition come from this run of the graph, which did not crash. */
  ghost predicate StoredFrom(r: L.Record, env: Env) {
    && RunGraph(env).crash.None? && RunGraph(env).states != []
    && r.trace == Final(RunGraph(env)).trace && r.disposition == Final(RunGraph(env)).disposition
  }

  /** The run was decided automatically: without errors, meeting all four thresholds, paying nothing if
      denied, and with every token accounted for in its trace. */
  ghost predicate DecidedAutomatically(env: Env) {
    && RunGraph(env).crash.None? && RunGraph(env).states != []
    && var s := Final(RunGraph(env));
       && Auto(s) && s.errors == []
       && s.coverage.Some? && s.coverage.value.confidence >= env.thresholds.confidence
       && s.risk.Some? && s.risk.value.score <= env.thresholds.risk
       && s.settlement.Some? && s.settlement.value.payable <= env.thresholds.maxAuto
       && s.compliance.Some? && s.compliance.value.passed
       && (s.disposition == Some(AutoDenied) ==> s.settlement.value.payable == 0.0)
       && TotalCost(s.trace) == Spent(RunGraph(env).calls)
  }

  lemma AutoIsSafe(env: Env)
    requires ValidEnv(env) && RunGraph(env).crash.None? && RunGraph(env).states != [] && Auto(Final(RunGraph(env)))
    ensures DecidedAutomatically(env)
  {
    AutoSafety(env);
    CostConserved(env);
  }

  lemma UnescalatedIsAutomatic(env: Env)
    requires ValidEnv(env) && RunGraph(env).crash.None? && RunGraph(env).states != []
    requires Final(RunGraph(env)).disposition != Some(Escalated)
    ensures DecidedAutomatically(env)
  {
    AlwaysDisposed(env);
    AutoIsSafe(env);
  }

  lemma FinishedFrom(env: Env, r: L.Record)
    requires GraphResult(env) == L.Finished(r.trace, r.disposition)
    ensures StoredFrom(r, env)
  {
    GraphRunsFit(env);
  }

  /** A record completed without a human, in any state of any run of the whole system, was decided
      automatically by a run of the graph, whose trace and disposition it stores. */
  lemma CompletedWithoutHuman(cfg: L.Config, kind: Env -> bool, init: L.State, actions: seq<L.Action>, id: L.Id)
    requires RunsGraph(cfg, kind) && L.Initial(init) && L.Runs(cfg, init, actions)
    requires
      var st := L.Reach(cfg, init, actions);
      id in st.store && st.store[id].status == L.Completed && st.store[id].human.None?
    ensures
      var r := L.Reach(cfg, init, actions).store[id];
      exists env :: kind(env) && ValidEnv(env) && StoredFrom(r, env) && DecidedAutomatically(env)
  {
    var st := L.Reach(cfg, init, actions);
    LT.DispositionsExplained(cfg, init, actions, id);
    var run := st.history.runs[id];
    var env :| kind(env) && ValidEnv(env) && run == GraphResult(env);
    FinishedFrom(env, st.store[id]);
    UnescalatedIsAutomatic(env);
  }

  /** With the in-memory defaults, nothing is ever completed without a human decision, in any run of the
      whole system. */
  lemma DefaultsNeedHumans(cfg: L.Config, kind: Env -> bool, corpus: seq<SourceDoc>, p: Rag.Providers,
                           init: L.State, actions: seq<L.Action>, id: L.Id)
    requires RunsGraph(cfg, kind) && L.Initial(init) && L.Runs(cfg, init, actions)
    requires forall env :: kind(env) ==> InMemoryDefaults(env, corpus, p) && env.thresholds == DEFAULT_THRESHOLDS
    requires id in L.Reach(cfg, init, actions).store
    ensures
      var r := L.Reach(cfg, init, actions).store[id];
      r.status == L.Completed ==> r.human.Some?
  {
    var r := L.Reach(cfg, init, actions).store[id];
    if r.status == L.Completed && r.human.None? {
      CompletedWithoutHuman(cfg, kind, init, actions, id);
      var env :| kind(env) && ValidEnv(env) && StoredFrom(r, env) && DecidedAutomatically(env);
      DefaultsAlwaysEscalate(env, corpus, p);
    }
  }
}
