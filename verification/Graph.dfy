// The adjudication graph (graph/build_graph.py, graph/nodes.py, graph/state.py): agent nodes behind
// an error-catching wrapper, a router, and three terminal nodes over an append-only trace.

module Graph {
  import opened Prelude
  import opened CostMeter
  import opened Agents
  import Rag

  // ===== State and updates ================================================================

  datatype Disposition = AutoApproved | AutoDenied | Escalated

  datatype AgentError = AgentError(node: string, message: string)

  /** The graph state; `trace` and `errors` only ever grow. */
  datatype GraphState = GraphState(
    facts: Option<Facts>,
    context: Option<PolicyContext>,
    coverage: Option<CoverageOpinion>,
    risk: Option<RiskAssessment>,
    settlement: Option<SettlementProposal>,
    compliance: Option<ComplianceVerdict>,
    disposition: Option<Disposition>,
    trace: seq<StepTrace>,
    errors: seq<AgentError>)

  const INITIAL: GraphState := GraphState(None, None, None, None, None, None, None, [], [])

  function Or<T>(new_: Option<T>, old_: Option<T>): Option<T> {
    if new_.Some? then new_ else old_
  }

  /** Merging a node's partial update into the state: lists append, the other keys replace. */
  function Apply(s: GraphState, u: GraphState): GraphState {
    GraphState(Or(u.facts, s.facts), Or(u.context, s.context), Or(u.coverage, s.coverage), Or(u.risk, s.risk),
               Or(u.settlement, s.settlement), Or(u.compliance, s.compliance), Or(u.disposition, s.disposition),
               s.trace + u.trace, s.errors + u.errors)
  }

  // ===== Environment ======================================================================

  datatype Thresholds = Thresholds(confidence: real, risk: real, maxAuto: real)

  const DEFAULT_THRESHOLDS: Thresholds := Thresholds(0.7, 0.3, 10000.0)

  /** What intake gets out of the narrative, with the calls it paid for on the way. */
  datatype IntakeReply = IntakeReply(calls: seq<Usage>, extraction: Result<Facts, Fault>)

  /** Everything a run does not compute itself. The replies are arbitrary: they may be what an adversary
      picks after seeing the prompts, since every node asks at most once. */
  datatype Env = Env(
    thresholds: Thresholds,
    fnolText: string,
    intake: IntakeReply,
    queryOf: Facts -> string,
    retrieve: string -> Result<Rag.RetrievalResult, Fault>,
    coverageReply: Reply<RawOpinion>,
    riskReply: Reply<RawNumber>,
    settlementReply: Reply<RawSettlement>,
    complianceReply: Reply<RawVerdict>,
    idOrder: set<string> -> seq<string>,
    lower: string -> string,
    history: map<string, ClaimantRecord>,
    latency: string -> real)

  /** Sets are iterated over completely, in some order. */
  ghost predicate ValidEnv(env: Env) {
    forall ids: set<string> :: Enumerates(env.idOrder(ids), ids)
  }

  // ===== What each agent node computes =====================================================

  const INVALID_FACTS: Fault := Fault("validation error for ClaimFacts", false)

  predicate ValidFacts(facts: Facts) {
    facts.claimedAmount >= 0.0 && facts.incidentType != "" && facts.claimant != ""
  }

  /** Intake: the validators of `ClaimFacts` judge whatever was extracted. */
  function IntakeOutcome(env: Env): Outcome<Facts> {
    var extraction := env.intake.extraction;
    Outcome(env.intake.calls,
      if extraction.Ok? && !ValidFacts(extraction.value) then Err(INVALID_FACTS) else extraction)
  }

  predicate StartsAt(text: string, word: string, i: nat) {
    i + |word| <= |text| && text[i..i + |word|] == word
  }

  predicate Contains(text: string, word: string) {
    exists i | 0 <= i <= |text| :: StartsAt(text, word, i)
  }

  predicate SoundsExcluding(lowered: string) {
    Contains(lowered, "exclud") || Contains(lowered, "exclusion") || Contains(lowered, "not cover")
  }

  function ExclusionsOf(lower: string -> string, chunks: seq<Rag.RetrievedChunk>): seq<string> {
    if chunks == [] then []
    else
      var n := |chunks| - 1;
      ExclusionsOf(lower, chunks[..n]) +
      if SoundsExcluding(lower(chunks[n].text)) then [chunks[n].citation.clauseId] else []
  }

  method CollectExclusions(lower: string -> string, chunks: seq<Rag.RetrievedChunk>) returns (exclusions: seq<string>)
    ensures exclusions == ExclusionsOf(lower, chunks)
  {
    exclusions := [];
    for i := 0 to |chunks|
      invariant exclusions == ExclusionsOf(lower, chunks[..i])
    {
      assert chunks[..i + 1][..i] == chunks[..i];
      var lowered := lower(chunks[i].text);
      if SoundsExcluding(lowered) {
        exclusions := exclusions + [chunks[i].citation.clauseId];
      } else {
        assert exclusions + [] == exclusions;
      }
    }
    assert chunks[..|chunks|] == chunks;
  }

  const NO_MATCH: Rag.Citation := Rag.Citation("none", "no-match", "No relevant policy clauses found.")

  function CitationsOf(chunks: seq<Rag.RetrievedChunk>): (r: seq<Rag.Citation>)
    ensures |r| == |chunks| && forall i :: 0 <= i < |chunks| ==> r[i] == chunks[i].citation
  {
    seq(|chunks|, i requires 0 <= i < |chunks| => chunks[i].citation)
  }

  /** The policy context made of a retrieval result: never without a citation. */
  function ContextFrom(lower: string -> string, r: Rag.RetrievalResult): PolicyContext {
    var citations := if r.chunks == [] then [NO_MATCH] else CitationsOf(r.chunks);
    PolicyContext(citations, ExclusionsOf(lower, r.chunks), r.sufficient)
  }

  function RetrievalOutcome(env: Env, facts: Option<Facts>): Outcome<PolicyContext> {
    match env.retrieve(if facts.Some? then env.queryOf(facts.value) else env.fnolText)
    case Err(fault) => Outcome([], Err(fault))
    case Ok(r) => Outcome([], Ok(ContextFrom(env.lower, r)))
  }

  function CoverageOutcome(env: Env, context: PolicyContext): Outcome<CoverageOpinion> {
    Decide(env.lower, context, env.idOrder(ContextIds(context)), env.coverageReply)
  }

  // ===== Nodes ============================================================================

  datatype Node = Intake | PolicyRetrieval | CoverageDecision | FraudRisk | Settlement | Compliance
                | Route | FinalizeAuto | HumanEscalation | ErrorHandler
  {
    function Name(): string {
      match this
      case Intake => "intake"
      case PolicyRetrieval => "policy_retrieval"
      case CoverageDecision => "coverage_decision"
      case FraudRisk => "fraud_risk"
      case Settlement => "settlement"
      case Compliance => "compliance"
      case Route => "route"
      case FinalizeAuto => "finalize_auto"
      case HumanEscalation => "human_escalation"
      case ErrorHandler => "error_handler"
    }

    predicate Agent() {
      Intake? || PolicyRetrieval? || CoverageDecision? || FraudRisk? || Settlement? || Compliance?
    }

    /** How many nodes run before this one, when it runs. */
    function Depth(): nat {
      match this
      case Intake => 0
      case PolicyRetrieval => 1
      case CoverageDecision => 2
      case FraudRisk => 3
      case Settlement => 4
      case Compliance => 5
      case Route => 6
      case FinalizeAuto => 7
      case ErrorHandler => 7
      case HumanEscalation => 8
    }
  }

  /** One LLM call of the run, by the node that made it. */
  datatype Call = Call(node: string, usage: Usage)

  function CallsBy(node: Node, usages: seq<Usage>): (r: seq<Call>)
    ensures |r| == |usages| && forall i :: 0 <= i < |r| ==> r[i] == Call(node.Name(), usages[i])
  {
    seq(|usages|, i requires 0 <= i < |usages| => Call(node.Name(), usages[i]))
  }

  /** What a bare node function does: return an update, raise, or trip one of its assertions. */
  datatype BodyResult = Returned(update: GraphState, usages: seq<Usage>) | Threw(fault: Fault,
      failed: seq<Usage>) | AssertTripped

  function Traced(node: Node, usages: seq<Usage>): GraphState {
    INITIAL.(trace := [StepTrace(node.Name(), Done, TotalPrice(usages), 0.0)])
  }

  function Finish<T>(node: Node, o: Outcome<T>, put: (GraphState, T) -> GraphState): BodyResult {
    match o.result
    case Err(fault) => Threw(fault, o.calls)
    case Ok(value) => Returned(put(Traced(node, o.calls), value), o.calls)
  }

  function NodeBody(env: Env, node: Node, s: GraphState): BodyResult
    requires node.Agent()
  {
    match node
    case Intake => Finish(node, IntakeOutcome(env), (u: GraphState, v) => u.(facts := Some(v)))
    case PolicyRetrieval => Finish(node, RetrievalOutcome(env, s.facts), (u: GraphState, v) => u.(context := Some(v)))
    case CoverageDecision =>
      if s.facts.None? || s.context.None? then AssertTripped
      else Finish(node, CoverageOutcome(env, s.context.value), (u: GraphState, v) => u.(coverage := Some(v)))
    case FraudRisk =>
      if s.facts.None? then AssertTripped
      else Finish(node, Assess(env.history, s.facts.value, env.riskReply), (u: GraphState, v) => u.(risk := Some(v)))
    case Settlement =>
      if s.facts.None? || s.coverage.None? then AssertTripped
      else
        var settled := Settle(s.facts.value, s.coverage.value, env.settlementReply);
        Finish(node, settled, (u: GraphState, v) => u.(settlement := Some(v)))
    case Compliance =>
      if s.facts.None? || s.context.None? || s.coverage.None? || s.settlement.None? then AssertTripped
      else Finish(node, Review(env.complianceReply), (u: GraphState, v) => u.(compliance := Some(v)))
  }

  // ===== The wrappers =====================================================================

  datatype Crash = EmptyMessage(node: string) | Assertion(node: string)

  /** Executing a wrapped node: an update, or an exception that leaves the graph. */
  datatype Performed = Performed(update: GraphState, calls: seq<Call>) | Broke(crash: Crash, lost: seq<Call>)

  /** `AgentError` insists on a message, so recording an untyped exception without one raises. */
  predicate Unrecordable(fault: Fault) {
    !fault.typed && fault.message == ""
  }

  /** Sets the latency of the last step an update carries. */
  function PatchLatency(u: GraphState, latency: real): GraphState {
    if u.trace == [] then u
    else u.(trace := u.trace[|u.trace| - 1 := u.trace[|u.trace| - 1].(latency := latency)])
  }

  function FailureOf(node: Node, fault: Fault): GraphState {
    INITIAL.(trace := [StepTrace(node.Name(), Failed(fault.message), 0.0, 0.0)],
             errors := [AgentError(node.Name(), fault.message)])
  }

  /** `_safe`: skip after an error, turn an exception into an error and a trace entry, patch the latency. */
  function Safe(env: Env, node: Node, s: GraphState): Performed
    requires node.Agent()
  {
    if s.errors != [] then Performed(INITIAL.(trace := [StepTrace(node.Name(), Skipped, 0.0, 0.0)]), [])
    else
      match NodeBody(env, node, s)
      case AssertTripped => Broke(Assertion(node.Name()), [])
      case Threw(fault, failed) =>
        if Unrecordable(fault) then Broke(EmptyMessage(node.Name()), CallsBy(node, failed))
        else Performed(PatchLatency(FailureOf(node, fault), env.latency(node.Name())), CallsBy(node, failed))
      case Returned(update, usages) =>
        Performed(PatchLatency(update, env.latency(node.Name())), CallsBy(node, usages))
  }

  /** What a wrapped agent leaves in the trace: one step of its own, skipped without latency exactly after an
      earlier error, failed exactly when it records an error, and with its measured latency otherwise. */
  ghost predicate RecordsOneStep(env: Env, node: Node, s: GraphState, u: GraphState) {
    && |u.trace| == 1 && u.trace[0].node == node.Name()
    && (u.trace[0].outcome.Skipped? <==> s.errors != [])
    && u.trace[0].latency == (if s.errors != [] then 0.0 else env.latency(node.Name()))
    && (u.trace[0].outcome.Failed? <==> u.errors != [])
    && (u.errors != [] ==> u.errors == [AgentError(node.Name(), u.trace[0].outcome.message)])
    && u.disposition.None?
  }

  /** The wrapper as it runs: a result is assigned on either way out, and patched before it is returned. It
      records one step and calls nothing after an error; it lets an exception out only if an assertion
      tripped or the message is missing. */
  method SafeWrapper(env: Env, node: Node, s: GraphState) returns (p: Performed)
    requires node.Agent()
    ensures p.Performed? ==> RecordsOneStep(env, node, s, p.update) && (s.errors != [] ==> p.calls == [])
    ensures p.Broke? <==>
      && s.errors == []
      && (NodeBody(env, node, s).AssertTripped?
          || (NodeBody(env, node, s).Threw? && Unrecordable(NodeBody(env, node, s).fault)))
    ensures p == Safe(env, node, s)
  {
    if s.errors != [] {
      return Performed(INITIAL.(trace := [StepTrace(node.Name(), Skipped, 0.0, 0.0)]), []);
    }
    var result := INITIAL;
    var calls := [];
    match NodeBody(env, node, s) {
      case AssertTripped => return Broke(Assertion(node.Name()), []);
      case Threw(fault, failed) =>
        calls := CallsBy(node, failed);
        if Unrecordable(fault) {
          return Broke(EmptyMessage(node.Name()), calls);
        }
        result := result.(errors := [AgentError(node.Name(), fault.message)]);
        result := result.(trace := [StepTrace(node.Name(), Failed(fault.message), 0.0, 0.0)]);
      case Returned(update, usages) =>
        result, calls := update, CallsBy(node, usages);
    }
    result := PatchLatency(result, env.latency(node.Name()));
    p := Performed(result, calls);
  }

  /** The disposition `route` picks. */
  function Disposed(t: Thresholds, s: GraphState): Disposition {
    if s.errors != [] then Escalated
    else if s.coverage.Some? && s.risk.Some? && s.settlement.Some? && s.compliance.Some?
      && s.coverage.value.confidence >= t.confidence && s.risk.value.score <= t.risk
      && s.settlement.value.payable <= t.maxAuto && s.compliance.value.passed
    then if s.coverage.value.decision == Denied then AutoDenied else AutoApproved
    else Escalated
  }

  /** `_timed`: the routing and terminal nodes, with their latency. */
  function Timed(env: Env, node: Node, s: GraphState): Performed
    requires !node.Agent()
  {
    var done := Traced(node, []);
    var update :=
      match node
      case Route => done.(disposition := Some(Disposed(env.thresholds, s)))
      case FinalizeAuto => done
      case _ => done.(disposition := Some(Escalated));
    Performed(PatchLatency(update, env.latency(node.Name())), [])
  }

  function Perform(env: Env, node: Node, s: GraphState): Performed {
    if node.Agent() then Safe(env, node, s) else Timed(env, node, s)
  }

  // ===== Edges and runs ===================================================================

  function RouteDecision(s: GraphState): Node {
    if s.errors != [] then ErrorHandler
    else if s.disposition.Some? && !s.disposition.value.Escalated? then FinalizeAuto
    else HumanEscalation
  }

  /** The edge taken out of a node, if it is not the end. */
  function Next(node: Node, s: GraphState): (r: Option<Node>)
    ensures r.Some? ==> r.value.Depth() > node.Depth()
  {
    match node
    case Intake => Some(PolicyRetrieval)
    case PolicyRetrieval => Some(CoverageDecision)
    case CoverageDecision => Some(FraudRisk)
    case FraudRisk => Some(Settlement)
    case Settlement => Some(Compliance)
    case Compliance => Some(Route)
    case Route => Some(RouteDecision(s))
    case ErrorHandler => Some(HumanEscalation)
    case FinalizeAuto => None
    case HumanEscalation => None
  }

  /** A run: the state after each node, the exception that ended it early if any, and all LLM calls. */
  datatype Run = Run(states: seq<GraphState>, crash: Option<Crash>, calls: seq<Call>)

  // `env` in the measure keeps the verifier from unrolling whole runs on literal nodes.
  function RunFrom(env: Env, node: Node, s: GraphState): Run
    decreases 9 - node.Depth(), env
  {
    match Perform(env, node, s)
    case Broke(crash, lost) => Run([], Some(crash), lost)
    case Performed(update, calls) =>
      var s' := Apply(s, update);
      match Next(node, s')
      case None => Run([s'], None, calls)
      case Some(next) =>
        var rest := RunFrom(env, next, s');
        Run([s'] + rest.states, rest.crash, calls + rest.calls)
  }

  function RunGraph(env: Env): Run {
    RunFrom(env, Intake, INITIAL)
  }

  function Final(run: Run): GraphState
    requires run.states != []
  {
    run.states[|run.states| - 1]
  }
}
