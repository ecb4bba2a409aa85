// What every run of the adjudication graph promises, whatever the LLM says.

module GraphTheorems {
  import opened Prelude
  import opened CostMeter
  import opened Agents
  import opened Graph
  import Rag

  // ===== The graph computes the composition of the agents =================================

  /** The adjudication in direct style: one agent after the other, stopping at the first fault, with the
      calls the stopping agent had paid for. */
  datatype Adjudication =
    | Stuck(node: Node, fault: Fault, spent: seq<Usage>)
    | Decided(facts: Facts, context: PolicyContext, coverage: CoverageOpinion, risk: RiskAssessment,
              settlement: SettlementProposal, compliance: ComplianceVerdict)

  function Adjudicate(env: Env): Adjudication {
    var f := IntakeOutcome(env);
    if f.result.Err? then Stuck(Intake, f.result.error, f.calls) else
    var p := RetrievalOutcome(env, Some(f.result.value));
    if p.result.Err? then Stuck(PolicyRetrieval, p.result.error, p.calls) else
    var c := CoverageOutcome(env, p.result.value);
    if c.result.Err? then Stuck(CoverageDecision, c.result.error, c.calls) else
    var r := Assess(env.history, f.result.value, env.riskReply);
    if r.result.Err? then Stuck(FraudRisk, r.result.error, r.calls) else
    var s := Settle(f.result.value, c.result.value, env.settlementReply);
    if s.result.Err? then Stuck(Settlement, s.result.error, s.calls) else
    var v := Review(env.complianceReply);
    if v.result.Err? then Stuck(Compliance, v.result.error, v.calls) else
    Decided(f.result.value, p.result.value, c.result.value, r.result.value, s.result.value, v.result.value)
  }

  /** All four thresholds met. */
  predicate Qualifies(t: Thresholds, a: Adjudication) {
    a.Decided? && a.coverage.confidence >= t.confidence && a.risk.score <= t.risk
    && a.settlement.payable <= t.maxAuto && a.compliance.passed
  }

  function DispositionOf(t: Thresholds, a: Adjudication): Disposition {
    if !Qualifies(t, a) then Escalated
    else if a.coverage.decision == Denied then AutoDenied else AutoApproved
  }

  const AGENTS: seq<string> :=
    ["intake", "policy_retrieval", "coverage_decision", "fraud_risk", "settlement", "compliance"]

  /** The nodes a run visits after the agents. */
  function Tail(t: Thresholds, a: Adjudication): seq<string> {
    if a.Stuck? then ["route", "error_handler", "human_escalation"]
    else if Qualifies(t, a) then ["route", "finalize_auto"]
    else ["route", "human_escalation"]
  }

  /** How node `i` of a run ended: done before a fault, failed at it, skipped after it until the router. */
  function OutcomeAt(a: Adjudication, i: nat): StepOutcome {
    if a.Decided? || i < a.node.Depth() || i >= 6 then Done
    else if i == a.node.Depth() then Failed(a.fault.message)
    else Skipped
  }

  ghost predicate Shows(a: Adjudication, trace: seq<StepTrace>, names: seq<string>) {
    && |trace| == |names|
    && forall i :: 0 <= i < |trace| ==> trace[i].node == names[i] && trace[i].outcome == OutcomeAt(a, i)
  }

  /** The final state a completed run must have. */
  ghost predicate Concludes(env: Env, s: GraphState) {
    var a := Adjudicate(env);
    && Shows(a, s.trace, AGENTS + Tail(env.thresholds, a))
    && s.disposition == Some(DispositionOf(env.thresholds, a))
    && match a
       case Stuck(node, fault, _) => s.errors == [AgentError(node.Name(), fault.message)]
       case Decided(f, p, c, r, st, v) =>
         && s.errors == []
         && s.facts == Some(f) && s.context == Some(p) && s.coverage == Some(c)
         && s.risk == Some(r) && s.settlement == Some(st) && s.compliance == Some(v)
  }

  // ----- Invariant ------------------------------------------------------------------------

  /** The first `n` agents have succeeded and the state holds what they computed. */
  ghost predicate Computed(env: Env, n: nat, s: GraphState) {
    && (n > 0 ==> s.facts.Some? && IntakeOutcome(env).result == Ok(s.facts.value))
    && (n > 1 ==> s.context.Some? && RetrievalOutcome(env, s.facts).result == Ok(s.context.value))
    && (n > 2 ==> s.coverage.Some? && CoverageOutcome(env, s.context.value).result == Ok(s.coverage.value))
    && (n > 3 ==> s.risk.Some? && Assess(env.history, s.facts.value, env.riskReply).result == Ok(s.risk.value))
    && (n > 4 ==>
          && s.settlement.Some?
          && Settle(s.facts.value, s.coverage.value, env.settlementReply).result == Ok(s.settlement.value))
    && (n > 5 ==> s.compliance.Some? && Review(env.complianceReply).result == Ok(s.compliance.value))
  }

  /** No agent among the first `n` has failed. */
  predicate Survives(a: Adjudication, n: nat) {
    a.Decided? || a.node.Depth() >= n
  }

  /** The state when the first `n` agents have had their turn. */
  ghost predicate Agreed(env: Env, n: nat, s: GraphState) {
    var a := Adjudicate(env);
    if Survives(a, n) then s.errors == [] && Computed(env, n, s)
    else !Unrecordable(a.fault) && s.errors == [AgentError(a.node.Name(), a.fault.message)]
  }

  ghost predicate Ready(env: Env, node: Node, s: GraphState) {
    var a := Adjudicate(env);
    if node.Agent() || node == Route then
      && Agreed(env, node.Depth(), s)
      && Shows(a, s.trace, AGENTS[..node.Depth()])
    else
      && Agreed(env, 6, s)
      && s.disposition == Some(DispositionOf(env.thresholds, a))
      && match node
         case FinalizeAuto => Qualifies(env.thresholds, a) && Shows(a, s.trace, AGENTS + ["route"])
         case ErrorHandler => a.Stuck? && Shows(a, s.trace, AGENTS + ["route"])
         case _ =>
           if a.Stuck? then Shows(a, s.trace, AGENTS + ["route", "error_handler"])
           else !Qualifies(env.thresholds, a) && Shows(a, s.trace, AGENTS + ["route"])
  }

  lemma StuckIsAgent(env: Env)
    ensures Adjudicate(env).Stuck? ==> Adjudicate(env).node.Agent()
  {
  }

  /** An agent's turn after `n` successes: its body runs past its assertions, and fails exactly when
      the adjudication gets stuck there. */
  lemma BodyAgrees(env: Env, node: Node, s: GraphState)
    requires node.Agent() && Survives(Adjudicate(env), node.Depth()) && Computed(env, node.Depth(), s)
    ensures
      var a := Adjudicate(env);
      match NodeBody(env, node, s)
      case AssertTripped => false
      case Threw(fault, failed) => a == Stuck(node, fault, failed)
      case Returned(u, usages) =>
        && Survives(a, node.Depth() + 1) && Computed(env, node.Depth() + 1, Apply(s, u))
        && u.errors == [] && u.trace == [StepTrace(node.Name(), Done, TotalPrice(usages), 0.0)]
  {
    match node
    case Intake =>
    case PolicyRetrieval =>
    case CoverageDecision =>
    case FraudRisk =>
    case Settlement =>
    case Compliance =>
  }

  lemma ShowsStep(a: Adjudication, trace: seq<StepTrace>, names: seq<string>, step: StepTrace, name: string)
    requires Shows(a, trace, names) && step.node == name && step.outcome == OutcomeAt(a, |trace|)
    ensures Shows(a, trace + [step], names + [name])
  {
  }

  /** Latencies play no part in what has been computed. */
  lemma PatchKeeps(env: Env, n: nat, s: GraphState, u: GraphState, latency: real)
    ensures Computed(env, n, Apply(s, PatchLatency(u, latency))) == Computed(env, n, Apply(s, u))
  {
  }

  /** A node's update records one step, with the outcome the adjudication dictates. */
  ghost predicate Records(a: Adjudication, node: Node, at: nat, u: GraphState) {
    |u.trace| == 1 && u.trace[0].node == node.Name() && u.trace[0].outcome == OutcomeAt(a, at)
  }

  lemma AgentPerforms(env: Env, node: Node, s: GraphState)
    requires node.Agent() && Agreed(env, node.Depth(), s)
    ensures
      var a := Adjudicate(env);
      match Perform(env, node, s)
      case Broke(crash, _) => a.Stuck? && Unrecordable(a.fault) && crash == EmptyMessage(a.node.Name())
      case Performed(u, _) => Agreed(env, node.Depth() + 1, Apply(s, u)) && Records(a, node, node.Depth(), u)
  {
    StuckIsAgent(env);
    if Survives(Adjudicate(env), node.Depth()) {
      BodyAgrees(env, node, s);
      if NodeBody(env, node, s).Returned? {
        PatchKeeps(env, node.Depth() + 1, s, NodeBody(env, node, s).update, env.latency(node.Name()));
      }
    }
  }

  lemma AgentEdge(node: Node, s: GraphState)
    requires node.Agent()
    ensures Next(node, s).Some? && Next(node, s).value.Depth() == node.Depth() + 1
    ensures Next(node, s).value.Agent() || Next(node, s).value == Route
    ensures AGENTS[..node.Depth()] + [node.Name()] == AGENTS[..node.Depth() + 1]
  {
  }

  lemma AgentStep(env: Env, node: Node, s: GraphState)
    requires node.Agent() && Ready(env, node, s) && Perform(env, node, s).Performed?
    ensures
      var s' := Apply(s, Perform(env, node, s).update);
      Next(node, s').Some? && Ready(env, Next(node, s').value, s')
  {
    AgentPerforms(env, node, s);
    var u := Perform(env, node, s).update;
    AgentEdge(node, Apply(s, u));
    assert u.trace == [u.trace[0]];
    ShowsStep(Adjudicate(env), s.trace, AGENTS[..node.Depth()], u.trace[0], node.Name());
  }

  /** The router sees what the adjudication decided. */
  lemma RouterAgrees(env: Env, s: GraphState)
    requires Agreed(env, 6, s)
    ensures Disposed(env.thresholds, s) == DispositionOf(env.thresholds, Adjudicate(env))
    ensures s.errors != [] <==> Adjudicate(env).Stuck?
  {
    StuckIsAgent(env);
  }

  /** Neither routing nor a terminal node touches what the agents agreed on. */
  lemma TimedKeeps(env: Env, node: Node, s: GraphState, at: nat)
    requires !node.Agent() && Agreed(env, 6, s) && at >= 6
    ensures
      var u := Perform(env, node, s).update;
      Perform(env, node, s).Performed? && Agreed(env, 6, Apply(s, u)) && Records(Adjudicate(env), node, at, u)
  {
  }

  lemma RouteStep(env: Env, s: GraphState)
    requires Ready(env, Route, s)
    ensures
      var s' := Apply(s, Perform(env, Route, s).update);
      Next(Route, s').Some? && Ready(env, Next(Route, s').value, s')
  {
    RouterAgrees(env, s);
    TimedKeeps(env, Route, s, 6);
    var u := Perform(env, Route, s).update;
    RouterAgrees(env, Apply(s, u));
    assert u.trace == [u.trace[0]];
    ShowsStep(Adjudicate(env), s.trace, AGENTS, u.trace[0], "route");
  }

  lemma HandlerStep(env: Env, s: GraphState)
    requires Ready(env, ErrorHandler, s)
    ensures Ready(env, HumanEscalation, Apply(s, Perform(env, ErrorHandler, s).update))
  {
    TimedKeeps(env, ErrorHandler, s, 7);
    var u := Perform(env, ErrorHandler, s).update;
    assert u.trace == [u.trace[0]];
    ShowsStep(Adjudicate(env), s.trace, AGENTS + ["route"], u.trace[0], "error_handler");
    assert AGENTS + ["route"] + ["error_handler"] == AGENTS + ["route", "error_handler"];
  }

  lemma LastStep(env: Env, node: Node, s: GraphState)
    requires Ready(env, node, s) && (node == FinalizeAuto || node == HumanEscalation)
    ensures Concludes(env, Apply(s, Perform(env, node, s).update))
  {
    TimedKeeps(env, node, s, |s.trace|);
    var u, a := Perform(env, node, s).update, Adjudicate(env);
    assert u.trace == [u.trace[0]];
    var names := if a.Stuck? then AGENTS + ["route", "error_handler"] else AGENTS + ["route"];
    ShowsStep(a, s.trace, names, u.trace[0], node.Name());
    assert names + [node.Name()] == AGENTS + Tail(env.thresholds, a);
    AgreedFields(env, Apply(s, u));
  }

  lemma AgreedFields(env: Env, s: GraphState)
    requires Agreed(env, 6, s)
    ensures match Adjudicate(env)
      case Stuck(node, fault, _) => s.errors == [AgentError(node.Name(), fault.message)]
      case Decided(f, p, c, r, st, v) =>
        && s.errors == []
        && s.facts == Some(f) && s.context == Some(p) && s.coverage == Some(c)
        && s.risk == Some(r) && s.settlement == Some(st) && s.compliance == Some(v)
  {
    StuckIsAgent(env);
  }

  /** How a run ends: as the adjudication dictates, crashing exactly on a fault that cannot be recorded. */
  ghost predicate Ends(env: Env, run: Run) {
    var a := Adjudicate(env);
    if a.Stuck? && Unrecordable(a.fault) then run.crash == Some(EmptyMessage(a.node.Name()))
    else run.crash == None && run.states != [] && Concludes(env, Final(run))
  }

  /** A run whose first node is followed by another: that node's state and calls, then the rest. */
  lemma RunUnfolds(env: Env, node: Node, s: GraphState)
    requires Perform(env, node, s).Performed?
    requires Next(node, Apply(s, Perform(env, node, s).update)).Some?
    ensures
      var p := Perform(env, node, s);
      var s' := Apply(s, p.update);
      var rest, run := RunFrom(env, Next(node, s').value, s'), RunFrom(env, node, s);
      && run == Run([s'] + rest.states, rest.crash, p.calls + rest.calls)
      && (rest.states != [] ==> Final(run) == Final(rest))
  {
  }

  /** A step followed by a run that ends well is a run that ends well. */
  lemma EndsStep(env: Env, node: Node, s: GraphState)
    requires Perform(env, node, s).Performed?
    requires
      var s' := Apply(s, Perform(env, node, s).update);
      Next(node, s').Some? && Ends(env, RunFrom(env, Next(node, s').value, s'))
    ensures Ends(env, RunFrom(env, node, s))
  {
    RunUnfolds(env, node, s);
  }

  lemma {:induction false} RunEnds(env: Env, node: Node, s: GraphState)
    requires Ready(env, node, s)
    ensures Ends(env, RunFrom(env, node, s))
    decreases 9 - node.Depth()
  {
    if node.Agent() {
      AgentPerforms(env, node, s);
      if Perform(env, node, s).Performed? {
        var s' := Apply(s, Perform(env, node, s).update);
        AgentStep(env, node, s);
        RunEnds(env, Next(node, s').value, s');
        EndsStep(env, node, s);
      }
    } else if node == Route {
      var s' := Apply(s, Perform(env, node, s).update);
      RouteStep(env, s);
      RunEnds(env, Next(node, s').value, s');
      EndsStep(env, node, s);
    } else if node == ErrorHandler {
      HandlerStep(env, s);
      RunEnds(env, HumanEscalation, Apply(s, Perform(env, ErrorHandler, s).update));
      EndsStep(env, node, s);
    } else {
      LastStep(env, node, s);
    }
  }

  /** Refinement: however the nodes, wrappers, reducers and edges interleave, a run of the graph ends in
      the state the direct composition of the agents dictates, and no node ever trips an assertion. It
      crashes exactly when the first fault is an untyped exception without a message. */
  lemma RunRefines(env: Env)
    ensures Ends(env, RunGraph(env))
  {
    assert AGENTS[..0] == [];
    RunEnds(env, Intake, INITIAL);
  }

  // ===== Run shape ========================================================================

  function NodeNames(trace: seq<StepTrace>): (r: seq<string>)
    ensures |r| == |trace| && forall i :: 0 <= i < |r| ==> r[i] == trace[i].node
  {
    seq(|trace|, i requires 0 <= i < |trace| => trace[i].node)
  }

  /** Every run that completes visits one of exactly three node sequences, of 8 or 9 nodes, records at
      most one error, and is escalated whenever there is one. */
  lemma RunShape(env: Env)
    requires RunGraph(env).crash.None?
    ensures RunGraph(env).states != []
    ensures
      var s := Final(RunGraph(env));
      && (NodeNames(s.trace) == AGENTS + ["route", "finalize_auto"]
          || NodeNames(s.trace) == AGENTS + ["route", "human_escalation"]
          || NodeNames(s.trace) == AGENTS + ["route", "error_handler", "human_escalation"])
      && |s.errors| <= 1
      && (s.errors != [] <==> |s.trace| == 9)
      && (s.errors != [] ==> s.disposition == Some(Escalated))
      && s.disposition.Some?
  {
    RunRefines(env);
    var s, a := Final(RunGraph(env)), Adjudicate(env);
    assert NodeNames(s.trace) == AGENTS + Tail(env.thresholds, a);
  }

  lemma RunHasEightSteps(env: Env)
    requires RunGraph(env).crash.None?
    ensures RunGraph(env).states != [] && |Final(RunGraph(env)).trace| >= 8
  {
    RunRefines(env);
  }

  /** No run trips an assertion, and a run crashes exactly when the first fault is an untyped exception
      without a message. */
  lemma CrashExactly(env: Env)
    ensures RunGraph(env).crash.Some? <==>
      Adjudicate(env).Stuck? && !Adjudicate(env).fault.typed && Adjudicate(env).fault.message == ""
    ensures RunGraph(env).crash.Some? ==> RunGraph(env).crash == Some(EmptyMessage(Adjudicate(env).node.Name()))
  {
    RunRefines(env);
  }

  // ===== The policy context ================================================================

  /** The exclusions of a context are the clauses whose text sounds like one. */
  lemma {:induction false} ExclusionsExactly(lower: string -> string, chunks: seq<Rag.RetrievedChunk>, id: string)
    ensures id in ExclusionsOf(lower, chunks) <==>
      exists i :: 0 <= i < |chunks| && chunks[i].citation.clauseId == id && SoundsExcluding(lower(chunks[i].text))
  {
    if chunks != [] {
      var n := |chunks| - 1;
      ExclusionsExactly(lower, chunks[..n], id);
      assert forall i :: 0 <= i < n ==> chunks[..n][i] == chunks[i];
    }
  }

  // ===== Streaming ========================================================================

  ghost predicate Extends(before: GraphState, after: GraphState) {
    |after.trace| == |before.trace| + 1 && before.trace <= after.trace && before.errors <= after.errors
  }

  /** Each state extends the previous one's trace by one step and keeps its errors. */
  ghost predicate Grows(s: GraphState, states: seq<GraphState>)
    decreases |states|
  {
    states == [] || (Extends(s, states[0]) && Grows(states[0], states[1..]))
  }

  lemma OneStepEach(env: Env, node: Node, s: GraphState)
    requires Perform(env, node, s).Performed?
    ensures |Perform(env, node, s).update.trace| == 1
  {
  }

  lemma {:induction false} RunGrows(env: Env, node: Node, s: GraphState)
    ensures Grows(s, RunFrom(env, node, s).states)
    decreases 9 - node.Depth()
  {
    if Perform(env, node, s).Performed? {
      OneStepEach(env, node, s);
      var s' := Apply(s, Perform(env, node, s).update);
      assert Extends(s, s');
      if Next(node, s').Some? {
        var rest := RunFrom(env, Next(node, s').value, s').states;
        RunGrows(env, Next(node, s').value, s');
        assert ([s'] + rest)[1..] == rest;
      }
    }
  }

  /** What a consumer of the run's states publishes: the trace entries it has not seen yet. */
  function Published(states: seq<GraphState>, seen: nat): seq<StepTrace> {
    if states == [] then []
    else Unseen(states[0].trace, seen) + Published(states[1..], |states[0].trace|)
  }

  /** `trace[seen:]` */
  function Unseen(trace: seq<StepTrace>, seen: nat): seq<StepTrace> {
    if seen <= |trace| then trace[seen..] else []
  }

  lemma {:induction false} GrowsPublished(s: GraphState, states: seq<GraphState>)
    requires Grows(s, states) && states != []
    ensures s.trace + Published(states, |s.trace|) == states[|states| - 1].trace
    decreases |states|
  {
    var unseen := states[0].trace[|s.trace|..];
    assert s.trace + unseen == states[0].trace;
    if |states| > 1 {
      GrowsPublished(states[0], states[1..]);
      ConcatAssoc(s.trace, unseen, Published(states[1..], |states[0].trace|));
    } else {
      assert states[1..] == [];
      assert unseen + [] == unseen;
    }
  }

  /** The worker's bookkeeping loses and repeats nothing: publishing, for each streamed state, the entries
      past the last length seen publishes exactly the final trace. */
  lemma StreamsFinalTrace(env: Env)
    requires RunGraph(env).states != []
    ensures Published(RunGraph(env).states, 0) == Final(RunGraph(env)).trace
  {
    RunGrows(env, Intake, INITIAL);
    GrowsPublished(INITIAL, RunGraph(env).states);
    var p := Published(RunGraph(env).states, 0);
    assert [] + p == p;
  }

  // ===== Latency ==========================================================================

  /** Every step carries its own node's latency, and a skipped one none. */
  ghost predicate TimedRight(env: Env, trace: seq<StepTrace>) {
    forall i :: 0 <= i < |trace| ==>
      trace[i].latency == if trace[i].outcome.Skipped? then 0.0 else env.latency(trace[i].node)
  }

  lemma SafeRecords(env: Env, node: Node, s: GraphState)
    requires node.Agent() && Safe(env, node, s).Performed?
    ensures RecordsOneStep(env, node, s, Safe(env, node, s).update)
  {
  }

  lemma TimedRecords(env: Env, node: Node, s: GraphState)
    requires !node.Agent()
    ensures
      var trace := Timed(env, node, s).update.trace;
      |trace| == 1 && trace[0].node == node.Name() && trace[0].outcome == Done
      && trace[0].latency == env.latency(node.Name())
  {
  }

  lemma StepTimedRight(env: Env, node: Node, s: GraphState)
    requires Perform(env, node, s).Performed?
    ensures TimedRight(env, Perform(env, node, s).update.trace)
  {
    if node.Agent() {
      SafeRecords(env, node, s);
    } else {
      TimedRecords(env, node, s);
    }
  }

  lemma {:induction false} RunTimedRight(env: Env, node: Node, s: GraphState)
    requires TimedRight(env, s.trace)
    ensures
      forall i :: 0 <= i < |RunFrom(env, node, s).states| ==>
        TimedRight(env, RunFrom(env, node, s).states[i].trace)
    decreases 9 - node.Depth()
  {
    if Perform(env, node, s).Performed? {
      StepTimedRight(env, node, s);
      var s' := Apply(s, Perform(env, node, s).update);
      assert TimedRight(env, s'.trace);
      if Next(node, s').Some? {
        RunTimedRight(env, Next(node, s').value, s');
        RunUnfolds(env, node, s);
      }
    }
  }

  /** Whatever path a run takes, the latency measured for a node ends up on that node's step. */
  lemma LatenciesInPlace(env: Env)
    requires RunGraph(env).states != []
    ensures TimedRight(env, Final(RunGraph(env)).trace)
  {
    RunTimedRight(env, Intake, INITIAL);
  }

  // ===== Cost =============================================================================

  /** The price of the calls, or of those one node made. */
  function Spent(calls: seq<Call>): real {
    if calls == [] then 0.0 else Spent(calls[..|calls| - 1]) + Price(calls[|calls| - 1].usage)
  }

  function SpentBy(calls: seq<Call>, node: string): real {
    if calls == [] then 0.0
    else
      var n := |calls| - 1;
      SpentBy(calls[..n], node) + if calls[n].node == node then Price(calls[n].usage) else 0.0
  }

  lemma {:induction false} SpentConcat(a: seq<Call>, b: seq<Call>, node: string)
    ensures Spent(a + b) == Spent(a) + Spent(b)
    ensures SpentBy(a + b, node) == SpentBy(a, node) + SpentBy(b, node)
  {
    if b == [] {
      assert a + b == a;
    } else {
      assert (a + b)[..|a + b| - 1] == a + b[..|b| - 1];
      SpentConcat(a, b[..|b| - 1], node);
    }
  }

  lemma {:induction false} SpentOnce(node: Node, usages: seq<Usage>, other: string)
    ensures Spent(CallsBy(node, usages)) == TotalPrice(usages)
    ensures SpentBy(CallsBy(node, usages), other) == if other == node.Name() then TotalPrice(usages) else 0.0
  {
    if usages != [] {
      var n := |usages| - 1;
      assert CallsBy(node, usages)[..n] == CallsBy(node, usages[..n]);
      SpentOnce(node, usages[..n], other);
    }
  }

  function FailedNode(s: GraphState): Option<string> {
    if s.errors == [] then None else Some(s.errors[0].node)
  }

  function LostBy(calls: seq<Call>, failed: Option<string>): real {
    if failed.None? then 0.0 else SpentBy(calls, failed.value)
  }

  ghost predicate Idle(node: string, calls: seq<Call>) {
    SpentBy(calls, node) == 0.0
  }

  /** The trace accounts for all calls but the failed node's; nodes from `depth` on have made none. */
  ghost predicate Balanced(s: GraphState, calls: seq<Call>, depth: nat) {
    && TotalCost(s.trace) == Spent(calls) - LostBy(calls, FailedNode(s))
    && (forall n: Node :: n.Depth() >= depth ==> Idle(n.Name(), calls))
    && (s.errors != [] ==> exists n: Node :: n.Depth() < depth && n.Name() == s.errors[0].node)
  }

  lemma NamesDistinct(a: Node, b: Node)
    requires a.Name() == b.Name()
    ensures a == b
  {
    assert |a.Name()| == |b.Name()|;
    assert a.Name()[0] == b.Name()[0];
  }

  lemma SingleCost(step: StepTrace)
    ensures TotalCost([step]) == step.cost
  {
    assert [step][..0] == [] && Total([step][..0], CostOf) == 0.0;
    assert CostOf([step][0]) == step.cost;
  }

  /** A wrapped node records one step, which carries the price of its calls unless it failed. */
  lemma StepForm(env: Env, node: Node, s: GraphState) returns (step: StepTrace, usages: seq<Usage>)
    requires Perform(env, node, s).Performed?
    ensures
      var p := Perform(env, node, s);
      && p.update.trace == [step] && p.calls == CallsBy(node, usages)
      && step.cost == (if p.update.errors == [] then TotalPrice(usages) else 0.0)
      && (p.update.errors != [] ==> s.errors == [] && p.update.errors[0].node == node.Name())
      && (s.errors != [] ==> p.calls == [])
  {
    var p := Perform(env, node, s);
    step := p.update.trace[0];
    if node.Agent() && s.errors == [] {
      match NodeBody(env, node, s)
      case Returned(_, us) => usages := us;
      case Threw(_, us) => usages := us;
    } else {
      usages := [];
    }
  }

  lemma BalancedStep(env: Env, node: Node, s: GraphState, calls: seq<Call>)
    requires Perform(env, node, s).Performed? && Balanced(s, calls, node.Depth())
    ensures
      var p := Perform(env, node, s);
      Balanced(Apply(s, p.update), calls + p.calls, node.Depth() + 1)
  {
    var p := Perform(env, node, s);
    var step, usages := StepForm(env, node, s);
    var s', calls', name := Apply(s, p.update), calls + p.calls, node.Name();
    TotalCostConcat(s.trace, p.update.trace);
    SingleCost(step);
    assert Idle(name, calls);
    SpentOnce(node, usages, name);
    SpentConcat(calls, p.calls, name);
    if s'.errors != [] {
      var failed := s'.errors[0].node;
      SpentOnce(node, usages, failed);
      SpentConcat(calls, p.calls, failed);
    }
    forall n: Node | n.Depth() >= node.Depth() + 1 ensures Idle(n.Name(), calls') {
      if n.Name() == name { NamesDistinct(n, node); }
      assert Idle(n.Name(), calls);
      SpentOnce(node, usages, n.Name());
      SpentConcat(calls, p.calls, n.Name());
    }
  }

  lemma BalancedLater(s: GraphState, calls: seq<Call>, depth: nat, later: nat)
    requires Balanced(s, calls, depth) && depth <= later
    ensures Balanced(s, calls, later)
  {
  }

  lemma {:induction false} RunBalanced(env: Env, node: Node, s: GraphState, calls: seq<Call>)
    requires Balanced(s, calls, node.Depth())
    ensures
      var run := RunFrom(env, node, s);
      run.crash.None? ==> run.states != [] && Balanced(Final(run), calls + run.calls, 9)
    decreases 9 - node.Depth()
  {
    var p := Perform(env, node, s);
    if p.Performed? {
      var s', soFar := Apply(s, p.update), calls + p.calls;
      BalancedStep(env, node, s, calls);
      if Next(node, s').Some? {
        var next := Next(node, s').value;
        BalancedLater(s', soFar, node.Depth() + 1, next.Depth());
        RunBalanced(env, next, s', soFar);
        ConcatAssoc(calls, p.calls, RunFrom(env, next, s').calls);
        RunUnfolds(env, node, s);
      } else {
        BalancedLater(s', soFar, node.Depth() + 1, 9);
      }
    }
  }

  /** Cost conservation: the trace of a completed run costs what all its LLM calls cost, except the calls
      of the node that failed, if one did; so an error-free run accounts for every token. */
  lemma CostConserved(env: Env)
    requires RunGraph(env).crash.None?
    ensures
      var run := RunGraph(env);
      run.states != [] && TotalCost(Final(run).trace) == Spent(run.calls) - LostBy(run.calls, FailedNode(Final(run)))
    ensures
      var run := RunGraph(env);
      run.states != [] && Final(run).errors == [] ==> TotalCost(Final(run).trace) == Spent(run.calls)
  {
    RunBalanced(env, Intake, INITIAL, []);
    var calls := RunGraph(env).calls;
    assert [] + calls == calls;
  }

  /** The calls booked on the node the adjudication is stuck at, once its turn has come. */
  ghost predicate LossBooked(env: Env, s: GraphState, calls: seq<Call>) {
    var a := Adjudicate(env);
    s.errors != [] ==> a.Stuck? && SpentBy(calls, a.node.Name()) == TotalPrice(a.spent)
  }

  /** Before a node's turn: the state is the direct composition's so far, and the calls are accounted for. */
  ghost predicate OnCourse(env: Env, node: Node, s: GraphState, calls: seq<Call>) {
    Ready(env, node, s) && Balanced(s, calls, node.Depth()) && LossBooked(env, s, calls)
  }

  /** After an error no node calls anything. */
  lemma NoMoreCalls(env: Env, node: Node, s: GraphState)
    requires Perform(env, node, s).Performed? && s.errors != []
    ensures Perform(env, node, s).calls == [] && Perform(env, node, s).update.errors == []
  {
  }

  /** The first node to fail is the one the adjudication is stuck at, with the same calls. */
  lemma StuckHere(env: Env, node: Node, s: GraphState)
    requires Ready(env, node, s) && Perform(env, node, s).Performed?
    requires s.errors == [] && Perform(env, node, s).update.errors != []
    ensures
      var a := Adjudicate(env);
      a.Stuck? && a.node == node && Perform(env, node, s).calls == CallsBy(node, a.spent)
  {
    StuckIsAgent(env);
    BodyAgrees(env, node, s);
  }

  /** The agent the adjudication is stuck at fails, and its calls are those of the outcome. */
  lemma LossBegins(env: Env, node: Node, s: GraphState, calls: seq<Call>)
    requires OnCourse(env, node, s, calls) && Perform(env, node, s).Performed?
    requires s.errors == [] && Perform(env, node, s).update.errors != []
    ensures
      var a := Adjudicate(env);
      a.Stuck? && SpentBy(calls + Perform(env, node, s).calls, a.node.Name()) == TotalPrice(a.spent)
  {
    StuckHere(env, node, s);
    assert Idle(node.Name(), calls);
    SpentOnce(node, Adjudicate(env).spent, node.Name());
    SpentConcat(calls, Perform(env, node, s).calls, node.Name());
  }

  lemma LossStep(env: Env, node: Node, s: GraphState, calls: seq<Call>)
    requires OnCourse(env, node, s, calls) && Perform(env, node, s).Performed?
    ensures
      var p := Perform(env, node, s);
      LossBooked(env, Apply(s, p.update), calls + p.calls)
  {
    if s.errors != [] {
      NoMoreCalls(env, node, s);
      assert calls + [] == calls;
    } else if Perform(env, node, s).update.errors != [] {
      LossBegins(env, node, s, calls);
    }
  }

  lemma StaysOnCourse(env: Env, node: Node, s: GraphState, calls: seq<Call>)
    requires OnCourse(env, node, s, calls) && Perform(env, node, s).Performed?
    requires Next(node, Apply(s, Perform(env, node, s).update)).Some?
    ensures
      var p := Perform(env, node, s);
      OnCourse(env, Next(node, Apply(s, p.update)).value, Apply(s, p.update), calls + p.calls)
  {
    var p := Perform(env, node, s);
    var s' := Apply(s, p.update);
    LossStep(env, node, s, calls);
    BalancedStep(env, node, s, calls);
    StaysReady(env, node, s);
    BalancedLater(s', calls + p.calls, node.Depth() + 1, Next(node, s').value.Depth());
  }

  lemma {:induction false} RunBooksLoss(env: Env, node: Node, s: GraphState, calls: seq<Call>)
    requires OnCourse(env, node, s, calls)
    ensures
      var run := RunFrom(env, node, s);
      run.crash.None? && run.states != [] ==> LossBooked(env, Final(run), calls + run.calls)
    decreases 9 - node.Depth()
  {
    var p := Perform(env, node, s);
    if p.Performed? {
      var s', soFar := Apply(s, p.update), calls + p.calls;
      if Next(node, s').Some? {
        var next := Next(node, s').value;
        StaysOnCourse(env, node, s, calls);
        RunBooksLoss(env, next, s', soFar);
        ConcatAssoc(calls, p.calls, RunFrom(env, next, s').calls);
        RunUnfolds(env, node, s);
      } else {
        LossStep(env, node, s, calls);
      }
    }
  }

  /** A step that another one follows leaves the state ready for it. */
  lemma StaysReady(env: Env, node: Node, s: GraphState)
    requires Ready(env, node, s) && Perform(env, node, s).Performed?
    requires Next(node, Apply(s, Perform(env, node, s).update)).Some?
    ensures
      var s' := Apply(s, Perform(env, node, s).update);
      Ready(env, Next(node, s').value, s')
  {
    if node.Agent() {
      AgentStep(env, node, s);
    } else if node == Route {
      RouteStep(env, s);
    } else {
      HandlerStep(env, s);
    }
  }

  /** What an environment loses: the calls of the agent it gets stuck at, if it does. */
  function LossOf(env: Env): real {
    var a := Adjudicate(env);
    if a.Stuck? then TotalPrice(a.spent) else 0.0
  }

  /** The books of a completed run fall short by exactly what the agent it got stuck at had paid for; so they
      balance exactly when no agent gets stuck, or that agent's calls were free. */
  lemma CostLost(env: Env)
    requires RunGraph(env).crash.None?
    ensures RunGraph(env).states != []
    ensures TotalCost(Final(RunGraph(env)).trace) == Spent(RunGraph(env).calls) - LossOf(env)
    ensures TotalCost(Final(RunGraph(env)).trace) == Spent(RunGraph(env).calls) <==>
      Adjudicate(env).Decided? || TotalPrice(Adjudicate(env).spent) == 0.0
  {
    CostConserved(env);
    RunRefines(env);
    RunLoss(env);
  }

  lemma RunLoss(env: Env)
    ensures
      var run := RunGraph(env);
      run.crash.None? && run.states != [] ==> LossBooked(env, Final(run), run.calls)
  {
    assert AGENTS[..0] == [];
    RunBooksLoss(env, Intake, INITIAL, []);
    var calls := RunGraph(env).calls;
    assert [] + calls == calls;
  }

  // ===== Safety of automatic dispositions =================================================

  ghost predicate Auto(s: GraphState) {
    s.disposition == Some(AutoApproved) || s.disposition == Some(AutoDenied)
  }

  /** A completed run has a disposition: escalated, or an automatic one. */
  lemma AlwaysDisposed(env: Env)
    requires RunGraph(env).crash.None?
    ensures RunGraph(env).states != []
    ensures Final(RunGraph(env)).disposition == Some(Escalated) || Auto(Final(RunGraph(env)))
  {
    RunRefines(env);
  }

  lemma DecidedParts(env: Env)
    requires ValidEnv(env) && Adjudicate(env).Decided?
    ensures
      var a := Adjudicate(env);
      && a.facts.claimedAmount >= 0.0
      && ValidProposal(a.settlement)
      && (a.coverage.decision == Denied ==> a.settlement.payable == 0.0)
      && (Flags(env.history, a.facts.claimant) ==> a.risk.score >= 0.4)
      && ValidOpinion(a.coverage) && CitesContext(a.coverage, a.context)
      && (!a.context.sufficient ==> a.coverage.confidence == CONFIDENCE_UNGROUNDED)
      && (|a.context.citations| <= 1 ==> a.coverage.confidence <= CONFIDENCE_CAP_WEAK)
  {
    var a := Adjudicate(env);
    SettleSafe(a.facts, a.coverage, env.settlementReply);
    AssessFloor(env.history, a.facts, env.riskReply);
    DecideGrounded(env.lower, a.context, env.idOrder(ContextIds(a.context)), env.coverageReply);
  }

  /** Auto-disposition safety, for all LLM answers: a run is decided automatically exactly when it has no
      error and meets all four thresholds, and then the payable amount is within any positive limit;
      an automatic denial pays nothing; a claimant whose name is the key of a flagged record is not decided
      automatically under a risk threshold below 0.4, nor a context of at most one citation under a confidence
      threshold above 0.6, nor an insufficient context under one above 0.1. */
  lemma AutoSafety(env: Env)
    requires ValidEnv(env) && RunGraph(env).crash.None?
    ensures RunGraph(env).states != []
    ensures
      var s, t := Final(RunGraph(env)), env.thresholds;
      && (Auto(s) <==>
            && s.errors == []
            && s.coverage.Some? && s.risk.Some? && s.settlement.Some? && s.compliance.Some?
            && s.coverage.value.confidence >= t.confidence && s.risk.value.score <= t.risk
            && s.settlement.value.payable <= t.maxAuto && s.compliance.value.passed)
      && (Auto(s) ==>
            && s.facts.Some? && s.context.Some?
            && ValidProposal(s.settlement.value)
            && (s.disposition == Some(AutoDenied) <==> s.coverage.value.decision == Denied)
            && (s.disposition == Some(AutoDenied) ==> s.settlement.value.payable == 0.0)
            && (t.risk < 0.4 ==> !Flags(env.history, s.facts.value.claimant))
            && (t.confidence > CONFIDENCE_CAP_WEAK ==> |s.context.value.citations| > 1)
            && (t.confidence > CONFIDENCE_UNGROUNDED ==> s.context.value.sufficient))
  {
    RunRefines(env);
    if Adjudicate(env).Decided? {
      DecidedParts(env);
    }
  }
}
