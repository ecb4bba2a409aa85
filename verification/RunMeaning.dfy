// What a run of the graph comes to, said of the answers it gets: extraction, retrieval and LLM replies
// (graph/nodes.py, agents/*.py).

module RunMeaning {
  import opened Prelude
  import opened CostMeter
  import opened Agents
  import opened Graph
  import opened GraphTheorems
  import Rag

  // ----- What the agents are given --------------------------------------------------------------

  /** Intake extracts facts the validators accept. */
  ghost predicate Extracts(env: Env, facts: Facts) {
    env.intake.extraction == Ok(facts) && facts.claimedAmount >= 0.0 && facts.incidentType != "" && facts.claimant != ""
  }

  /** Retrieval for the facts finds this context: a citation for each chunk, or a placeholder when there is none, and
      the result's own word on whether it suffices. */
  ghost predicate Retrieves(env: Env, facts: Facts, context: PolicyContext) {
    var found := env.retrieve(env.queryOf(facts));
    && found.Ok? && context.sufficient == found.value.sufficient
    && (if found.value.chunks == [] then
          context.citations == [Rag.Citation("none", "no-match", "No relevant policy clauses found.")]
        else
          && |context.citations| == |found.value.chunks|
          && forall i :: 0 <= i < |context.citations| ==> context.citations[i] == found.value.chunks[i].citation)
    && forall id :: id in context.exclusions <==>
         exists i :: 0 <= i < |found.value.chunks| && found.value.chunks[i].citation.clauseId == id
           && SoundsExcluding(env.lower(found.value.chunks[i].text))
  }

  /** A text sounds excluding when one of three words occurs in it. */
  lemma SoundsExcludingIs(text: string)
    ensures SoundsExcluding(text) <==>
      exists before: string, after: string ::
        || text == before + "exclud" + after
        || text == before + "exclusion" + after
        || text == before + "not cover" + after
  {
    ContainsIs(text, "exclud");
    ContainsIs(text, "exclusion");
    ContainsIs(text, "not cover");
  }

  lemma ContainsIs(text: string, word: string)
    ensures Contains(text, word) <==> exists before: string, after: string :: text == before + word + after
  {
    if Contains(text, word) {
      var i :| 0 <= i <= |text| && StartsAt(text, word, i);
      assert text == text[..i] + word + text[i + |word|..];
    }
    if before: string, after: string :| text == before + word + after {
      assert text[|before|..|before| + |word|] == word;
      assert StartsAt(text, word, |before|);
    }
  }

  lemma ContextFound(env: Env, facts: Facts)
    requires env.retrieve(env.queryOf(facts)).Ok?
    ensures RetrievalOutcome(env, Some(facts)).calls == [] && RetrievalOutcome(env, Some(facts)).result.Ok?
    ensures Retrieves(env, facts, RetrievalOutcome(env, Some(facts)).result.value)
  {
    var found := env.retrieve(env.queryOf(facts)).value;
    var context := ContextFrom(env.lower, found);
    forall id ensures id in context.exclusions <==>
      exists i :: 0 <= i < |found.chunks| && found.chunks[i].citation.clauseId == id
        && SoundsExcluding(env.lower(found.chunks[i].text))
    {
      ExclusionsExactly(env.lower, found.chunks, id);
    }
  }

  lemma FactsFound(env: Env, facts: Facts)
    ensures Extracts(env, facts) <==> IntakeOutcome(env).result == Ok(facts)
    ensures IntakeOutcome(env).calls == env.intake.calls
  {
  }

  // ----- What the answers say ---------------------------------------------------------------------

  /** The coverage answer makes at least one citation of the context. */
  ghost predicate Cites(env: Env, context: PolicyContext)
    requires UsableOpinion(env.coverageReply)
  {
    var cited := env.coverageReply.body.raw.citations;
    cited.Listed? && exists i, c :: 0 <= i < |cited.entries| && MakesFrom(env, context, cited.entries[i], c)
  }

  ghost predicate MakesFrom(env: Env, context: PolicyContext, rc: RawCitation, c: Rag.Citation) {
    Makes(env.lower, env.idOrder(ContextIds(context)), rc, c)
  }

  /** The coverage answer counts: the context suffices and the answer cites it. */
  ghost predicate Counts(env: Env, context: PolicyContext) {
    context.sufficient && UsableOpinion(env.coverageReply) && Cites(env, context)
  }

  ghost predicate Denies(env: Env, context: PolicyContext) {
    Counts(env, context) && env.coverageReply.body.raw.decision == Named(Denied)
  }

  /** The confidence of the coverage opinion: the answer's, clamped, and at most 0.6 on one citation; 0.1 where the
      answer does not count. */
  ghost predicate Confidence(env: Env, context: PolicyContext, confidence: real) {
    if !Counts(env, context) then confidence == 0.1
    else
      var own := Clamp(env.coverageReply.body.raw.confidence);
      confidence == if |context.citations| <= 1 && own > 0.6 then 0.6 else own
  }

  /** The tool's score of a claim. */
  ghost function RuleScore(env: Env, facts: Facts): real {
    (if facts.claimedAmount > 25000.0 then 0.2 else 0.0)
    + (if facts.claimant in env.history && env.history[facts.claimant].totalClaims >= 3 then 0.3 else 0.0)
    + (if facts.claimant in env.history && env.history[facts.claimant].flagged then 0.4 else 0.0)
  }

  /** Every agent gets an answer it can use. */
  ghost predicate Answered(env: Env, facts: Facts, context: PolicyContext) {
    && (context.sufficient ==> UsableOpinion(env.coverageReply))
    && env.riskReply.Answer? && env.riskReply.body.Object?
    && (!Denies(env, context) ==>
          && env.settlementReply.Answer? && env.settlementReply.body.Object?
          && Settleable(env.settlementReply.body.raw, LimitOf(facts, env.settlementReply.body.raw)))
    && env.complianceReply.Answer? && env.complianceReply.body.Object?
  }

  /** What is paid: nothing on a denial, and else the answer's figure, or the limit where a positive limit is below
      it. */
  ghost predicate Pays(env: Env, facts: Facts, context: PolicyContext, payable: real)
    requires Answered(env, facts, context)
  {
    if Denies(env, context) then payable == 0.0
    else
      var raw := env.settlementReply.body.raw;
      var figure, limit := ToDecimal(raw.payable), LimitOf(facts, raw);
      if limit.v > 0.0 && (figure.DecPosInf? || figure.v > limit.v) then payable == limit.v else Fin(payable) == figure
  }

  // ----- The agents, one by one --------------------------------------------------------------------

  lemma CitesExactly(env: Env, context: PolicyContext)
    requires UsableOpinion(env.coverageReply)
    ensures
      var kept := FilterCitations(env.lower, env.coverageReply.body.raw.citations, env.idOrder(ContextIds(context)));
      kept.Ok? && (kept.value != [] <==> Cites(env, context))
  {
    var cited, order := env.coverageReply.body.raw.citations, env.idOrder(ContextIds(context));
    if cited.Listed? {
      FilterRaises(env.lower, order, cited.entries);
      var at := FilterKeeps(env.lower, order, cited.entries);
      var kept := FilterEntries(env.lower, cited.entries, order).value;
      if kept != [] { assert MakesFrom(env, context, cited.entries[at[0]], kept[0]); }
    }
  }

  /** Quoting any clause of the context under its exact id is enough for an answer to cite it. */
  lemma ExactCitationCounts(env: Env, context: PolicyContext, i: nat, k: nat)
    requires ValidEnv(env) && UsableOpinion(env.coverageReply)
    requires env.coverageReply.body.raw.citations.Listed? && i < |env.coverageReply.body.raw.citations.entries|
    requires k < |context.citations| && context.citations[k].clauseId != ""
    requires
      var rc := env.coverageReply.body.raw.citations.entries[i];
      && rc.Entry? && rc.clauseId == Str(context.citations[k].clauseId)
      && rc.document.Str? && rc.document.s != "" && rc.snippet.Str? && rc.snippet.s != ""
    ensures Cites(env, context)
  {
    var rc, id := env.coverageReply.body.raw.citations.entries[i], context.citations[k].clauseId;
    assert id in env.idOrder(ContextIds(context));
    assert MakesFrom(env, context, rc, Rag.Citation(id, rc.document.s, rc.snippet.s));
  }

  lemma Opined(env: Env, context: PolicyContext)
    requires ValidEnv(env) && context.citations != []
    ensures
      var r := CoverageOutcome(env, context).result;
      && (r.Ok? <==> context.sufficient ==> UsableOpinion(env.coverageReply))
      && (r.Ok? ==> (r.value.decision == Denied <==> Denies(env, context)))
      && (r.Ok? ==> Confidence(env, context, r.value.confidence))
  {
    var order := env.idOrder(ContextIds(context));
    DecideFails(env.lower, context, order, env.coverageReply);
    if CoverageOutcome(env, context).result.Ok? {
      DecideGrounded(env.lower, context, order, env.coverageReply);
      if context.sufficient { CitesExactly(env, context); }
    }
  }

  lemma Settled(env: Env, facts: Facts, context: PolicyContext, coverage: CoverageOpinion)
    requires facts.claimedAmount >= 0.0 && (coverage.decision == Denied <==> Denies(env, context))
    requires Answered(env, facts, context)
    ensures
      var r := Settle(facts, coverage, env.settlementReply).result;
      r.Ok? && Pays(env, facts, context, r.value.payable)
  {
    if coverage.decision == Denied {
      SettleSafe(facts, coverage, env.settlementReply);
    } else {
      SettlesExactly(facts, coverage, env.settlementReply);
    }
  }

  // ----- Runs -----------------------------------------------------------------------------------------

  /** The adjudication decides exactly when facts are extracted, a context is found, and every agent gets an answer it
      can use; and then each agent's part of it is what the answers say. */
  ghost predicate DecidedBy(env: Env, facts: Facts, context: PolicyContext, a: Adjudication) {
    && (a.Decided? <==> Answered(env, facts, context))
    && (a.Decided? ==>
          && a.facts == facts && a.context == context
          && (a.coverage.decision == Denied <==> Denies(env, context))
          && Confidence(env, context, a.coverage.confidence)
          && IsHigher(a.risk.score, Clamp(env.riskReply.body.raw), RuleScore(env, facts))
          && Pays(env, facts, context, a.settlement.payable)
          && a.compliance.passed == env.complianceReply.body.raw.passed)
  }

  lemma AdjudicationIs(env: Env, facts: Facts) returns (context: PolicyContext)
    requires ValidEnv(env) && Extracts(env, facts) && env.retrieve(env.queryOf(facts)).Ok?
    ensures Retrieves(env, facts, context) && context.citations != []
    ensures DecidedBy(env, facts, context, Adjudicate(env))
  {
    FactsFound(env, facts);
    ContextFound(env, facts);
    context := RetrievalOutcome(env, Some(facts)).result.value;
    Opined(env, context);
    AssessIs(env.history, facts, env.riskReply);
    ReviewIs(env.complianceReply);
    var c := CoverageOutcome(env, context).result;
    if c.Ok? {
      if c.value.decision != Denied { SettlesExactly(facts, c.value, env.settlementReply); }
      if Answered(env, facts, context) { Settled(env, facts, context, c.value); }
    }
  }

  /** All four thresholds are met by what the answers say. */
  ghost predicate Meets(env: Env, facts: Facts, context: PolicyContext)
    requires Answered(env, facts, context)
  {
    && (forall confidence :: Confidence(env, context, confidence) ==> confidence >= env.thresholds.confidence)
    && Clamp(env.riskReply.body.raw) <= env.thresholds.risk && RuleScore(env, facts) <= env.thresholds.risk
    && (forall payable :: Pays(env, facts, context, payable) ==> payable <= env.thresholds.maxAuto)
    && env.complianceReply.body.raw.passed
  }

  lemma QualifiesIs(env: Env, facts: Facts, context: PolicyContext, a: Adjudication)
    requires DecidedBy(env, facts, context, a)
    ensures Qualifies(env.thresholds, a) <==> Answered(env, facts, context) && Meets(env, facts, context)
  {
    if a.Decided? {
      assert forall x, y :: Confidence(env, context, x) && Confidence(env, context, y) ==> x == y;
      assert forall x, y :: Pays(env, facts, context, x) && Pays(env, facts, context, y) ==> x == y;
    }
  }

  /** A completed run over extracted facts and a found context: it is free of errors exactly when every agent gets an
      answer it can use; automatic exactly when these answers also meet all four thresholds; and an automatic run
      denies exactly when the coverage answer does. */
  lemma RunIs(env: Env, facts: Facts) returns (context: PolicyContext)
    requires ValidEnv(env) && RunGraph(env).crash.None?
    requires Extracts(env, facts) && env.retrieve(env.queryOf(facts)).Ok?
    ensures Retrieves(env, facts, context) && RunGraph(env).states != []
    ensures
      var s := Final(RunGraph(env));
      && (s.errors == [] <==> Answered(env, facts, context))
      && (Auto(s) <==> Answered(env, facts, context) && Meets(env, facts, context))
      && (Auto(s) ==> s.disposition == Some(if Denies(env, context) then AutoDenied else AutoApproved))
      && (!Auto(s) ==> s.disposition == Some(Escalated))
      && (s.errors == [] ==> s.facts == Some(facts) && s.context == Some(context))
  {
    context := AdjudicationIs(env, facts);
    RunRefines(env);
    QualifiesIs(env, facts, context, Adjudicate(env));
  }

  /** Without acceptable facts or a context a completed run records that, and escalates. */
  lemma RunWithout(env: Env)
    requires RunGraph(env).crash.None?
    ensures RunGraph(env).states != []
    ensures
      var s := Final(RunGraph(env));
      && ((forall facts :: !Extracts(env, facts)) ==>
            && |s.errors| == 1 && s.errors[0].node == "intake" && s.disposition == Some(Escalated)
            && (env.intake.extraction.Err? ==> s.errors[0].message == env.intake.extraction.error.message))
      && (forall facts :: Extracts(env, facts) && env.retrieve(env.queryOf(facts)).Err? ==>
            && s.errors == [AgentError("policy_retrieval", env.retrieve(env.queryOf(facts)).error.message)]
            && s.disposition == Some(Escalated))
  {
    RunRefines(env);
    if forall facts :: !Extracts(env, facts) {
      if IntakeOutcome(env).result.Ok? { assert Extracts(env, IntakeOutcome(env).result.value); }
    }
    forall facts | Extracts(env, facts) && env.retrieve(env.queryOf(facts)).Err?
      ensures Final(RunGraph(env)).errors
           == [AgentError("policy_retrieval", env.retrieve(env.queryOf(facts)).error.message)]
    {
      FactsFound(env, facts);
    }
  }

  /** The first agent without an answer it can use. */
  ghost function Blamed(env: Env, facts: Facts, context: PolicyContext): string
    requires !Answered(env, facts, context)
  {
    if context.sufficient && !UsableOpinion(env.coverageReply) then "coverage_decision"
    else if !(env.riskReply.Answer? && env.riskReply.body.Object?) then "fraud_risk"
    else if !SettlementAnswered(env, facts, context) then "settlement"
    else "compliance"
  }

  ghost predicate SettlementAnswered(env: Env, facts: Facts, context: PolicyContext) {
    || Denies(env, context)
    || (&& env.settlementReply.Answer? && env.settlementReply.body.Object?
        && Settleable(env.settlementReply.body.raw, LimitOf(facts, env.settlementReply.body.raw)))
  }

  lemma StuckAtBlamed(env: Env, facts: Facts) returns (context: PolicyContext)
    requires ValidEnv(env) && Extracts(env, facts) && env.retrieve(env.queryOf(facts)).Ok?
    ensures Retrieves(env, facts, context)
    ensures !Answered(env, facts, context) ==>
      Adjudicate(env).Stuck? && Adjudicate(env).node.Name() == Blamed(env, facts, context)
  {
    FactsFound(env, facts);
    ContextFound(env, facts);
    context := RetrievalOutcome(env, Some(facts)).result.value;
    Opined(env, context);
    AssessIs(env.history, facts, env.riskReply);
    ReviewIs(env.complianceReply);
    var c := CoverageOutcome(env, context).result;
    if c.Ok? {
      if c.value.decision == Denied {
        SettleSafe(facts, c.value, env.settlementReply);
      } else {
        SettlesExactly(facts, c.value, env.settlementReply);
      }
    }
  }

  /** A completed run that did not get an answer it needed blames the first agent that did not. */
  lemma RunBlames(env: Env, facts: Facts) returns (context: PolicyContext)
    requires ValidEnv(env) && RunGraph(env).crash.None?
    requires Extracts(env, facts) && env.retrieve(env.queryOf(facts)).Ok?
    ensures Retrieves(env, facts, context) && RunGraph(env).states != []
    ensures !Answered(env, facts, context) ==>
      && |Final(RunGraph(env)).errors| == 1
      && Final(RunGraph(env)).errors[0].node == Blamed(env, facts, context)
      && Final(RunGraph(env)).disposition == Some(Escalated)
  {
    context := StuckAtBlamed(env, facts);
    RunRefines(env);
  }

  // ----- What an automatic disposition rests on ------------------------------------------------------

  /** Under a confidence threshold above 0.1 an automatic run rests on answers the agents could use: the coverage answer
      cites the context and its own decision is denied exactly when the run denies, the risk answer and the tool's
      score are within the risk threshold, what is paid is within the amount, and the compliance answer passes. */
  lemma AutoRestsOnAnswers(env: Env)
    requires ValidEnv(env) && RunGraph(env).crash.None? && env.thresholds.confidence > 0.1
    ensures RunGraph(env).states != []
    ensures
      var s := Final(RunGraph(env));
      Auto(s) ==>
        && env.coverageReply.Answer? && env.coverageReply.body.Object?
        && (s.disposition == Some(AutoDenied) <==> env.coverageReply.body.raw.decision == Named(Denied))
        && Clamp(env.coverageReply.body.raw.confidence) >= env.thresholds.confidence
        && env.riskReply.Answer? && env.riskReply.body.Object?
        && Clamp(env.riskReply.body.raw) <= env.thresholds.risk
        && s.facts.Some? && RuleScore(env, s.facts.value) <= env.thresholds.risk
        && s.settlement.Some? && s.settlement.value.payable <= env.thresholds.maxAuto
        && env.complianceReply.Answer? && env.complianceReply.body.Object? && env.complianceReply.body.raw.passed
  {
    RunWithout(env);
    AutoSafety(env);
    if Auto(Final(RunGraph(env))) {
      var facts :| Extracts(env, facts);
      var context := RunIs(env, facts);
      if Counts(env, context) {
        var own := Clamp(env.coverageReply.body.raw.confidence);
        assert Confidence(env, context, if |context.citations| <= 1 && own > 0.6 then 0.6 else own);
      } else {
        assert Confidence(env, context, 0.1);
      }
    }
  }

  /** The default thresholds let nothing through with a coverage confidence below 0.7, a risk above 0.3 by the LLM's
      score or the tool's, or more than 10000 to pay. */
  lemma DefaultThresholdsHold(env: Env)
    requires ValidEnv(env) && RunGraph(env).crash.None? && env.thresholds == DEFAULT_THRESHOLDS
    ensures RunGraph(env).states != []
    ensures
      var s := Final(RunGraph(env));
      Auto(s) ==>
        && env.coverageReply.Answer? && env.coverageReply.body.Object?
        && Clamp(env.coverageReply.body.raw.confidence) >= 0.7
        && env.riskReply.Answer? && env.riskReply.body.Object? && Clamp(env.riskReply.body.raw) <= 0.3
        && s.facts.Some? && RuleScore(env, s.facts.value) <= 0.3
        && s.settlement.Some? && s.settlement.value.payable <= 10000.0
  {
    AutoRestsOnAnswers(env);
  }

  // ----- What a run costs -------------------------------------------------------------------------------

  /** The calls an agent pays for in a decided adjudication. */
  ghost function AgentCalls(env: Env, node: Node): seq<Usage>
    requires node.Agent() && Adjudicate(env).Decided?
  {
    var a := Adjudicate(env);
    match node
    case Intake => IntakeOutcome(env).calls
    case PolicyRetrieval => RetrievalOutcome(env, Some(a.facts)).calls
    case CoverageDecision => CoverageOutcome(env, a.context).calls
    case FraudRisk => Assess(env.history, a.facts, env.riskReply).calls
    case Settlement => Settle(a.facts, a.coverage, env.settlementReply).calls
    case Compliance => Review(env.complianceReply).calls
  }

  lemma BodyCalls(env: Env, node: Node, s: GraphState)
    requires node.Agent() && Adjudicate(env).Decided? && Agreed(env, node.Depth(), s)
    ensures Perform(env, node, s).Performed?
    ensures Perform(env, node, s).calls == CallsBy(node, AgentCalls(env, node))
  {
    match node
    case Intake =>
    case PolicyRetrieval =>
    case CoverageDecision =>
    case FraudRisk =>
    case Settlement =>
    case Compliance =>
  }

  /** The price of the calls from an agent on. */
  ghost function PriceFrom(env: Env, node: Node): real
    requires Adjudicate(env).Decided?
    decreases 9 - node.Depth()
  {
    if !node.Agent() then 0.0
    else TotalPrice(AgentCalls(env, node)) + PriceFrom(env, Next(node, INITIAL).value)
  }

  lemma TimedCallsNothing(env: Env, node: Node, s: GraphState)
    requires !node.Agent()
    ensures Perform(env, node, s).Performed? && Perform(env, node, s).calls == []
  {
  }

  lemma {:induction false} TailCallsNothing(env: Env, node: Node, s: GraphState)
    requires !node.Agent()
    ensures RunFrom(env, node, s).calls == []
    decreases 9 - node.Depth()
  {
    TimedCallsNothing(env, node, s);
    var s' := Apply(s, Perform(env, node, s).update);
    if Next(node, s').Some? {
      TailCallsNothing(env, Next(node, s').value, s');
      RunUnfolds(env, node, s);
    }
  }

  /** An agent's turn in a run: its own calls, then those of the rest. */
  lemma AgentSpends(env: Env, node: Node, s: GraphState, s': GraphState, next: Node)
    requires Adjudicate(env).Decided? && node.Agent() && Ready(env, node, s)
    requires Perform(env, node, s).Performed?
    requires s' == Apply(s, Perform(env, node, s).update) && Next(node, s') == Some(next)
    ensures Spent(RunFrom(env, node, s).calls)
         == TotalPrice(AgentCalls(env, node)) + Spent(RunFrom(env, next, s').calls)
  {
    BodyCalls(env, node, s);
    RunUnfolds(env, node, s);
    SpentConcat(CallsBy(node, AgentCalls(env, node)), RunFrom(env, next, s').calls, "");
    SpentOnce(node, AgentCalls(env, node), "");
  }

  lemma SameNext(node: Node, s: GraphState)
    requires node.Agent()
    ensures Next(node, s) == Next(node, INITIAL) && Next(node, s).Some?
  {
  }

  lemma {:induction false} RunSpends(env: Env, node: Node, s: GraphState)
    requires Adjudicate(env).Decided? && Ready(env, node, s)
    ensures Spent(RunFrom(env, node, s).calls) == PriceFrom(env, node)
    decreases 9 - node.Depth()
  {
    if !node.Agent() {
      TailCallsNothing(env, node, s);
    } else {
      BodyCalls(env, node, s);
      AgentStep(env, node, s);
      var s' := Apply(s, Perform(env, node, s).update);
      SameNext(node, s');
      var next := Next(node, s').value;
      RunSpends(env, next, s');
      AgentSpends(env, node, s, s', next);
    }
  }

  lemma OneCall(usage: Usage)
    ensures TotalPrice([usage]) == Price(usage) && TotalPrice([]) == 0.0
  {
    assert [usage][..0] == [];
  }

  lemma SixPrices(env: Env)
    requires Adjudicate(env).Decided?
    ensures PriceFrom(env, Intake)
         == TotalPrice(AgentCalls(env, Intake)) + TotalPrice(AgentCalls(env, PolicyRetrieval))
            + TotalPrice(AgentCalls(env, CoverageDecision)) + TotalPrice(AgentCalls(env, FraudRisk))
            + TotalPrice(AgentCalls(env, Settlement)) + TotalPrice(AgentCalls(env, Compliance))
  {
    assert PriceFrom(env, Settlement)
        == TotalPrice(AgentCalls(env, Settlement)) + (TotalPrice(AgentCalls(env, Compliance)) + 0.0);
    assert PriceFrom(env, CoverageDecision)
        == TotalPrice(AgentCalls(env, CoverageDecision))
           + (TotalPrice(AgentCalls(env, FraudRisk)) + PriceFrom(env, Settlement));
  }

  /** Intake pays for its own calls, retrieval for none, and each other agent for at most one. */
  lemma AgentsPay(env: Env, facts: Facts, context: PolicyContext)
    requires DecidedBy(env, facts, context, Adjudicate(env)) && Answered(env, facts, context)
    ensures AgentCalls(env, Intake) == env.intake.calls && AgentCalls(env, PolicyRetrieval) == []
    ensures AgentCalls(env, CoverageDecision) == if context.sufficient then [env.coverageReply.usage] else []
    ensures AgentCalls(env, FraudRisk) == [env.riskReply.usage]
    ensures AgentCalls(env, Settlement) == if Denies(env, context) then [] else [env.settlementReply.usage]
    ensures AgentCalls(env, Compliance) == [env.complianceReply.usage]
  {
    DecideFails(env.lower, context, env.idOrder(ContextIds(context)), env.coverageReply);
  }

  /** What an error-free run costs, in its calls and in its trace: intake's calls, one call each of the fraud and the
      compliance agent, one of the coverage agent if the context suffices, and one of the settlement agent unless
      coverage is denied. */
  lemma RunCosts(env: Env, facts: Facts) returns (context: PolicyContext)
    requires ValidEnv(env) && RunGraph(env).crash.None?
    requires Extracts(env, facts) && env.retrieve(env.queryOf(facts)).Ok?
    ensures Retrieves(env, facts, context) && RunGraph(env).states != []
    ensures Answered(env, facts, context) ==>
      && TotalCost(Final(RunGraph(env)).trace) == Spent(RunGraph(env).calls)
      && Spent(RunGraph(env).calls)
         == TotalPrice(env.intake.calls)
            + (if context.sufficient then Price(env.coverageReply.usage) else 0.0)
            + Price(env.riskReply.usage)
            + (if Denies(env, context) then 0.0 else Price(env.settlementReply.usage))
            + Price(env.complianceReply.usage)
  {
    context := AdjudicationIs(env, facts);
    RunRefines(env);
    if Answered(env, facts, context) {
      CostConserved(env);
      assert AGENTS[..0] == [];
      RunSpends(env, Intake, INITIAL);
      SixPrices(env);
      AgentsPay(env, facts, context);
      OneCall(env.riskReply.usage);
      OneCall(env.complianceReply.usage);
      if context.sufficient { OneCall(env.coverageReply.usage); }
      if !Denies(env, context) { OneCall(env.settlementReply.usage); }
    }
  }
}
