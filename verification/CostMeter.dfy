// Step traces, token prices, and the per-claim cost summary
// (models/trace.py, graph/nodes.py:36-59, observability/cost_meter.py).

module CostMeter {
  import opened Prelude

  const COST_PER_PROMPT_TOKEN: real := 0.000005
  const COST_PER_COMPLETION_TOKEN: real := 0.000015

  /** The tokens one LLM call reports. */
  datatype Usage = Usage(prompt: nat, completion: nat)

  function Price(u: Usage): real {
    COST_PER_PROMPT_TOKEN * u.prompt as real + COST_PER_COMPLETION_TOKEN * u.completion as real
  }

  /** The price of all the calls, one by one. */
  function TotalPrice(calls: seq<Usage>): real {
    if calls == [] then 0.0 else TotalPrice(calls[..|calls| - 1]) + Price(calls[|calls| - 1])
  }

  lemma {:induction false} TotalPriceConcat(a: seq<Usage>, b: seq<Usage>)
    ensures TotalPrice(a + b) == TotalPrice(a) + TotalPrice(b)
  {
    if b == [] {
      assert a + b == a;
    } else {
      var n := |b| - 1;
      assert (a + b)[..|a + b| - 1] == a + b[..n];
      TotalPriceConcat(a, b[..n]);
    }
  }

  function PromptTokens(calls: seq<Usage>): nat {
    if calls == [] then 0 else PromptTokens(calls[..|calls| - 1]) + calls[|calls| - 1].prompt
  }

  function CompletionTokens(calls: seq<Usage>): nat {
    if calls == [] then 0 else CompletionTokens(calls[..|calls| - 1]) + calls[|calls| - 1].completion
  }

  /** A million prompt tokens cost 5 dollars and a million completion tokens 15, over however many calls. */
  lemma {:induction false} PricePerMillion(calls: seq<Usage>)
    ensures TotalPrice(calls) * 1000000.0 == 5.0 * PromptTokens(calls) as real + 15.0 * CompletionTokens(calls) as real
  {
    if calls != [] { PricePerMillion(calls[..|calls| - 1]); }
  }

  lemma {:induction false} TotalPriceNonNegative(calls: seq<Usage>)
    ensures TotalPrice(calls) >= 0.0
  {
    if calls != [] { TotalPriceNonNegative(calls[..|calls| - 1]); }
  }

  /** The wrapper around the LLM client that adds up the tokens of a node's calls. */
  class CostTracker {
    var promptTokens: nat
    var completionTokens: nat

    constructor ()
      ensures CostUsd() == 0.0 && promptTokens == 0 && completionTokens == 0
    {
      promptTokens, completionTokens := 0, 0;
    }

    /** `generate` after the wrapped client has answered. */
    method Record(usage: Usage)
      modifies this
      ensures promptTokens == old(promptTokens) + usage.prompt
      ensures completionTokens == old(completionTokens) + usage.completion
      ensures CostUsd() == old(CostUsd()) + Price(usage)
    {
      promptTokens := promptTokens + usage.prompt;
      completionTokens := completionTokens + usage.completion;
    }

    function CostUsd(): real
      reads this
    {
      COST_PER_PROMPT_TOKEN * promptTokens as real + COST_PER_COMPLETION_TOKEN * completionTokens as real
    }
  }

  /** A node's calls through the wrapper: the price of the added-up tokens is the sum of the calls' prices. */
  method MeterCalls(calls: seq<Usage>) returns (cost: real)
    ensures cost == TotalPrice(calls)
  {
    var tracker := new CostTracker();
    for i := 0 to |calls|
      invariant fresh(tracker)
      invariant tracker.CostUsd() == TotalPrice(calls[..i])
    {
      assert calls[..i + 1][..i] == calls[..i];
      tracker.Record(calls[i]);
    }
    assert calls[..|calls|] == calls;
    cost := tracker.CostUsd();
  }

  /** What a step trace says of its node's outcome. */
  datatype StepOutcome = Done | Skipped | Failed(message: string)

  datatype StepTrace = StepTrace(node: string, outcome: StepOutcome, cost: real, latency: real)

  datatype CostSummary = CostSummary(totalCost: real, totalLatency: real, nodeCount: nat,
    costByNode: map<string, real>, latencyByNode: map<string, real>)

  function CostOf(step: StepTrace): real {
    step.cost
  }

  function LatencyOf(step: StepTrace): real {
    step.latency
  }

  function Total(trace: seq<StepTrace>, figure: StepTrace -> real): real {
    if trace == [] then 0.0 else Total(trace[..|trace| - 1], figure) + figure(trace[|trace| - 1])
  }

  /** The figure summed over the steps of one node. */
  function NodeTotal(trace: seq<StepTrace>, figure: StepTrace -> real, node: string): real {
    if trace == [] then 0.0
    else
      var n := |trace| - 1;
      NodeTotal(trace[..n], figure, node) + if trace[n].node == node then figure(trace[n]) else 0.0
  }

  function TotalCost(trace: seq<StepTrace>): real {
    Total(trace, CostOf)
  }

  ghost function Nodes(trace: seq<StepTrace>): set<string> {
    set i | 0 <= i < |trace| :: trace[i].node
  }

  /** The per-node figures are those of the trace's steps, for exactly its nodes, and add up to the total. */
  ghost predicate Tallies(trace: seq<StepTrace>, figure: StepTrace -> real, total: real, byNode: map<string, real>) {
    && total == Total(trace, figure) == MapSum(byNode)
    && byNode.Keys == Nodes(trace)
    && forall node :: node in byNode ==> byNode[node] == NodeTotal(trace, figure, node)
  }

  /** Conservation: costs and latencies are tallied without loss. */
  ghost predicate Conserves(trace: seq<StepTrace>, s: CostSummary) {
    && Tallies(trace, CostOf, s.totalCost, s.costByNode)
    && Tallies(trace, LatencyOf, s.totalLatency, s.latencyByNode)
    && s.nodeCount == |trace|
  }

  function Added(figures: map<string, real>, node: string, x: real): map<string, real> {
    figures[node := (if node in figures then figures[node] else 0.0) + x]
  }

  lemma AddedSum(figures: map<string, real>, node: string, x: real)
    ensures MapSum(Added(figures, node, x)) == MapSum(figures) + x
  {
    MapSumPut(figures, node, (if node in figures then figures[node] else 0.0) + x);
  }

  lemma {:induction false} AbsentNode(trace: seq<StepTrace>, figure: StepTrace -> real, node: string)
    requires forall i :: 0 <= i < |trace| ==> trace[i].node != node
    ensures NodeTotal(trace, figure, node) == 0.0
  {
    if trace != [] { AbsentNode(trace[..|trace| - 1], figure, node); }
  }

  lemma NodesStep(trace: seq<StepTrace>, step: StepTrace)
    ensures Nodes(trace + [step]) == Nodes(trace) + {step.node}
  {
    var longer := trace + [step];
    forall x | x in Nodes(trace) + {step.node} ensures x in Nodes(longer) {
      if x == step.node {
        assert longer[|trace|].node == x;
      } else {
        var i :| 0 <= i < |trace| && trace[i].node == x;
        assert longer[i].node == x;
      }
    }
  }

  lemma TotalStep(trace: seq<StepTrace>, figure: StepTrace -> real, step: StepTrace)
    ensures Total(trace + [step], figure) == Total(trace, figure) + figure(step)
  {
    var longer := trace + [step];
    assert longer[..|longer| - 1] == trace;
  }

  lemma NodeTotalStep(trace: seq<StepTrace>, figure: StepTrace -> real, step: StepTrace, node: string)
    ensures NodeTotal(trace + [step], figure, node)
         == NodeTotal(trace, figure, node) + if step.node == node then figure(step) else 0.0
  {
    var longer := trace + [step];
    assert longer[..|longer| - 1] == trace;
  }

  lemma TalliesStep(trace: seq<StepTrace>, figure: StepTrace -> real, total: real, byNode: map<string, real>,
      step: StepTrace)
    requires Tallies(trace, figure, total, byNode)
    ensures Tallies(trace + [step], figure, total + figure(step), Added(byNode, step.node, figure(step)))
  {
    var byNode' := Added(byNode, step.node, figure(step));
    TotalStep(trace, figure, step);
    AddedSum(byNode, step.node, figure(step));
    NodesStep(trace, step);
    forall node | node in byNode' ensures byNode'[node] == NodeTotal(trace + [step], figure, node) {
      NodeTotalStep(trace, figure, step, node);
      if node !in byNode { NewNode(trace, figure, node); }
    }
  }

  lemma NewNode(trace: seq<StepTrace>, figure: StepTrace -> real, node: string)
    requires node !in Nodes(trace)
    ensures NodeTotal(trace, figure, node) == 0.0
  {
    forall i | 0 <= i < |trace| ensures trace[i].node != node {
      assert trace[i].node in Nodes(trace);
    }
    AbsentNode(trace, figure, node);
  }

  method ComputeCostSummary(trace: seq<StepTrace>) returns (s: CostSummary)
    ensures Conserves(trace, s)
  {
    var totalCost, totalLatency := 0.0, 0.0;
    var costByNode: map<string, real>, latencyByNode: map<string, real> := map[], map[];
    for i := 0 to |trace|
      invariant Tallies(trace[..i], CostOf, totalCost, costByNode)
      invariant Tallies(trace[..i], LatencyOf, totalLatency, latencyByNode)
    {
      var step := trace[i];
      TalliesStep(trace[..i], CostOf, totalCost, costByNode, step);
      TalliesStep(trace[..i], LatencyOf, totalLatency, latencyByNode, step);
      assert trace[..i + 1] == trace[..i] + [step];
      costByNode := Added(costByNode, step.node, step.cost);
      latencyByNode := Added(latencyByNode, step.node, step.latency);
      totalCost := totalCost + step.cost;
      totalLatency := totalLatency + step.latency;
    }
    assert trace[..|trace|] == trace;
    s := CostSummary(totalCost, totalLatency, |trace|, costByNode, latencyByNode);
  }

  /** One step more adds its cost and its latency to the totals, to its own node's figures and to no other's. */
  lemma SummaryGrows(trace: seq<StepTrace>, step: StepTrace, s: CostSummary, s': CostSummary, node: string)
    requires Conserves(trace, s) && Conserves(trace + [step], s')
    ensures s'.totalCost == s.totalCost + step.cost && s'.totalLatency == s.totalLatency + step.latency
    ensures s'.nodeCount == s.nodeCount + 1
    ensures step.node in s'.costByNode && step.node in s'.latencyByNode
    ensures step.node in s.costByNode ==>
      && step.node in s.latencyByNode
      && s'.costByNode[step.node] == s.costByNode[step.node] + step.cost
      && s'.latencyByNode[step.node] == s.latencyByNode[step.node] + step.latency
    ensures step.node !in s.costByNode ==>
      s'.costByNode[step.node] == step.cost && s'.latencyByNode[step.node] == step.latency
    ensures node != step.node ==>
      && (node in s'.costByNode <==> node in s.costByNode)
      && (node in s.costByNode ==> s'.costByNode[node] == s.costByNode[node])
  {
    TotalStep(trace, CostOf, step);
    TotalStep(trace, LatencyOf, step);
    NodesStep(trace, step);
    NodeTotalStep(trace, CostOf, step, step.node);
    NodeTotalStep(trace, LatencyOf, step, step.node);
    NodeTotalStep(trace, CostOf, step, node);
    if step.node !in s.costByNode {
      NewNode(trace, CostOf, step.node);
      NewNode(trace, LatencyOf, step.node);
    }
  }

  /** No steps, no cost. */
  lemma EmptySummary(s: CostSummary)
    requires Conserves([], s)
    ensures s == CostSummary(0.0, 0.0, 0, map[], map[])
  {
  }

  lemma {:induction false} TotalCostConcat(a: seq<StepTrace>, b: seq<StepTrace>)
    ensures TotalCost(a + b) == TotalCost(a) + TotalCost(b)
  {
    if b == [] {
      assert a + b == a;
    } else {
      var n := |b| - 1;
      assert (a + b)[..|a + b| - 1] == a + b[..n];
      TotalCostConcat(a, b[..n]);
    }
  }
}
