// What every interleaving of the protocol keeps: the life of a record, the partition of the messages,
// and the agreement between what was run, what was published and what is stored.

module LifecycleTheorems {
  import opened Prelude
  import C = CostMeter
  import G = Graph
  import opened Lifecycle

  const PROCESSING: Record := NEW_RECORD.(status := Processing)

  // ===== Invariant ========================================================================

  /** Created, not yet picked up by the worker. */
  ghost predicate Untouched(st: State, id: Id) {
    && id in st.store && st.store[id] == NEW_RECORD
    && id !in st.history.runs && id !in st.history.raised && Published(st.history, id) == []
  }

  /** Being run: the record says so, and everything told so far is `told`. */
  ghost predicate InFlight(st: State, id: Id, raised: bool) {
    && id in st.store && st.store[id] == PROCESSING
    && id in st.history.runs && (id in st.history.raised <==> raised)
  }

  /** All the events of a run, and the sentinel unless the run raised before it was due. */
  function Told(run: RunResult): seq<Event> {
    Events(StepsOf(run)) + if run.Fails? then [] else [Sentinel]
  }

  ghost predicate AllTold(st: State, id: Id) {
    id in st.history.runs && Published(st.history, id) == Told(st.history.runs[id])
  }

  /** The record a run leaves behind, possibly with a human decision on top. */
  ghost predicate Outcome(r: Record, run: RunResult) {
    var saved := Saved(PROCESSING, run);
    || r == saved
    || (&& saved.status == Escalated && r.human.Some?
        && r == saved.(status := Completed, human := r.human, disposition := Some(Decided(r.human.value))))
  }

  /** The worker is done with the claim: a record in a terminal state that agrees with the run, everything
      published. */
  ghost predicate Settled(st: State, id: Id) {
    && id in st.store && id in st.history.runs
    && if id in st.history.raised
       then st.store[id] == PROCESSING.(status := Error)
            && Published(st.history, id) == Told(st.history.runs[id]) + [Sentinel]
       else !st.history.runs[id].Fails? && Outcome(st.store[id], st.history.runs[id]) && AllTold(st, id)
  }

  ghost predicate WorkerOk(st: State) {
    match st.worker
    case Idle => true
    case Got(id) => Untouched(st, id)
    case Loaded(id, copy) => Untouched(st, id) && copy == NEW_RECORD
    case Streaming(id, copy, todo) =>
      && InFlight(st, id, false) && copy == PROCESSING
      && Published(st.history, id) + Events(todo) == Events(StepsOf(st.history.runs[id]))
    case Saving(id, copy) =>
      InFlight(st, id, false) && copy == PROCESSING && !st.history.runs[id].Fails? && AllTold(st, id)
    case ErrLoading(id) => InFlight(st, id, true) && AllTold(st, id)
    case ErrSaving(id, copy) => InFlight(st, id, true) && copy == PROCESSING && AllTold(st, id)
    case ErrMarking(id) =>
      && id in st.store && st.store[id] == PROCESSING.(status := Error)
      && id in st.history.raised && AllTold(st, id)
    case Acking(id) => Settled(st, id)
  }

  /** A claim is in exactly one place, and its record fits the place. */
  ghost predicate Placed(st: State, id: Id) {
    var b := st.broker;
    && (id in st.store <==> id in b.submitting || id in b.waiting || id in b.unacked || id in b.acked)
    && (id in b.submitting ==> id !in b.waiting && id !in b.unacked && id !in b.acked)
    && (id in b.waiting ==> id !in b.unacked && id !in b.acked)
    && (id in b.unacked ==> id !in b.acked)
    && (id !in st.store ==> id !in st.history.runs && id !in st.history.raised && Published(st.history, id) == [])
    && (id in b.submitting || id in b.waiting ==> Untouched(st, id))
    && (id in b.acked ==> Settled(st, id))
  }

  ghost predicate BrokerOk(st: State) {
    Distinct(st.broker.waiting) && st.broker.unacked == if st.worker.Idle? then {} else {st.worker.id}
  }

  ghost predicate Inv(cfg: Config, st: State) {
    && BrokerOk(st) && WorkerOk(st)
    && (forall id :: Placed(st, id))
    && (forall id :: id in st.history.runs ==> cfg.legal(st.history.runs[id]))
  }

  // ----- Preservation -----------------------------------------------------------------------

  /** The record and the history of the claim have not changed. */
  ghost predicate SameData(st: State, st': State, id: Id) {
    && (id in st.store <==> id in st'.store) && (id in st.store ==> st.store[id] == st'.store[id])
    && (id in st.history.runs <==> id in st'.history.runs)
    && (id in st.history.runs ==> st.history.runs[id] == st'.history.runs[id])
    && (id in st.history.raised <==> id in st'.history.raised)
    && Published(st.history, id) == Published(st'.history, id)
  }

  ghost predicate SamePlace(b: Broker, b': Broker, id: Id) {
    && (id in b.submitting <==> id in b'.submitting) && (id in b.waiting <==> id in b'.waiting)
    && (id in b.unacked <==> id in b'.unacked) && (id in b.acked <==> id in b'.acked)
  }

  lemma StaysPlaced(st: State, st': State, id: Id)
    requires Placed(st, id) && SameData(st, st', id) && SamePlace(st.broker, st'.broker, id)
    ensures Placed(st', id)
  {
  }

  lemma CreateKeeps(cfg: Config, st: State, id: Id)
    requires Inv(cfg, st) && Enabled(cfg, st, Create(id))
    ensures Inv(cfg, Act(cfg, st, Create(id)))
  {
    var st' := Act(cfg, st, Create(id));
    assert Placed(st, id);
    forall other ensures Placed(st', other) {
      assert Placed(st, other);
      if other != id { StaysPlaced(st, st', other); }
    }
  }

  lemma EnqueueKeeps(cfg: Config, st: State, id: Id)
    requires Inv(cfg, st) && Enabled(cfg, st, Enqueue(id))
    ensures Inv(cfg, Act(cfg, st, Enqueue(id)))
  {
    var st' := Act(cfg, st, Enqueue(id));
    assert Placed(st, id);
    forall other ensures Placed(st', other) {
      assert Placed(st, other);
      if other != id { StaysPlaced(st, st', other); }
    }
  }

  lemma DecideKeeps(cfg: Config, st: State, id: Id, v: Verdict)
    requires Inv(cfg, st)
    ensures Inv(cfg, Act(cfg, st, Decide(id, v)))
  {
    var st' := Act(cfg, st, Decide(id, v));
    assert Placed(st, id);
    forall other ensures Placed(st', other) {
      assert Placed(st, other);
      if other != id { StaysPlaced(st, st', other); }
    }
  }

  /** Readers change neither records nor messages. */
  lemma ReadersKeep(cfg: Config, st: State, c: nat, m: Move)
    requires Inv(cfg, st)
    ensures Inv(cfg, Moved(st, c, m))
  {
    forall id ensures Placed(Moved(st, c, m), id) {
      assert Placed(st, id);
      StaysPlaced(st, Moved(st, c, m), id);
    }
  }

  lemma EventsStep(done: seq<Event>, todo: seq<C.StepTrace>, all: seq<Event>)
    requires todo != [] && done + Events(todo) == all
    ensures done + [Step(todo[0])] + Events(todo[1..]) == all
  {
    assert Events(todo) == [Step(todo[0])] + Events(todo[1..]);
    ConcatAssoc(done, [Step(todo[0])], Events(todo[1..]));
  }

  /** The claim the worker's next step is about. */
  ghost function Target(st: State): Option<Id> {
    if !st.worker.Idle? then Some(st.worker.id)
    else if st.broker.waiting != [] then Some(st.broker.waiting[0]) else None
  }

  /** The worker only touches the claim it is working on. */
  lemma WorkTouchesOne(st: State, run: RunResult, raise: bool, other: Id)
    requires Target(st) != Some(other)
    ensures SameData(st, WorkerStep(st, run, raise), other)
    ensures SamePlace(st.broker, WorkerStep(st, run, raise).broker, other)
  {
    if st.worker.Streaming? {
      StreamingTouchesOne(st, run, raise, other);
    } else if st.worker.Idle? && st.broker.waiting != [] {
      assert other in st.broker.waiting <==> other in st.broker.waiting[1..];
    }
  }

  lemma StreamingTouchesOne(st: State, run: RunResult, raise: bool, other: Id)
    requires st.worker.Streaming? && st.worker.id != other
    ensures SameData(st, WorkerStep(st, run, raise), other)
    ensures WorkerStep(st, run, raise).broker == st.broker
  {
  }

  lemma StreamingKeeps(st: State, run: RunResult, raise: bool)
    requires st.worker.Streaming? && WorkerOk(st)
    ensures WorkerOk(WorkerStep(st, run, raise))
  {
    var id, todo, told := st.worker.id, st.worker.todo, Published(st.history, st.worker.id);
    if todo != [] {
      EventsStep(told, todo, Events(StepsOf(st.history.runs[id])));
    } else {
      assert Events(todo) == [] && told + [] == told;
    }
  }

  lemma WorkKeepsWorker(cfg: Config, st: State, run: RunResult, raise: bool)
    requires Inv(cfg, st)
    ensures WorkerOk(WorkerStep(st, run, raise)) && BrokerOk(WorkerStep(st, run, raise))
  {
    match st.worker
    case Idle => if st.broker.waiting != [] { assert Placed(st, st.broker.waiting[0]); }
    case Loaded(id, _) => assert [] + Events(StepsOf(run)) == Events(StepsOf(run));
    case Streaming(id, _, todo) => StreamingKeeps(st, run, raise);
    case _ =>
  }

  lemma WorkKeepsTarget(cfg: Config, st: State, run: RunResult, raise: bool)
    requires Inv(cfg, st) && Target(st).Some?
    ensures Placed(WorkerStep(st, run, raise), Target(st).value)
  {
    var id := Target(st).value;
    assert Placed(st, id);
    WorkKeepsWorker(cfg, st, run, raise);
    var b, b' := st.broker, WorkerStep(st, run, raise).broker;
    if st.worker.Idle? {
      assert id !in b.waiting[1..];
    } else if st.worker.Acking? {
      assert id in b'.acked && id !in b'.unacked;
    } else {
      assert b' == b && id in b.unacked;
    }
  }

  lemma WorkKeeps(cfg: Config, st: State, run: RunResult, raise: bool)
    requires Inv(cfg, st) && cfg.legal(run)
    ensures Inv(cfg, WorkerStep(st, run, raise))
  {
    WorkKeepsWorker(cfg, st, run, raise);
    WorkStaysLegal(cfg, st, run, raise);
    forall id ensures Placed(WorkerStep(st, run, raise), id) {
      WorkKeepsPlaced(cfg, st, run, raise, id);
    }
  }

  lemma WorkStaysLegal(cfg: Config, st: State, run: RunResult, raise: bool)
    requires Inv(cfg, st) && cfg.legal(run)
    ensures forall id :: id in WorkerStep(st, run, raise).history.runs ==>
      cfg.legal(WorkerStep(st, run, raise).history.runs[id])
  {
  }

  lemma WorkKeepsPlaced(cfg: Config, st: State, run: RunResult, raise: bool, id: Id)
    requires Inv(cfg, st)
    ensures Placed(WorkerStep(st, run, raise), id)
  {
    assert Placed(st, id);
    if Target(st) == Some(id) {
      WorkKeepsTarget(cfg, st, run, raise);
    } else {
      WorkTouchesOne(st, run, raise, id);
      StaysPlaced(st, WorkerStep(st, run, raise), id);
    }
  }

  lemma ActKeeps(cfg: Config, st: State, a: Action)
    requires Inv(cfg, st) && Enabled(cfg, st, a)
    ensures Inv(cfg, Act(cfg, st, a))
  {
    match a
    case Create(id) => CreateKeeps(cfg, st, id);
    case Enqueue(id) => EnqueueKeeps(cfg, st, id);
    case Work(run, raise) => WorkKeeps(cfg, st, run, raise);
    case Read(c) => ReadersKeep(cfg, st, c, ReaderStep(cfg.atomic, st, st.clients[c]));
    case Leave(c) => ReadersKeep(cfg, st, c, Drop(st, st.clients[c]));
    case Decide(id, v) => DecideKeeps(cfg, st, id, v);
  }

  lemma InitialInv(cfg: Config, st: State)
    requires Initial(st)
    ensures Inv(cfg, st)
  {
  }

  lemma {:induction false} RunKeeps(cfg: Config, st: State, actions: seq<Action>)
    requires Inv(cfg, st) && Runs(cfg, st, actions)
    ensures Inv(cfg, Reach(cfg, st, actions))
    decreases |actions|
  {
    if actions != [] {
      ActKeeps(cfg, st, actions[0]);
      RunKeeps(cfg, Act(cfg, st, actions[0]), actions[1..]);
    }
  }

  // ===== The life of a record ===============================================================

  /** What may have become of a record: status only moves pending, processing, then a terminal state;
      completed and failed records stay as they are, and an escalated one only ever receives a human
      decision, which fixes its disposition. */
  ghost predicate Later(r: Record, r': Record) {
    || r == r'
    || match r.status
       case Pending => !r'.status.Pending?
       case Processing => Terminal(r')
       case Escalated =>
         && r'.human.Some?
         && r' == r.(status := Completed, human := r'.human, disposition := Some(Decided(r'.human.value)))
       case _ => false
  }

  /** A decision saved late, from a copy loaded while the claim was escalated, leaves decisions final exactly when
      nobody has decided otherwise since. The protocol's decision step loads and saves at once, so it always does. */
  lemma LateDecisionExactly(copy: Record, now: Record, v: Verdict)
    requires copy.status == Escalated && Later(copy, now)
    ensures Later(now, WithDecision(copy, v)) <==> now == copy || now == WithDecision(copy, v)
  {
  }

  /** With a store that suspends between load and save, a denial can overwrite an approval. */
  lemma DecisionsCanOverlap(copy: Record)
    requires copy.status == Escalated
    ensures
      var approved, denied := WithDecision(copy, Approve), WithDecision(copy, Deny);
      Later(copy, approved) && !Later(approved, denied) && approved.human != denied.human
  {
    LateDecisionExactly(copy, WithDecision(copy, Approve), Deny);
  }

  lemma LaterTransitive(a: Record, b: Record, c: Record)
    requires Later(a, b) && Later(b, c)
    ensures Later(a, c)
  {
  }

  /** No record disappears, and each one only moves on. */
  ghost predicate MovesOn(st: State, st': State) {
    forall id :: id in st.store ==> id in st'.store && Later(st.store[id], st'.store[id])
  }

  lemma WorkMovesOn(cfg: Config, st: State, run: RunResult, raise: bool)
    requires Inv(cfg, st)
    ensures MovesOn(st, WorkerStep(st, run, raise))
  {
    forall id | id in st.store
      ensures id in WorkerStep(st, run, raise).store && Later(st.store[id], WorkerStep(st, run, raise).store[id])
    {
      if Target(st) != Some(id) { WorkTouchesOne(st, run, raise, id); }
    }
  }

  lemma ActMovesOn(cfg: Config, st: State, a: Action)
    requires Inv(cfg, st) && Enabled(cfg, st, a)
    ensures MovesOn(st, Act(cfg, st, a))
  {
    if a.Work? { WorkMovesOn(cfg, st, a.run, a.raise); }
  }

  lemma {:induction false} RunMovesOn(cfg: Config, st: State, actions: seq<Action>)
    requires Inv(cfg, st) && Runs(cfg, st, actions)
    ensures MovesOn(st, Reach(cfg, st, actions))
    decreases |actions|
  {
    if actions != [] {
      var next, last := Act(cfg, st, actions[0]), Reach(cfg, st, actions);
      ActMovesOn(cfg, st, actions[0]);
      ActKeeps(cfg, st, actions[0]);
      RunMovesOn(cfg, next, actions[1..]);
      forall id | id in st.store ensures id in last.store && Later(st.store[id], last.store[id]) {
        LaterTransitive(st.store[id], next.store[id], last.store[id]);
      }
    }
  }

  // ===== Main results ======================================================================

  /** Lifecycle over all runs: from any state of any run to any later one, records only move on; in
      particular a recorded human decision, and everything else about its claim, is final. */
  lemma RecordsMoveOn(cfg: Config, init: State, before: seq<Action>, after: seq<Action>)
    requires Initial(init) && Runs(cfg, init, before) && Runs(cfg, Reach(cfg, init, before), after)
    ensures
      var st, st' := Reach(cfg, init, before), Reach(cfg, Reach(cfg, init, before), after);
      && MovesOn(st, st')
      && forall id :: id in st.store && st.store[id].human.Some? ==> id in st'.store && st'.store[id] == st.store[id]
  {
    InitialInv(cfg, init);
    RunKeeps(cfg, init, before);
    var st := Reach(cfg, init, before);
    RunMovesOn(cfg, st, after);
    forall id | id in st.store && st.store[id].human.Some? ensures st.store[id].status == Completed {
      assert Placed(st, id);
    }
  }

  ghost predicate InOnePlace(b: Broker, id: Id) {
    || (id in b.submitting && id !in b.waiting && id !in b.unacked && id !in b.acked)
    || (id !in b.submitting && id in b.waiting && id !in b.unacked && id !in b.acked)
    || (id !in b.submitting && id !in b.waiting && id in b.unacked && id !in b.acked)
    || (id !in b.submitting && id !in b.waiting && id !in b.unacked && id in b.acked)
  }

  ghost predicate Nowhere(b: Broker, id: Id) {
    id !in b.submitting && id !in b.waiting && id !in b.unacked && id !in b.acked
  }

  /** Every created claim's message is in exactly one place, waiting at most once, and no other message
      exists; an acknowledged claim's record has reached a terminal state. */
  lemma MessagesPartitioned(cfg: Config, init: State, actions: seq<Action>)
    requires Initial(init) && Runs(cfg, init, actions)
    ensures
      var st, b := Reach(cfg, init, actions), Reach(cfg, init, actions).broker;
      && Distinct(b.waiting) && |b.unacked| <= 1
      && (forall id :: id in st.store ==> InOnePlace(b, id))
      && (forall id :: id !in st.store ==> Nowhere(b, id))
      && (forall id :: id in b.acked ==> id in st.store && st.store[id].status in {Completed, Escalated, Error})
  {
    InitialInv(cfg, init);
    RunKeeps(cfg, init, actions);
    var st, b := Reach(cfg, init, actions), Reach(cfg, init, actions).broker;
    forall id
      ensures id in st.store ==> InOnePlace(b, id)
      ensures id !in st.store ==> Nowhere(b, id)
      ensures id in b.acked ==> id in st.store && st.store[id].status in {Completed, Escalated, Error}
    {
      assert Placed(st, id);
    }
  }

  /** A stored disposition has a reason. A record a human has approved is completed and auto-approved, one a human has
      denied is completed and auto-denied, and both were escalated by their run. A record completed without a human
      carries the disposition of a legal run of the graph that did not escalate it. */
  lemma DispositionsExplained(cfg: Config, init: State, actions: seq<Action>, id: Id)
    requires Initial(init) && Runs(cfg, init, actions) && id in Reach(cfg, init, actions).store
    ensures
      var st := Reach(cfg, init, actions);
      var r := st.store[id];
      && (r.human.Some? ==>
            && r.status == Completed
            && (r.human == Some(Approve) ==> r.disposition == Some(G.AutoApproved))
            && (r.human == Some(Deny) ==> r.disposition == Some(G.AutoDenied))
            && id in st.history.runs && cfg.legal(st.history.runs[id]) && st.history.runs[id].Finished?
            && st.history.runs[id].disposition == Some(G.Escalated) && r.trace == st.history.runs[id].trace)
      && (r.human.None? && (r.status == Completed || r.status == Escalated) ==>
            && id in st.history.runs && cfg.legal(st.history.runs[id])
            && st.history.runs[id] == Finished(r.trace, r.disposition)
            && (r.status == Escalated <==> r.disposition == Some(G.Escalated)))
  {
    InitialInv(cfg, init);
    RunKeeps(cfg, init, actions);
    var st := Reach(cfg, init, actions);
    assert Placed(st, id);
  }
}
