// The worker and the write endpoints as they run on the heap (api/worker.py, api/routes/claims.py), each
// proved against the functions the protocol is made of.

module ApiWorker {
  import opened Prelude
  import C = CostMeter
  import G = Graph
  import T = GraphTheorems
  import opened Lifecycle
  import opened LifecycleTheorems
  import opened Infra

  // ===== Claim store ========================================================================

  const KEY_PREFIX: string := "claim:"

  function Key(id: Id): string {
    KEY_PREFIX + id
  }

  lemma KeyInjective(a: Id, b: Id)
    requires Key(a) == Key(b)
    ensures a == b
  {
    assert Key(a)[|KEY_PREFIX|..] == a && Key(b)[|KEY_PREFIX|..] == b;
  }

  class ClaimStore {
    const cp: FakeCheckpointer
    var ids: set<Id>
    /** The stored records by claim. */
    ghost var records: map<Id, Record>

    ghost predicate Valid()
      reads this, cp, cp.store.Values
    {
      && cp.Valid() && ids == records.Keys
      && (forall id {:trigger Key(id)} :: id in records <==> Key(id) in cp.store)
      && (forall id {:trigger Key(id)} :: id in records ==> cp.store[Key(id)].value == records[id])
    }

    constructor (cp: FakeCheckpointer)
      requires cp.Valid() && cp.store == map[]
      ensures Valid() && this.cp == cp && records == map[]
    {
      this.cp := cp;
      ids := {};
      records := map[];
    }

    method Load(id: Id) returns (r: Option<Record>)
      requires Valid()
      ensures r == if id in records then Some(records[id]) else None
    {
      var data := cp.Load(Key(id));
      if data.None? {
        return None;
      }
      r := Some(data.value.value);
    }

    method Save(id: Id, record: Record)
      requires Valid()
      modifies this, cp
      ensures Valid() && records == old(records)[id := record]
    {
      var data := new Document(record);
      cp.Save(Key(id), data);
      ids := ids + {id};
      records := records[id := record];
      forall other
        ensures other in records <==> Key(other) in cp.store
        ensures other in records ==> cp.store[Key(other)].value == records[other]
      {
        assert Key(other) in cp.store <==> Key(other) in cp.Contents();
        assert Key(other) in cp.store ==> cp.store[Key(other)].value == cp.Contents()[Key(other)];
        if Key(other) == Key(id) { KeyInjective(other, id); }
      }
    }

    method Create(id: Id)
      requires Valid()
      modifies this, cp
      ensures Valid() && records == old(records)[id := NEW_RECORD]
    {
      Save(id, NEW_RECORD);
    }
  }

  // ===== Write endpoints ====================================================================

  /** `submit_claim`, with the id it drew: the protocol's two submission steps. */
  method SubmitClaim(store: ClaimStore, queue: FakeQueue, id: Id, policyNumber: string, fnolText: string,
      ghost st: State)
    requires store.Valid() && st.store == store.records && st.broker.waiting == Ids(queue.q)
    modifies store, store.cp, queue
    ensures store.Valid() && store.records == old(store.records)[id := Record(Pending, None, [], None)]
    ensures queue.q == old(queue.q) + [Message(id, policyNumber, fnolText)] && queue.unacked == old(queue.unacked)
    ensures
      var st' := Enqueued(Created(st, id), id);
      st'.store == store.records && st'.broker.waiting == Ids(queue.q)
  {
    store.Create(id);
    queue.Enqueue(Message(id, policyNumber, fnolText));
  }

  datatype Response = NotFound | Conflict(status: Status) | Accepted(disposition: G.Disposition)

  /** Which of its three answers the endpoint owes. */
  ghost predicate Answers(records: map<Id, Record>, id: Id, v: Verdict, r: Response) {
    if id !in records then r == Response.NotFound
    else if records[id].status != Escalated then r == Conflict(records[id].status)
    else r == Accepted(Decided(v))
  }

  /** `human_decision`: the records change as the protocol says. An approval of an escalated claim completes it as
      auto-approved and a denial as auto-denied, which is also the answer; of any other claim nothing changes, and the
      answer says that it is unknown or where it stands. */
  method HumanDecision(store: ClaimStore, id: Id, v: Verdict) returns (r: Response)
    requires store.Valid()
    modifies store, store.cp
    ensures store.Valid() && store.records == HumanDecided(old(store.records), id, v)
    ensures Answers(old(store.records), id, v, r)
    ensures id !in old(store.records) ==> store.records == old(store.records) && r == Response.NotFound
    ensures id in old(store.records) && old(store.records)[id].status != Escalated ==>
      store.records == old(store.records) && r == Conflict(old(store.records)[id].status)
    ensures id in old(store.records) && old(store.records)[id].status == Escalated && v == Approve ==>
      && r == Accepted(G.AutoApproved)
      && store.records == old(store.records)[id := old(store.records)[id].(
           human := Some(Approve), status := Completed, disposition := Some(G.AutoApproved))]
    ensures id in old(store.records) && old(store.records)[id].status == Escalated && v == Deny ==>
      && r == Accepted(G.AutoDenied)
      && store.records == old(store.records)[id := old(store.records)[id].(
           human := Some(Deny), status := Completed, disposition := Some(G.AutoDenied))]
  {
    var loaded := store.Load(id);
    if loaded.None? {
      r := Response.NotFound;
    } else if loaded.value.status != Escalated {
      r := Conflict(loaded.value.status);
    } else {
      var record := NoteDecision(loaded.value, v);
      store.Save(id, record);
      r := Accepted(Decided(v));
    }
  }

  method NoteDecision(loaded: Record, v: Verdict) returns (record: Record)
    ensures record == WithDecision(loaded, v)
  {
    record := loaded;
    record := record.(human := Some(v));
    record := record.(status := Completed);
    record := record.(disposition := Some(if v == Approve then G.AutoApproved else G.AutoDenied));
  }

  // ===== Processing a claim =================================================================

  function PublishAll(bus: Bus, id: Id, events: seq<Event>): Bus {
    if events == [] then bus
    else Publish(PublishAll(bus, id, events[..|events| - 1]), id, events[|events| - 1])
  }

  lemma {:induction false} PublishAllConcat(bus: Bus, id: Id, a: seq<Event>, b: seq<Event>)
    ensures PublishAll(bus, id, a + b) == PublishAll(PublishAll(bus, id, a), id, b)
  {
    if b == [] {
      assert a + b == a;
    } else {
      assert (a + b)[..|a + b| - 1] == a + b[..|b| - 1];
      PublishAllConcat(bus, id, a, b[..|b| - 1]);
    }
  }

  /** What streaming the graph comes to: the states it yields, and whether an exception ends it. */
  function ResultOf(stream: seq<G.GraphState>, raises: bool): RunResult {
    if raises then Fails(T.Published(stream, 0))
    else LastResult(if stream == [] then None else Some(stream[|stream| - 1]))
  }

  lemma FirstPublished(stream: seq<G.GraphState>, seen: nat)
    requires stream != []
    ensures T.Published(stream[..1], seen) == T.Published(stream[..0], seen) + T.Unseen(stream[0].trace, seen)
  {
    assert stream[..1][1..] == [] && T.Published(stream[..1][1..], |stream[0].trace|) == [];
  }

  lemma PrefixTail<S>(s: seq<S>, i: nat)
    requires 0 < i <= |s|
    ensures s[..i][1..] == s[1..][..i - 1] && s[..i][0] == s[0]
  {
  }

  lemma {:induction false} PublishedSplit(stream: seq<G.GraphState>, i: nat, seen: nat)
    requires i < |stream|
    ensures
      var prev := if i == 0 then seen else |stream[i - 1].trace|;
      T.Published(stream[..i + 1], seen) == T.Published(stream[..i], seen) + T.Unseen(stream[i].trace, prev)
    decreases |stream|
  {
    if i == 0 {
      FirstPublished(stream, seen);
    } else {
      var rest, first := stream[1..], |stream[0].trace|;
      PublishedSplit(rest, i - 1, first);
      PrefixTail(stream, i);
      PrefixTail(stream, i + 1);
      ConcatAssoc(T.Unseen(stream[0].trace, seen), T.Published(rest[..i - 1], first),
        T.Unseen(stream[i].trace, |stream[i - 1].trace|));
    }
  }

  /** Publishing a run of steps, one after the other. */
  method PublishSteps(bus: EventBus, id: Id, steps: seq<C.StepTrace>)
    requires bus.Valid()
    modifies bus`abs, bus.made
    ensures bus.Valid() && bus.abs == PublishAll(old(bus.abs), id, Events(steps))
  {
    for i := 0 to |steps|
      invariant bus.Valid()
      invariant bus.abs == PublishAll(old(bus.abs), id, Events(steps[..i]))
    {
      bus.Publish(id, Step(steps[i]));
      assert Events(steps[..i + 1])[..i] == Events(steps[..i]);
    }
    assert steps[..|steps|] == steps;
  }

  lemma EventsConcat(a: seq<C.StepTrace>, b: seq<C.StepTrace>)
    ensures Events(a + b) == Events(a) + Events(b)
  {
  }

  /** The loop over the streamed states: each one's trace entries past the last length seen are published. */
  method StreamStates(bus: EventBus, id: Id, stream: seq<G.GraphState>) returns (finalState: Option<G.GraphState>)
    requires bus.Valid()
    modifies bus`abs, bus.made
    ensures bus.Valid() && bus.abs == PublishAll(old(bus.abs), id, Events(T.Published(stream, 0)))
    ensures finalState == if stream == [] then None else Some(stream[|stream| - 1])
  {
    finalState := None;
    var prevTraceLen := 0;
    for i := 0 to |stream|
      invariant bus.Valid()
      invariant bus.abs == PublishAll(old(bus.abs), id, Events(T.Published(stream[..i], 0)))
      invariant prevTraceLen == if i == 0 then 0 else |stream[i - 1].trace|
      invariant finalState == if i == 0 then None else Some(stream[i - 1])
    {
      var current := stream[i].trace;
      var unseen := T.Unseen(current, prevTraceLen);
      PublishSteps(bus, id, unseen);
      PublishedSplit(stream, i, 0);
      EventsConcat(T.Published(stream[..i], 0), unseen);
      PublishAllConcat(old(bus.abs), id, Events(T.Published(stream[..i], 0)), Events(unseen));
      prevTraceLen := |current|;
      finalState := Some(stream[i]);
    }
    assert stream[..|stream|] == stream;
  }

  /** What the worker tells about a claim before it saves the last record. */
  function ToldFirst(stream: seq<G.GraphState>, raises: bool): seq<Event> {
    Events(T.Published(stream, 0)) + if raises then [] else [Sentinel]
  }

  /** Streams the graph, and marks the end of the stream unless it raised. */
  method StreamClaim(bus: EventBus, id: Id, stream: seq<G.GraphState>,
      raises: bool) returns (finalState: Option<G.GraphState>)
    requires bus.Valid()
    modifies bus`abs, bus.made
    ensures bus.Valid() && bus.abs == PublishAll(old(bus.abs), id, ToldFirst(stream, raises))
    ensures finalState == if stream == [] then None else Some(stream[|stream| - 1])
  {
    finalState := StreamStates(bus, id, stream);
    var steps := Events(T.Published(stream, 0));
    if raises {
      assert steps + [] == steps;
    } else {
      bus.Publish(id, Sentinel);
      assert (steps + [Sentinel])[..|steps|] == steps;
    }
  }

  /** The records after `_process_claim`: only a run that neither fails nor fails to be saved is recorded. */
  function Processed(records: map<Id, Record>, id: Id, run: RunResult, saveFails: bool): map<Id, Record>
    requires id in records
  {
    var started := records[id].(status := Processing);
    records[id := if run.Fails? || saveFails then started else Saved(started, run)]
  }

  /** The opening of `_process_claim`: load the record and mark it as processing. */
  method StartProcessing(store: ClaimStore, id: Id) returns (r: Option<Record>)
    requires store.Valid()
    modifies store, store.cp
    ensures store.Valid()
    ensures r.Some? <==> id in old(store.records)
    ensures r.Some? ==> r.value == old(store.records)[id].(status := Processing)
    ensures r.Some? ==> store.records == old(store.records)[id := r.value]
    ensures r.None? ==> store.records == old(store.records)
  {
    r := store.Load(id);
    if r.Some? {
      r := Some(r.value.(status := Processing));
      store.Save(id, r.value);
    }
  }

  lemma PutTwice<V>(m: map<Id, V>, id: Id, v: V, w: V)
    ensures m[id := v][id := w] == m[id := w]
  {
  }

  /** `_process_claim`: an unknown claim is passed over; a known one is marked as processing, streamed, and
      saved with what the run came to. It raises if the stream does, before the sentinel, or if the summary or
      the last save does, after it; either way the record stays as processing. */
  method ProcessClaim(store: ClaimStore, bus: EventBus, id: Id, stream: seq<G.GraphState>, raises: bool,
      saveFails: bool) returns (raised: bool)
    requires store.Valid() && bus.Valid()
    modifies store, store.cp, bus`abs, bus.made
    ensures store.Valid() && bus.Valid()
    ensures raised == (id in old(store.records) && (raises || saveFails))
    ensures id !in old(store.records) ==> store.records == old(store.records) && bus.abs == old(bus.abs)
    ensures id in old(store.records) ==>
      && store.records == Processed(old(store.records), id, ResultOf(stream, raises), saveFails)
      && bus.abs == PublishAll(old(bus.abs), id, ToldFirst(stream, raises))
  {
    var started := StartProcessing(store, id);
    if started.None? {
      return false;
    }
    var finalState := StreamClaim(bus, id, stream, raises);
    if !raises && !saveFails {
      FinishProcessing(store, id, started.value, finalState);
      PutTwice(old(store.records), id, started.value, Saved(started.value, LastResult(finalState)));
    }
    raised := raises || saveFails;
  }

  /** The end of `_process_claim`: save what the stream came to, on the worker's own copy of the record. */
  method FinishProcessing(store: ClaimStore, id: Id, started: Record, finalState: Option<G.GraphState>)
    requires store.Valid()
    modifies store, store.cp
    ensures store.Valid() && store.records == old(store.records)[id := Saved(started, LastResult(finalState))]
  {
    var record := NoteResult(started, finalState);
    store.Save(id, record);
  }

  function LastResult(finalState: Option<G.GraphState>): RunResult {
    if finalState.None? then NoState else Finished(finalState.value.trace, finalState.value.disposition)
  }

  /** The record the worker saves last: an error if there was no state, the last state's otherwise. */
  method NoteResult(started: Record, finalState: Option<G.GraphState>) returns (record: Record)
    ensures record == Saved(started, LastResult(finalState))
  {
    record := started;
    if finalState.None? {
      record := record.(status := Error);
      return;
    }
    var disposition := finalState.value.disposition;
    record := record.(disposition := disposition);
    record := record.(status := if disposition == Some(G.Escalated) then Escalated else Completed);
    record := record.(trace := finalState.value.trace);
  }

  // ===== The worker loop ====================================================================

  /** The record of a claim after its turn: an exception leaves an error. */
  function HandledRecord(r: Record, run: RunResult, saveFails: bool): Record {
    if run.Fails? || saveFails then r.(status := Error) else Saved(r.(status := Processing), run)
  }

  /** What a claim's readers are told in its turn: every step, the sentinel, and a second one if the worker
      raised after the first. */
  function ToldInTurn(steps: seq<C.StepTrace>, run: RunResult, saveFails: bool): seq<Event> {
    Events(steps) + if saveFails && !run.Fails? then [Sentinel, Sentinel] else [Sentinel]
  }

  /** The `except` branch: the stored record becomes an error, then readers are unblocked. */
  method HandleFailure(store: ClaimStore, bus: EventBus, id: Id)
    requires store.Valid() && bus.Valid()
    modifies store, store.cp, bus`abs, bus.made
    ensures store.Valid() && bus.Valid()
    ensures store.records == Failed(old(store.records), id)
    ensures bus.abs == Publish(old(bus.abs), id, Sentinel)
  {
    var record := store.Load(id);
    if record.Some? {
      store.Save(id, record.value.(status := Error));
    }
    bus.Publish(id, Sentinel);
  }

  function Failed(records: map<Id, Record>, id: Id): map<Id, Record> {
    if id in records then records[id := records[id].(status := Error)] else records
  }

  /** The `try` of the worker loop: process the claim, and handle an exception. */
  method HandleClaim(store: ClaimStore, bus: EventBus, id: Id, stream: seq<G.GraphState>, raises: bool, saveFails: bool)
    requires store.Valid() && bus.Valid()
    modifies store, store.cp, bus`abs, bus.made
    ensures store.Valid() && bus.Valid()
    ensures id in old(store.records) ==>
      var run := ResultOf(stream, raises);
      && store.records == old(store.records)[id := HandledRecord(old(store.records)[id], run, saveFails)]
      && bus.abs == PublishAll(old(bus.abs), id, ToldInTurn(T.Published(stream, 0), run, saveFails))
    ensures id !in old(store.records) ==> store.records == old(store.records) && bus.abs == old(bus.abs)
  {
    var raised := ProcessClaim(store, bus, id, stream, raises, saveFails);
    if raised {
      HandleFailure(store, bus, id);
    }
    ToldAll(old(bus.abs), id, stream, raises, saveFails);
  }

  /** The steps, the sentinel due after them, and the one the `except` branch adds. */
  lemma ToldAll(bus: Bus, id: Id, stream: seq<G.GraphState>, raises: bool, saveFails: bool)
    ensures
      var first := ToldFirst(stream, raises);
      var all := ToldInTurn(T.Published(stream, 0), ResultOf(stream, raises), saveFails);
      PublishAll(bus, id, all) ==
        if raises || saveFails then Publish(PublishAll(bus, id, first), id, Sentinel) else PublishAll(bus, id, first)
  {
    var first := ToldFirst(stream, raises);
    var all := ToldInTurn(T.Published(stream, 0), ResultOf(stream, raises), saveFails);
    if raises || saveFails {
      assert all == first + [Sentinel];
      assert (first + [Sentinel])[..|first|] == first;
    } else {
      assert all == first;
    }
  }

  lemma HandledIsTerminal(records: map<Id, Record>, id: Id, run: RunResult, saveFails: bool)
    ensures id in records ==> Terminal(HandledRecord(records[id], run, saveFails))
  {
  }

  function Ids(messages: seq<Message>): (r: seq<Id>)
    ensures |r| == |messages| && forall i :: 0 <= i < |r| ==> r[i] == messages[i].id
  {
    seq(|messages|, i requires 0 <= i < |messages| => messages[i].id)
  }

  /** What dequeuing and acknowledging the first message leaves. */
  lemma QueueAfter(q: seq<Message>, unacked: map<Id, Message>)
    requires q != []
    ensures Ids(q[1..]) == Ids(q)[1..] && Ids(q)[0] == q[0].id
    ensures (unacked[q[0].id := q[0]] - {q[0].id}).Keys == unacked.Keys - {q[0].id}
  {
  }

  /** The protocol's state, with the worker idle, is made of these parts. */
  ghost predicate MadeOf(st: State, waiting: seq<Id>, unacked: set<Id>, records: map<Id, Record>, bus: Bus) {
    && st.worker.Idle? && st.store == records && st.bus == bus
    && st.broker.waiting == waiting && st.broker.unacked == unacked
  }

  /** The heap is in the protocol's state, with the worker idle. */
  ghost predicate Mirrors(st: State, queue: FakeQueue, store: ClaimStore, bus: EventBus)
    reads queue, store, bus
  {
    MadeOf(st, Ids(queue.q), queue.unacked.Keys, store.records, bus.abs)
  }

  /** The steps published while streaming are those of the result, as for every stream whose states grow. */
  ghost predicate Consistent(stream: seq<G.GraphState>, raises: bool) {
    StepsOf(ResultOf(stream, raises)) == T.Published(stream, 0)
  }

  /** One iteration of `run_worker`. Whatever becomes of the claim, its message is acknowledged, its record is
      terminal, and its readers are told every step and the sentinel, twice if the worker raised after the first. */
  method HandleMessage(queue: FakeQueue, store: ClaimStore, bus: EventBus, stream: seq<G.GraphState>, raises: bool,
      saveFails: bool) returns (handled: Option<Id>)
    requires store.Valid() && bus.Valid()
    modifies queue, store, store.cp, bus`abs, bus.made
    ensures store.Valid() && bus.Valid()
    ensures handled == if old(queue.q) == [] then None else Some(old(queue.q)[0].id)
    ensures handled.None? ==> queue.q == [] && queue.unacked == old(queue.unacked)
    ensures handled.Some? ==> queue.q == old(queue.q)[1..]
    ensures handled.Some? ==> queue.unacked == old(queue.unacked)[handled.value := old(queue.q)[0]] - {handled.value}
    ensures handled.None? || handled.value !in old(store.records) ==>
      store.records == old(store.records) && bus.abs == old(bus.abs)
    ensures handled.Some? && handled.value in old(store.records) ==>
      var id, run := handled.value, ResultOf(stream, raises);
      && store.records == old(store.records)[id := HandledRecord(old(store.records)[id], run, saveFails)]
      && Terminal(store.records[id])
      && bus.abs == PublishAll(old(bus.abs), id, ToldInTurn(T.Published(stream, 0), run, saveFails))
  {
    var msg := queue.Dequeue();
    if msg.None? {
      return None;
    }
    HandleClaim(store, bus, msg.value.id, stream, raises, saveFails);
    HandledIsTerminal(old(store.records), msg.value.id, ResultOf(stream, raises), saveFails);
    queue.Ack(msg.value.id);
    handled := Some(msg.value.id);
  }

  /** The same iteration, beside the protocol: it takes the heap from the protocol's state before the worker's turn
      to the one after it. */
  method TakeTurn(queue: FakeQueue, store: ClaimStore, bus: EventBus, stream: seq<G.GraphState>, raises: bool,
      saveFails: bool, ghost st: State) returns (handled: Option<Id>)
    requires store.Valid() && bus.Valid() && Mirrors(st, queue, store, bus)
    modifies queue, store, store.cp, bus`abs, bus.made
    ensures store.Valid() && bus.Valid()
    ensures Consistent(stream, raises) ==>
      Mirrors(WorkerTurn(st, ResultOf(stream, raises), saveFails), queue, store, bus)
  {
    handled := HandleMessage(queue, store, bus, stream, raises, saveFails);
    if handled.Some? && Consistent(stream, raises) {
      QueueAfter(old(queue.q), old(queue.unacked));
      TurnMadeOf(st, ResultOf(stream, raises), T.Published(stream, 0), saveFails);
    }
  }

  // ----- The worker's turn in the protocol ----------------------------------------------------

  /** The state after a turn on the first waiting claim. */
  ghost predicate AfterTurn(st: State, st': State, run: RunResult, saveFails: bool)
    requires st.broker.waiting != []
  {
    var id := st.broker.waiting[0];
    && st'.worker.Idle?
    && st'.broker.waiting == st.broker.waiting[1..]
    && st'.broker.unacked == st.broker.unacked - {id} && st'.broker.acked == st.broker.acked + {id}
    && st'.store == (if id in st.store then st.store[id := HandledRecord(st.store[id], run, saveFails)] else st.store)
    && st'.bus == (if id in st.store then PublishAll(st.bus, id, ToldInTurn(StepsOf(run), run, saveFails)) else st.bus)
  }

  lemma PublishFirst(bus: Bus, id: Id, e: Event, rest: seq<Event>)
    ensures PublishAll(bus, id, [e] + rest) == PublishAll(Publish(bus, id, e), id, rest)
  {
    assert [e][..0] == [];
    PublishAllConcat(bus, id, [e], rest);
  }

  lemma ToldStep(bus: Bus, id: Id, todo: seq<C.StepTrace>, run: RunResult, saveFails: bool)
    requires todo != []
    ensures PublishAll(bus, id, ToldInTurn(todo, run, saveFails))
         == PublishAll(Publish(bus, id, Step(todo[0])), id, ToldInTurn(todo[1..], run, saveFails))
  {
    assert ToldInTurn(todo, run, saveFails) == [Step(todo[0])] + ToldInTurn(todo[1..], run, saveFails);
    PublishFirst(bus, id, Step(todo[0]), ToldInTurn(todo[1..], run, saveFails));
  }

  /** What is left of a turn while streaming: the bus and the store it ends with. */
  lemma {:induction false} StreamingTurn(st: State, run: RunResult, saveFails: bool)
    requires st.worker.Streaming? && st.worker.id in st.store && st.store[st.worker.id] == st.worker.copy
    requires st.worker.id in st.history.runs && st.history.runs[st.worker.id] == run
    ensures
      var id, copy := st.worker.id, st.worker.copy;
      TurnEnds(st, UntilIdle(st, run, saveFails),
               st.store[id := if run.Fails? || saveFails then copy.(status := Error) else Saved(copy, run)],
               PublishAll(st.bus, id, ToldInTurn(st.worker.todo, run, saveFails)))
    decreases |st.worker.todo|
  {
    if st.worker.todo != [] {
      NextStep(st, run, saveFails);
      StreamingTurn(WorkerStep(st, run, saveFails), run, saveFails);
      ToldStep(st.bus, st.worker.id, st.worker.todo, run, saveFails);
    } else {
      StreamEnds(st, run, saveFails);
    }
  }

  /** The turn ends here, with the claim acknowledged. */
  ghost predicate TurnEnds(st: State, st': State, store: map<Id, Record>, bus: Bus)
    requires !st.worker.Idle?
  {
    var id := st.worker.id;
    && st'.worker.Idle?
    && st'.broker == st.broker.(unacked := st.broker.unacked - {id}, acked := st.broker.acked + {id})
    && st'.store == store && st'.bus == bus
  }

  lemma NextStep(st: State, run: RunResult, saveFails: bool)
    requires !st.worker.Idle?
    ensures UntilIdle(st, run, saveFails) == UntilIdle(WorkerStep(st, run, saveFails), run, saveFails)
  {
  }

  lemma AckTurn(st: State, run: RunResult, saveFails: bool)
    requires st.worker.Acking?
    ensures TurnEnds(st, UntilIdle(st, run, saveFails), st.store, st.bus)
  {
    assert UntilIdle(st, run, saveFails) == UntilIdle(Ack(st, st.worker.id), run, saveFails);
  }

  /** The `except` branch and what follows. */
  lemma ErrTurn(st: State, run: RunResult, saveFails: bool)
    requires st.worker.ErrLoading? && st.worker.id in st.store
    ensures
      var id := st.worker.id;
      TurnEnds(st, UntilIdle(st, run, saveFails), Failed(st.store, id), Publish(st.bus, id, Sentinel))
  {
    var s1 := WorkerStep(st, run, saveFails);
    var s2 := WorkerStep(s1, run, saveFails);
    var s3 := WorkerStep(s2, run, saveFails);
    assert s1.worker == ErrSaving(st.worker.id, st.store[st.worker.id]);
    assert s2.worker == ErrMarking(st.worker.id) && s2.store == Failed(st.store, st.worker.id);
    NextStep(st, run, saveFails);
    NextStep(s1, run, saveFails);
    NextStep(s2, run, saveFails);
    AckTurn(s3, run, saveFails);
  }

  /** The stream is over: mark its end and save, or raise on the way. */
  lemma StreamEnds(st: State, run: RunResult, saveFails: bool)
    requires st.worker.Streaming? && st.worker.todo == [] && st.worker.id in st.store
    requires st.store[st.worker.id] == st.worker.copy
    requires st.worker.id in st.history.runs && st.history.runs[st.worker.id] == run
    ensures
      var id, copy := st.worker.id, st.worker.copy;
      TurnEnds(st, UntilIdle(st, run, saveFails),
               st.store[id := if run.Fails? || saveFails then copy.(status := Error) else Saved(copy, run)],
               PublishAll(st.bus, id, ToldInTurn([], run, saveFails)))
  {
    var id := st.worker.id;
    var s1 := WorkerStep(st, run, saveFails);
    var s2 := WorkerStep(s1, run, saveFails);
    OneOrTwo(st.bus, id);
    NextStep(st, run, saveFails);
    NextStep(s1, run, saveFails);
    if run.Fails? {
      ErrTurn(s1, run, saveFails);
    } else if saveFails {
      assert s2.worker == ErrLoading(id) && s2.bus == Publish(st.bus, id, Sentinel);
      ErrTurn(s2, run, saveFails);
    } else {
      AckTurn(s2, run, saveFails);
    }
  }

  lemma OneOrTwo(bus: Bus, id: Id)
    ensures PublishAll(bus, id, Events([]) + [Sentinel]) == Publish(bus, id, Sentinel)
    ensures PublishAll(bus, id, Events([]) + [Sentinel, Sentinel]) == Publish(Publish(bus, id, Sentinel), id, Sentinel)
  {
    assert Events([]) + [Sentinel] == [Sentinel] && Events([]) + [Sentinel, Sentinel] == [Sentinel] + [Sentinel];
    PublishFirst(bus, id, Sentinel, []);
    PublishFirst(bus, id, Sentinel, [Sentinel]);
    PublishFirst(Publish(bus, id, Sentinel), id, Sentinel, []);
    assert [Sentinel] + [] == [Sentinel];
  }

  /** The turn, in one go. */
  lemma TurnIs(st: State, run: RunResult, saveFails: bool)
    requires st.worker.Idle? && st.broker.waiting != []
    ensures AfterTurn(st, WorkerTurn(st, run, saveFails), run, saveFails)
  {
    var id := st.broker.waiting[0];
    var s1 := WorkerStep(st, run, saveFails);
    var s2 := WorkerStep(s1, run, saveFails);
    assert s1.worker == Got(id);
    assert s1.broker.unacked - {id} == st.broker.unacked - {id};
    NextStep(s1, run, saveFails);
    if id in st.store {
      NextStep(s2, run, saveFails);
      var s3 := WorkerStep(s2, run, saveFails);
      assert s3 == Begin(s2, id, st.store[id], run);
      StreamingTurn(s3, run, saveFails);
    } else {
      AckTurn(s2, run, saveFails);
    }
  }

  lemma TurnMadeOf(st: State, run: RunResult, steps: seq<C.StepTrace>, saveFails: bool)
    requires st.worker.Idle? && st.broker.waiting != [] && StepsOf(run) == steps
    ensures
      var id := st.broker.waiting[0];
      MadeOf(WorkerTurn(st, run, saveFails), st.broker.waiting[1..], st.broker.unacked - {id},
        if id in st.store then st.store[id := HandledRecord(st.store[id], run, saveFails)] else st.store,
        if id in st.store then PublishAll(st.bus, id, ToldInTurn(steps, run, saveFails)) else st.bus)
  {
    TurnIs(st, run, saveFails);
  }

  /** For a fresh claim and a stream whose states only grow, a turn leaves the claim as the protocol's invariant
      demands of a settled one: the same record, the same events. */
  lemma HandledIsSettled(stream: seq<G.GraphState>, raises: bool, saveFails: bool)
    requires stream != [] && T.Grows(stream[0], stream[1..]) && stream[0].trace == []
    ensures
      var run, steps := ResultOf(stream, raises), T.Published(stream, 0);
      var r := HandledRecord(NEW_RECORD, run, saveFails);
      && Consistent(stream, raises) && Terminal(r)
      && (if raises || saveFails then r == PROCESSING.(status := Error) else Outcome(r, run))
      && ToldInTurn(steps, run, saveFails) == (if raises || saveFails then Told(run) + [Sentinel] else Told(run))
  {
    var rest := stream[1..];
    assert stream[0].trace[0..] + T.Published(rest, 0) == T.Published(rest, 0);
    if rest != [] {
      T.GrowsPublished(stream[0], rest);
      assert [] + T.Published(rest, 0) == T.Published(rest, 0);
      assert rest[|rest| - 1] == stream[|stream| - 1];
    }
    var run := ResultOf(stream, raises);
    assert Told(run) + [Sentinel] == Events(StepsOf(run)) + if raises then [Sentinel] else [Sentinel, Sentinel];
  }
}
