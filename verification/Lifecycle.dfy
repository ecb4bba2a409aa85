// The claim lifecycle and live-stream protocol (api/worker.py, api/routes/claims.py and the in-memory
// queue and checkpointer) as steps over one global state: a worker, any number of stream readers and submitters
// interleave between any two of their suspension points, and with human decisions, each of which is one step.

module Lifecycle {
  import opened Prelude
  import C = CostMeter
  import G = Graph

  type Id = string

  // ===== Records ==========================================================================

  datatype Status = Pending | Processing | Completed | Escalated | Error

  datatype Verdict = Approve | Deny

  /** A stored claim record, without the agents' outputs. */
  datatype Record = Record(status: Status, disposition: Option<G.Disposition>, trace: seq<C.StepTrace>,
      human: Option<Verdict>)

  const NEW_RECORD: Record := Record(Pending, None, [], None)

  predicate Terminal(r: Record) {
    r.status == Completed || r.status == Escalated || r.status == Error
  }

  /** What streaming the graph yields: a last state, an exception after some steps, or no state at all. */
  datatype RunResult =
    | Finished(trace: seq<C.StepTrace>, disposition: Option<G.Disposition>)
    | Fails(trace: seq<C.StepTrace>)
    | NoState

  function StepsOf(run: RunResult): seq<C.StepTrace> {
    if run.NoState? then [] else run.trace
  }

  /** The record the worker saves last, from its own copy. */
  function Saved(r: Record, run: RunResult): Record {
    if run.Finished?
    then r.(disposition := run.disposition, trace := run.trace,
            status := if run.disposition == Some(G.Escalated) then Escalated else Completed)
    else r.(status := Error)
  }

  function Decided(v: Verdict): G.Disposition {
    if v == Approve then G.AutoApproved else G.AutoDenied
  }

  function WithDecision(r: Record, v: Verdict): Record {
    r.(human := Some(v), status := Completed, disposition := Some(Decided(v)))
  }

  /** `human_decision`: only an escalated record changes. */
  function HumanDecided(records: map<Id, Record>, id: Id, v: Verdict): map<Id, Record> {
    if id in records && records[id].status == Escalated
    then records[id := WithDecision(records[id], v)]
    else records
  }

  // ===== Events and readers ===============================================================

  /** What travels on a claim's queue and out to its readers; the sentinel goes out as `done`. */
  datatype Event = Step(step: C.StepTrace) | Sentinel | NotFound

  function Events(trace: seq<C.StepTrace>): (r: seq<Event>)
    ensures |r| == |trace| && forall i :: 0 <= i < |r| ==> r[i] == Step(trace[i])
  {
    seq(|trace|, i requires 0 <= i < |trace| => Step(trace[i]))
  }

  /** Where a reader stands; `queue` is the queue object it holds. */
  datatype Reader =
    | Start
    | Subscribed(queue: nat)
    | Live(queue: nat)
    | TimedOut(queue: nat)
    | Replaying(rest: seq<C.StepTrace>)
    | Closing(how: Ending)
    | Done(how: Ending)

  datatype Ending = BySentinel | ByReplay | ByError | Dropped

  /** A stream request for one claim: what it has sent and, as history, how many events had been published
      when it subscribed and what it had sent when it began to replay. */
  datatype Client = Client(claim: Id, at: Reader, sent: seq<Event>, missed: nat, before: seq<Event>)

  predicate Holds(c: Client) {
    c.at.Subscribed? || c.at.Live? || c.at.TimedOut?
  }

  // ===== The worker =======================================================================

  datatype Worker =
    | Idle
    | Got(id: Id)
    | Loaded(id: Id, copy: Record)
    | Streaming(id: Id, copy: Record, todo: seq<C.StepTrace>)
    | Saving(id: Id, copy: Record)
    | ErrLoading(id: Id)
    | ErrSaving(id: Id, copy: Record)
    | ErrMarking(id: Id)
    | Acking(id: Id)

  // ===== Global state =====================================================================

  /** The message queue: claims created but not enqueued yet, waiting, handed out, and acknowledged. */
  datatype Broker = Broker(submitting: set<Id>, waiting: seq<Id>, unacked: set<Id>, acked: set<Id>)

  /** The event bus: each claim's current queue, and the contents and claim of every queue ever made. */
  datatype Bus = Bus(current: map<Id, nat>, pool: seq<seq<Event>>, owner: seq<Id>)

  /** History: what was published for each claim, what running it yielded, and whether the worker raised. */
  datatype History = History(published: map<Id, seq<Event>>, runs: map<Id, RunResult>, raised: set<Id>)

  datatype State = State(
    store: map<Id, Record>, broker: Broker, bus: Bus, worker: Worker, clients: map<nat, Client>, history: History)

  function Published(h: History, id: Id): seq<Event> {
    if id in h.published then h.published[id] else []
  }

  /** `EventBus.publish`: an event goes to the claim's current queue, or nowhere. */
  function Publish(bus: Bus, id: Id, e: Event): Bus {
    if id in bus.current && bus.current[id] < |bus.pool|
    then bus.(pool := bus.pool[bus.current[id] := bus.pool[bus.current[id]] + [e]])
    else bus
  }

  function Unsubscribe(bus: Bus, id: Id): Bus {
    bus.(current := bus.current - {id})
  }

  function Note(h: History, id: Id, e: Event): History {
    h.(published := h.published[id := Published(h, id) + [e]])
  }

  // ----- Submission -----------------------------------------------------------------------

  /** `submit_claim` up to its message: a pending record. */
  function Created(st: State, id: Id): State {
    st.(store := st.store[id := NEW_RECORD], broker := st.broker.(submitting := st.broker.submitting + {id}))
  }

  /** The rest of `submit_claim`: the message joins the queue. */
  function Enqueued(st: State, id: Id): State {
    st.(broker := st.broker.(submitting := st.broker.submitting - {id}, waiting := st.broker.waiting + [id]))
  }

  // ----- Worker steps ---------------------------------------------------------------------

  function Dequeue(st: State): State
    requires st.broker.waiting != []
  {
    var id := st.broker.waiting[0];
    st.(broker := st.broker.(waiting := st.broker.waiting[1..], unacked := st.broker.unacked + {id}), worker := Got(id))
  }

  /** Saves the claim as processing and starts the graph; `run` is what streaming it will yield. */
  function Begin(st: State, id: Id, copy: Record, run: RunResult): State {
    var started := copy.(status := Processing);
    st.(store := st.store[id := started], worker := Streaming(id, started, StepsOf(run)),
        history := st.history.(runs := st.history.runs[id := run]))
  }

  function Tell(st: State, id: Id, e: Event, next: Worker): State {
    st.(bus := Publish(st.bus, id, e), history := Note(st.history, id, e), worker := next)
  }

  function Raise(st: State, id: Id): State {
    st.(worker := ErrLoading(id), history := st.history.(raised := st.history.raised + {id}))
  }

  function Keep(st: State, id: Id, r: Record, next: Worker): State {
    st.(store := st.store[id := r], worker := next)
  }

  function Ack(st: State, id: Id): State {
    st.(broker := st.broker.(unacked := st.broker.unacked - {id}, acked := st.broker.acked + {id}), worker := Idle)
  }

  /** One step of the worker between two suspension points. `run` is drawn when the graph starts;
      `raise` lets the final save fail. */
  function WorkerStep(st: State, run: RunResult, raise: bool): State {
    match st.worker
    case Idle => if st.broker.waiting == [] then st else Dequeue(st)
    case Got(id) => st.(worker := if id in st.store then Loaded(id, st.store[id]) else Acking(id))
    case Loaded(id, copy) => Begin(st, id, copy, run)
    case Streaming(id, copy, todo) =>
      if todo != [] then Tell(st, id, Step(todo[0]), Streaming(id, copy, todo[1..]))
      else if id in st.history.runs && st.history.runs[id].Fails? then Raise(st, id)
      else Tell(st, id, Sentinel, Saving(id, copy))
    case Saving(id, copy) =>
      if raise || id !in st.history.runs then Raise(st, id)
      else Keep(st, id, Saved(copy, st.history.runs[id]), Acking(id))
    case ErrLoading(id) => st.(worker := if id in st.store then ErrSaving(id, st.store[id]) else ErrMarking(id))
    case ErrSaving(id, copy) => Keep(st, id, copy.(status := Error), ErrMarking(id))
    case ErrMarking(id) => Tell(st, id, Sentinel, Acking(id))
    case Acking(id) => Ack(st, id)
  }

  /** How far the worker is from idling again, when running its claim yields `run`. */
  function WorkLeft(worker: Worker, run: RunResult): nat {
    match worker
    case Idle => 0
    case Acking(_) => 1
    case ErrMarking(_) => 2
    case ErrSaving(_, _) => 3
    case ErrLoading(_) => 4
    case Saving(_, _) => 5
    case Streaming(_, _, todo) => 6 + |todo|
    case Loaded(_, _) => 7 + |StepsOf(run)|
    case Got(_) => 8 + |StepsOf(run)|
  }

  /** The worker's steps, one after the other, until it idles. */
  function UntilIdle(st: State, run: RunResult, raise: bool): State
    decreases WorkLeft(st.worker, run)
  {
    if st.worker.Idle? then st else UntilIdle(WorkerStep(st, run, raise), run, raise)
  }

  /** One iteration of the worker loop: from idle back to idle. */
  function WorkerTurn(st: State, run: RunResult, raise: bool): State {
    UntilIdle(WorkerStep(st, run, raise), run, raise)
  }

  // ----- Reader steps ---------------------------------------------------------------------

  /** What a reader's step does: to the bus, and to the reader. */
  datatype Move = Move(bus: Bus, client: Client)

  /** `EventBus.subscribe`: the claim's current queue, or a new one. */
  function Subscribe(st: State, client: Client): Move {
    var id, bus := client.claim, st.bus;
    var bus' := if id in bus.current then bus
                else Bus(bus.current[id := |bus.pool|], bus.pool + [[]], bus.owner + [id]);
    Move(bus', client.(at := Subscribed(bus'.current[id]), missed := |Published(st.history, id)|))
  }

  function BeginReplay(r: Record, client: Client): Client {
    client.(at := Replaying(r.trace), before := client.sent)
  }

  /** The first look at the record. */
  function FirstLoad(st: State, client: Client, queue: nat): Move {
    var id := client.claim;
    if id !in st.store then Move(st.bus, client.(at := Closing(ByError), sent := client.sent + [NotFound]))
    else if Terminal(st.store[id]) then Move(Unsubscribe(st.bus, id), BeginReplay(st.store[id], client))
    else Move(st.bus, client.(at := Live(queue)))
  }

  /** After a timeout: replay if the claim has finished, wait again otherwise. */
  function Recheck(st: State, client: Client, queue: nat): Move {
    var id := client.claim;
    Move(st.bus,
      if id in st.store && Terminal(st.store[id]) then BeginReplay(st.store[id], client)
      else client.(at := Live(queue)))
  }

  /** Waiting on the queue: take the next event, or time out on an empty one. With `atomic`, nothing
      happens between a timeout and the look at the store that follows it. */
  function Wait(atomic: bool, st: State, client: Client, queue: nat): Move
    requires queue < |st.bus.pool|
  {
    var events := st.bus.pool[queue];
    if events == [] then
      if atomic then Recheck(st, client, queue) else Move(st.bus, client.(at := TimedOut(queue)))
    else
      Move(st.bus.(pool := st.bus.pool[queue := events[1..]]),
        client.(sent := client.sent + [events[0]],
                at := if events[0] == Sentinel then Closing(BySentinel) else Live(queue)))
  }

  /** The next item of a replay, and `done` after the last. */
  function Replay(st: State, client: Client, rest: seq<C.StepTrace>): Move {
    Move(st.bus,
      if rest == [] then client.(at := Closing(ByReplay), sent := client.sent + [Sentinel])
      else client.(at := Replaying(rest[1..]), sent := client.sent + [Step(rest[0])]))
  }

  function Leaving(st: State, client: Client, how: Ending): Move {
    Move(Unsubscribe(st.bus, client.claim), client.(at := Done(how)))
  }

  predicate Readable(st: State, client: Client) {
    client.at.Live? ==> client.at.queue < |st.bus.pool|
  }

  /** One step of the stream generator. */
  function ReaderStep(atomic: bool, st: State, client: Client): Move
    requires Readable(st, client)
  {
    match client.at
    case Start => Subscribe(st, client)
    case Subscribed(queue) => FirstLoad(st, client, queue)
    case Live(queue) => Wait(atomic, st, client, queue)
    case TimedOut(queue) => Recheck(st, client, queue)
    case Replaying(rest) => Replay(st, client, rest)
    case Closing(how) => Leaving(st, client, how)
    case Done(_) => Move(st.bus, client)
  }

  /** The connection goes away: the generator is closed where it stands. */
  function Drop(st: State, client: Client): Move {
    if client.at.Start? || client.at.Done? then Move(st.bus, client) else Leaving(st, client, Dropped)
  }

  function Moved(st: State, c: nat, m: Move): State {
    st.(bus := m.bus, clients := st.clients[c := m.client])
  }

  // ===== Runs of the protocol =============================================================

  datatype Action =
    | Create(id: Id)
    | Enqueue(id: Id)
    | Work(run: RunResult, raise: bool)
    | Read(client: nat)
    | Leave(client: nat)
    | Decide(id: Id, verdict: Verdict)

  /** `legal` says which results streaming the graph can have. */
  datatype Config = Config(atomic: bool, ghost legal: RunResult -> bool)

  ghost predicate Enabled(cfg: Config, st: State, a: Action) {
    match a
    case Create(id) => id !in st.store
    case Enqueue(id) => id in st.broker.submitting
    case Work(run, _) => cfg.legal(run)
    case Read(c) => c in st.clients && Readable(st, st.clients[c])
    case Leave(c) => c in st.clients
    case Decide(_, _) => true
  }

  ghost function Act(cfg: Config, st: State, a: Action): State
    requires Enabled(cfg, st, a)
  {
    match a
    case Create(id) => Created(st, id)
    case Enqueue(id) => Enqueued(st, id)
    case Work(run, raise) => WorkerStep(st, run, raise)
    case Read(c) => Moved(st, c, ReaderStep(cfg.atomic, st, st.clients[c]))
    case Leave(c) => Moved(st, c, Drop(st, st.clients[c]))
    case Decide(id, v) => st.(store := HumanDecided(st.store, id, v))
  }

  /** Nothing submitted yet, and any number of readers still to come. */
  ghost predicate Initial(st: State) {
    && st.store == map[] && st.broker == Broker({}, [], {}, {}) && st.bus == Bus(map[], [], [])
    && st.worker == Idle && st.history == History(map[], map[], {})
    && forall c :: c in st.clients ==> st.clients[c].at == Start && st.clients[c].sent == []
  }

  /** Every interleaving: an action sequence each of whose steps is enabled. */
  ghost predicate Runs(cfg: Config, st: State, actions: seq<Action>)
    decreases |actions|
  {
    actions == [] || (Enabled(cfg, st, actions[0]) && Runs(cfg, Act(cfg, st, actions[0]), actions[1..]))
  }

  ghost function Reach(cfg: Config, st: State, actions: seq<Action>): State
    requires Runs(cfg, st, actions)
    decreases |actions|
  {
    if actions == [] then st else Reach(cfg, Act(cfg, st, actions[0]), actions[1..])
  }
}
