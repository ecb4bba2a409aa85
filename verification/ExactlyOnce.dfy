// What the only reader of a claim receives: exactly the events published since it subscribed, or a full
// replay; and why a timeout and the look at the store after it must not be pulled apart.

module ExactlyOnce {
  import opened Prelude
  import C = CostMeter
  import opened Lifecycle
  import opened LifecycleTheorems
  import opened Streams

  /** No other reader ever asks for the claim of `c`. */
  ghost predicate Sole(clients: map<nat, Client>, c: nat) {
    c in clients && forall d :: d in clients && d != c ==> clients[d].claim != clients[c].claim
  }

  /** The events published for a claim since its `missed`-th. */
  ghost predicate Since(told: seq<Event>, missed: nat, got: seq<Event>) {
    missed <= |told| && told[missed..] == got
  }

  ghost predicate InTouch(st: State, client: Client, q: nat) {
    && q < |st.bus.pool|
    && client.claim in st.bus.current && st.bus.current[client.claim] == q
    && Since(Published(st.history, client.claim), client.missed, client.sent + st.bus.pool[q])
    && Sentinel !in client.sent
  }

  /** Nothing more will be told about the claim. */
  ghost predicate FullyTold(st: State, id: Id) {
    AllTold(st, id) && !st.history.runs[id].Fails?
  }

  /** The stored trace is the trace of the run. */
  ghost predicate Stored(st: State, id: Id) {
    && Over(st, id) && id in st.history.runs && !st.history.runs[id].Fails?
    && st.store[id].trace == StepsOf(st.history.runs[id])
  }

  /** What the reader sent before replaying: events told since it subscribed, but not the sentinel; and
      nothing if a timeout cannot be torn from the look at the store. */
  ghost predicate BeforeOk(atomic: bool, st: State, client: Client) {
    var told := Published(st.history, client.claim);
    && FullyTold(st, client.claim)
    && client.missed <= |told| && client.before <= told[client.missed..] && Sentinel !in client.before
    && (atomic ==> client.before == [])
  }

  /** The sole reader of a claim whose run has not raised. */
  ghost predicate ReaderOk(atomic: bool, st: State, client: Client) {
    match client.at
    case Start => client.sent == [] && client.claim !in st.bus.current
    case Subscribed(q) => InTouch(st, client, q) && client.sent == []
    case Live(q) => InTouch(st, client, q)
    case TimedOut(q) => !atomic && InTouch(st, client, q)
    case Replaying(rest) =>
      && Stored(st, client.claim) && BeforeOk(atomic, st, client)
      && client.sent + Events(rest) == client.before + Events(st.store[client.claim].trace)
    case Closing(how) => EndOk(atomic, st, client, how)
    case Done(how) => EndOk(atomic, st, client, how)
  }

  ghost predicate EndOk(atomic: bool, st: State, client: Client, how: Ending) {
    match how
    case BySentinel =>
      && FullyTold(st, client.claim) && Since(Published(st.history, client.claim), client.missed, client.sent)
      && client.sent != []
    case ByReplay =>
      && Stored(st, client.claim) && BeforeOk(atomic, st, client)
      && client.sent == client.before + Events(st.store[client.claim].trace) + [Sentinel]
    case ByError => client.sent == [NotFound]
    case Dropped => true
  }

  // ----- The worker and the other readers ----------------------------------------------------

  lemma SinceMore(told: seq<Event>, missed: nat, got: seq<Event>, e: Event)
    requires Since(told, missed, got)
    ensures Since(told + [e], missed, got + [e])
  {
    assert (told + [e])[missed..] == told[missed..] + [e];
  }

  /** A finished claim that did not raise has the run's trace stored and everything told. */
  lemma OverStored(cfg: Config, st: State, id: Id)
    requires Inv(cfg, st) && Over(st, id) && id !in st.history.raised
    ensures Stored(st, id) && FullyTold(st, id)
  {
    assert Placed(st, id);
  }

  /** If the sentinel has been told and the worker has not raised, everything has been told. */
  lemma SentinelIsLast(cfg: Config, st: State, id: Id)
    requires Inv(cfg, st) && id !in st.history.raised && Sentinel in Published(st.history, id)
    ensures FullyTold(st, id)
  {
    assert Placed(st, id);
    StreamingHasNoSentinel(st);
  }

  lemma StreamingHasNoSentinel(st: State)
    requires WorkerOk(st)
    ensures st.worker.Streaming? ==>
      Sentinel !in Published(st.history, st.worker.id) && !FullyTold(st, st.worker.id)
  {
    if st.worker.Streaming? {
      var told, all := Published(st.history, st.worker.id), Events(StepsOf(st.history.runs[st.worker.id]));
      assert |told| <= |all|;
      forall k | 0 <= k < |told| ensures told[k] != Sentinel {
        assert all[k] == told[k];
      }
    }
  }

  /** What the sole reader relies on about its claim's history. */
  ghost predicate Quiet(st: State, st': State, id: Id) {
    && Published(st'.history, id) == Published(st.history, id)
    && id in st.history.runs && id in st'.history.runs && st'.history.runs[id] == st.history.runs[id]
  }

  lemma FinishedIsQuiet(cfg: Config, st: State, run: RunResult, raise: bool, id: Id)
    requires Inv(cfg, st) && FullyTold(st, id) && id !in WorkerStep(st, run, raise).history.raised
    ensures Quiet(st, WorkerStep(st, run, raise), id)
  {
    var st' := WorkerStep(st, run, raise);
    assert Placed(st, id);
    StreamingHasNoSentinel(st);
    if st.worker.Idle? || st.worker.id != id {
      assert st.worker.Idle? ==> st'.history == st.history;
      if !st.worker.Idle? { WorkTouchesOne(st, run, raise, id); }
    }
  }

  /** An event told about the claim reaches the reader's queue and the claim's history alike. */
  lemma TellKeepsTouch(st: State, e: Event, next: Worker, client: Client, q: nat)
    requires InTouch(st, client, q)
    ensures InTouch(Tell(st, client.claim, e, next), client, q)
  {
    SinceMore(Published(st.history, client.claim), client.missed, client.sent + st.bus.pool[q], e);
    ConcatAssoc(client.sent, st.bus.pool[q], [e]);
  }

  /** The worker goes on with another claim, or with none. */
  lemma OthersWorkKeepsTouch(cfg: Config, st: State, run: RunResult, raise: bool, client: Client, q: nat)
    requires Inv(cfg, st) && BusOk(st) && InTouch(st, client, q)
    requires st.worker.Idle? || st.worker.id != client.claim
    ensures InTouch(WorkerStep(st, run, raise), client, q)
  {
    var id, st' := client.claim, WorkerStep(st, run, raise);
    WorkKeepsQueue(st, run, raise, id, q);
    if st.worker.Idle? {
      assert st'.history == st.history;
    } else {
      WorkTouchesOne(st, run, raise, id);
    }
  }

  lemma WorkKeepsTouch(cfg: Config, st: State, run: RunResult, raise: bool, client: Client, q: nat)
    requires Inv(cfg, st) && BusOk(st) && InTouch(st, client, q)
    requires client.claim !in WorkerStep(st, run, raise).history.raised
    ensures InTouch(WorkerStep(st, run, raise), client, q)
  {
    var st' := WorkerStep(st, run, raise);
    if st.worker.Idle? || st.worker.id != client.claim {
      OthersWorkKeepsTouch(cfg, st, run, raise, client, q);
    } else if st.worker.Streaming? {
      var todo := st.worker.todo;
      TellKeepsTouch(st, if todo != [] then Step(todo[0]) else Sentinel, st'.worker, client, q);
    } else {
      assert !st.worker.ErrMarking?;
      assert st'.bus == st.bus && Published(st'.history, client.claim) == Published(st.history, client.claim);
    }
  }

  lemma WorkKeepsReader(cfg: Config, st: State, run: RunResult, raise: bool, client: Client)
    requires Inv(cfg, st) && cfg.legal(run) && BusOk(st) && ReaderOk(cfg.atomic, st, client)
    requires client.claim !in WorkerStep(st, run, raise).history.raised
    ensures ReaderOk(cfg.atomic, WorkerStep(st, run, raise), client)
  {
    var id, st' := client.claim, WorkerStep(st, run, raise);
    assert id !in st.history.raised;
    if Holds(client) {
      WorkKeepsTouch(cfg, st, run, raise, client, client.at.queue);
    }
    if Over(st, id) {
      OverStored(cfg, st, id);
      OverStays(cfg, st, Work(run, raise), id);
    }
    if FullyTold(st, id) {
      FinishedIsQuiet(cfg, st, run, raise, id);
    }
    BusKeepsCurrent(st, run, raise);
  }

  lemma BusKeepsCurrent(st: State, run: RunResult, raise: bool)
    ensures WorkerStep(st, run, raise).bus.current == st.bus.current
  {
  }

  lemma OthersKeepReader(cfg: Config, st: State, a: Action, client: Client)
    requires Inv(cfg, st) && BusOk(st) && ReaderOk(cfg.atomic, st, client) && HoldsOwn(st.bus, client)
    requires Enabled(cfg, st, a) && !a.Work? && (a.Read? || a.Leave? ==> st.clients[a.client].claim != client.claim)
    requires client.claim !in st.history.raised
    ensures ReaderOk(cfg.atomic, Act(cfg, st, a), client)
  {
    var id := client.claim;
    if Holds(client) {
      OthersKeepQueue(cfg, st, a, id, client.at.queue);
    }
    if Over(st, id) {
      OverStays(cfg, st, a, id);
    }
    OthersKeepHistory(cfg, st, a, id);
  }

  lemma OthersKeepHistory(cfg: Config, st: State, a: Action, id: Id)
    requires Enabled(cfg, st, a) && !a.Work?
    ensures Act(cfg, st, a).history == st.history
    ensures
      (a.Read? || a.Leave? ==> st.clients[a.client].claim != id) && id !in st.bus.current ==>
        id !in Act(cfg, st, a).bus.current
  {
  }

  // ----- The reader's own steps --------------------------------------------------------------

  lemma SentinelEnds(told: seq<Event>, run: RunResult, missed: nat, sent: seq<Event>, rest: seq<Event>)
    requires told == Told(run) && !run.Fails? && Since(told, missed, sent + rest)
    ensures rest != [] && rest[0] == Sentinel ==> rest == [Sentinel]
    ensures rest == [] && Sentinel !in sent ==> sent == []
  {
    var last := |told| - 1;
    assert told[last] == Sentinel;
    if rest != [] && rest[0] == Sentinel {
      assert told[missed..][|sent|] == Sentinel;
      assert told[missed + |sent|] == Sentinel;
      assert missed + |sent| == last;
    }
    if rest == [] && sent != [] {
      assert told[missed..][|sent| - 1] == told[last];
      assert sent[|sent| - 1] == Sentinel;
    }
  }

  /** After this move, made as reader `c`, the reader can still rely on what it relied on. */
  ghost predicate StaysOk(atomic: bool, st: State, c: nat, m: Move) {
    ReaderOk(atomic, Moved(st, c, m), m.client)
  }

  lemma TakeStepKeepsReader(atomic: bool, st: State, c: nat, client: Client, q: nat)
    requires client.at == Live(q) && InTouch(st, client, q)
    requires st.bus.pool[q] != [] && st.bus.pool[q][0] != Sentinel
    ensures StaysOk(atomic, st, c, Wait(atomic, st, client, q))
  {
    var events := st.bus.pool[q];
    HeadTaken(client.sent, events);
  }

  lemma HeadTaken<T>(sent: seq<T>, events: seq<T>)
    requires events != []
    ensures sent + events == sent + [events[0]] + events[1..]
  {
  }

  lemma TakeSentinelKeepsReader(cfg: Config, st: State, c: nat, client: Client, q: nat)
    requires Inv(cfg, st) && client.at == Live(q) && InTouch(st, client, q) && client.claim !in st.history.raised
    requires st.bus.pool[q] != [] && st.bus.pool[q][0] == Sentinel
    ensures StaysOk(cfg.atomic, st, c, Wait(cfg.atomic, st, client, q))
  {
    var events, id := st.bus.pool[q], client.claim;
    var told := Published(st.history, id);
    assert (client.sent + events)[|client.sent|] == Sentinel;
    assert Sentinel in told[client.missed..];
    SentinelIsLast(cfg, st, id);
    SentinelEnds(told, st.history.runs[id], client.missed, client.sent, events);
  }

  /** Looking at the store after a timeout, with nothing lost if nothing came in between. */
  lemma RecheckKeepsReader(cfg: Config, st: State, c: nat, client: Client, q: nat)
    requires Inv(cfg, st) && InTouch(st, client, q) && client.claim !in st.history.raised
    requires cfg.atomic ==> st.bus.pool[q] == []
    ensures StaysOk(cfg.atomic, st, c, Recheck(st, client, q))
  {
    var told := Published(st.history, client.claim);
    if Over(st, client.claim) {
      OverStored(cfg, st, client.claim);
      if cfg.atomic {
        SentinelEnds(told, st.history.runs[client.claim], client.missed, client.sent, []);
      }
      assert client.sent <= told[client.missed..];
    }
  }

  lemma FirstLoadKeepsReader(cfg: Config, st: State, c: nat, client: Client, q: nat)
    requires Inv(cfg, st) && client.at == Subscribed(q) && ReaderOk(cfg.atomic, st, client)
    requires client.claim !in st.history.raised
    ensures StaysOk(cfg.atomic, st, c, FirstLoad(st, client, q))
  {
    if Over(st, client.claim) { OverStored(cfg, st, client.claim); }
  }

  lemma ReplayKeepsReader(atomic: bool, st: State, c: nat, client: Client, rest: seq<C.StepTrace>)
    requires client.at == Replaying(rest) && ReaderOk(atomic, st, client)
    ensures StaysOk(atomic, st, c, Replay(st, client, rest))
  {
    if rest == [] {
      assert client.sent + Events(rest) == client.sent;
    } else {
      FirstReplayed(client.sent, rest);
    }
  }

  lemma FirstReplayed(sent: seq<Event>, rest: seq<C.StepTrace>)
    requires rest != []
    ensures sent + Events(rest) == sent + [Step(rest[0])] + Events(rest[1..])
  {
    assert Events(rest) == [Step(rest[0])] + Events(rest[1..]);
  }

  lemma SubscribeKeepsReader(atomic: bool, st: State, c: nat, client: Client)
    requires BusOk(st) && client.at == Start && ReaderOk(atomic, st, client)
    ensures StaysOk(atomic, st, c, Subscribe(st, client))
  {
    var told := Published(st.history, client.claim);
    assert told[|told|..] == [];
  }

  lemma WaitKeepsReader(cfg: Config, st: State, c: nat, client: Client, q: nat)
    requires Inv(cfg, st) && client.at == Live(q) && InTouch(st, client, q) && client.claim !in st.history.raised
    ensures StaysOk(cfg.atomic, st, c, Wait(cfg.atomic, st, client, q))
  {
    if st.bus.pool[q] == [] {
      if cfg.atomic { RecheckKeepsReader(cfg, st, c, client, q); }
    } else if st.bus.pool[q][0] == Sentinel {
      TakeSentinelKeepsReader(cfg, st, c, client, q);
    } else {
      TakeStepKeepsReader(cfg.atomic, st, c, client, q);
    }
  }

  lemma StepKeepsReader(cfg: Config, st: State, c: nat, client: Client)
    requires Inv(cfg, st) && BusOk(st) && ReaderOk(cfg.atomic, st, client)
    requires Readable(st, client) && client.claim !in st.history.raised
    ensures StaysOk(cfg.atomic, st, c, ReaderStep(cfg.atomic, st, client))
  {
    match client.at
    case Start => SubscribeKeepsReader(cfg.atomic, st, c, client);
    case Subscribed(q) => FirstLoadKeepsReader(cfg, st, c, client, q);
    case Live(q) => WaitKeepsReader(cfg, st, c, client, q);
    case TimedOut(q) => RecheckKeepsReader(cfg, st, c, client, q);
    case Replaying(rest) => ReplayKeepsReader(cfg.atomic, st, c, client, rest);
    case Closing(how) => assert StaysOk(cfg.atomic, st, c, Leaving(st, client, how));
    case Done(_) =>
  }

  // ----- Whole runs ---------------------------------------------------------------------------

  lemma ActKeepsSole(cfg: Config, st: State, a: Action, c: nat)
    requires Enabled(cfg, st, a) && Sole(st.clients, c)
    ensures Sole(Act(cfg, st, a).clients, c) && Act(cfg, st, a).clients[c].claim == st.clients[c].claim
  {
  }

  lemma RaisedStays(cfg: Config, st: State, a: Action)
    requires Enabled(cfg, st, a)
    ensures st.history.raised <= Act(cfg, st, a).history.raised
  {
  }

  lemma ActKeepsReader(cfg: Config, st: State, a: Action, c: nat)
    requires Inv(cfg, st) && BusOk(st) && Sole(st.clients, c) && Enabled(cfg, st, a)
    requires ReaderOk(cfg.atomic, st, st.clients[c]) && st.clients[c].claim !in Act(cfg, st, a).history.raised
    ensures c in Act(cfg, st, a).clients && ReaderOk(cfg.atomic, Act(cfg, st, a), Act(cfg, st, a).clients[c])
  {
    RaisedStays(cfg, st, a);
    MovesTheirOwn(cfg, st, a, c);
    assert HoldsOwn(st.bus, st.clients[c]);
    if a == Read(c) {
      StepKeepsReader(cfg, st, c, st.clients[c]);
    } else if a == Leave(c) {
    } else if a.Work? {
      WorkKeepsReader(cfg, st, a.run, a.raise, st.clients[c]);
    } else {
      OthersKeepReader(cfg, st, a, st.clients[c]);
    }
  }

  lemma {:induction false} RunKeepsReader(cfg: Config, st: State, actions: seq<Action>, c: nat)
    requires Inv(cfg, st) && BusOk(st) && Sole(st.clients, c) && Runs(cfg, st, actions)
    requires st.clients[c].claim !in st.history.raised ==> ReaderOk(cfg.atomic, st, st.clients[c])
    ensures
      var last := Reach(cfg, st, actions);
      && Sole(last.clients, c) && last.clients[c].claim == st.clients[c].claim
      && (last.clients[c].claim !in last.history.raised ==> ReaderOk(cfg.atomic, last, last.clients[c]))
    decreases |actions|
  {
    if actions != [] {
      var a := actions[0];
      var next := Act(cfg, st, a);
      ActKeeps(cfg, st, a);
      ActKeepsBus(cfg, st, a);
      ActKeepsSole(cfg, st, a, c);
      RaisedStays(cfg, st, a);
      if st.clients[c].claim !in next.history.raised {
        ActKeepsReader(cfg, st, a, c);
      }
      RunKeepsReader(cfg, next, actions[1..], c);
    }
  }

  /** Single reader: in every interleaving in which the run does not raise, the only reader of a claim
      that ends with `done` has sent one of two things. Ended by the sentinel, the run's steps from the
      first one published after it subscribed, in order, without a gap or a duplicate, and one `done`.
      Ended by replay, whatever it had sent before timing out, then the run's whole trace, and one `done`;
      and when a timeout and the look at the store are one step, it had sent nothing before. So it has sent
      exactly the run's trace if and only if, by the sentinel, it had subscribed before the first step was
      published or, by replay, it had sent nothing before; and the stored trace is that trace. */
  lemma SingleReaderExactlyOnce(cfg: Config, init: State, actions: seq<Action>, c: nat)
    requires Initial(init) && Sole(init.clients, c) && Runs(cfg, init, actions)
    requires
      var last := Reach(cfg, init, actions);
      && c in last.clients && init.clients[c].claim !in last.history.raised
      && (last.clients[c].at == Done(BySentinel) || last.clients[c].at == Done(ByReplay))
    ensures
      var last := Reach(cfg, init, actions);
      var client := last.clients[c];
      && client.claim in last.history.runs
      && var trace := StepsOf(last.history.runs[client.claim]);
         && (client.at == Done(BySentinel) ==>
               client.missed <= |trace| && client.sent == Events(trace[client.missed..]) + [Sentinel])
         && (client.at == Done(ByReplay) ==>
               && client.sent == client.before + Events(trace) + [Sentinel]
               && (client.before == [] || (client.missed <= |trace| && client.before <= Events(trace[client.missed..])))
               && (cfg.atomic ==> client.before == []))
         && (client.sent == Events(trace) + [Sentinel] <==>
               if client.at == Done(ByReplay) then client.before == [] else client.missed == 0)
         && (client.claim in last.store && Terminal(last.store[client.claim]) ==>
               last.store[client.claim].trace == trace)
  {
    InitialInv(cfg, init);
    RunKeeps(cfg, init, actions);
    RunKeepsReader(cfg, init, actions, c);
    var last := Reach(cfg, init, actions);
    var client := last.clients[c];
    if Over(last, client.claim) { OverStored(cfg, last, client.claim); }
    if client.at == Done(BySentinel) {
      EndsFrom(StepsOf(last.history.runs[client.claim]), client.missed, client.sent);
    } else {
      BeginsFrom(StepsOf(last.history.runs[client.claim]), client.missed, client.before);
    }
  }

  lemma EndsFrom(trace: seq<C.StepTrace>, missed: nat, sent: seq<Event>)
    requires Since(Events(trace) + [Sentinel], missed, sent) && sent != []
    ensures missed <= |trace| && sent == Events(trace[missed..]) + [Sentinel]
    ensures sent == Events(trace) + [Sentinel] <==> missed == 0
  {
  }

  lemma BeginsFrom(trace: seq<C.StepTrace>, missed: nat, before: seq<Event>)
    requires missed <= |trace| + 1 && before <= (Events(trace) + [Sentinel])[missed..] && Sentinel !in before
    ensures before == [] || (missed <= |trace| && before <= Events(trace[missed..]))
    ensures before + Events(trace) + [Sentinel] == Events(trace) + [Sentinel] <==> before == []
  {
    var told := Events(trace) + [Sentinel];
    assert |before + Events(trace) + [Sentinel]| == |before| + |Events(trace) + [Sentinel]|;
    if before != [] {
      forall i | 0 <= i < |before| ensures missed + i < |trace| && before[i] == Events(trace)[missed + i] {
        assert before[i] == told[missed..][i] == told[missed + i];
      }
      assert before[|before| - 1] != Sentinel;
      assert before == Events(trace[missed..])[..|before|];
    } else {
      assert [] + Events(trace) == Events(trace);
    }
  }

  // ===== A torn timeout ========================================================================

  /** Some interleaving leads from one state to the other. */
  ghost predicate CanReach(cfg: Config, st: State, st': State) {
    exists actions :: Runs(cfg, st, actions) && Reach(cfg, st, actions) == st'
  }

  lemma {:induction false} RunsExtend(cfg: Config, st: State, actions: seq<Action>, a: Action)
    requires Runs(cfg, st, actions) && Enabled(cfg, Reach(cfg, st, actions), a)
    ensures Runs(cfg, st, actions + [a])
    ensures Reach(cfg, st, actions + [a]) == Act(cfg, Reach(cfg, st, actions), a)
    decreases |actions|
  {
    if actions == [] {
      assert [] + [a] == [a] && [a][1..] == [];
    } else {
      RunsExtend(cfg, Act(cfg, st, actions[0]), actions[1..], a);
      assert (actions + [a])[1..] == actions[1..] + [a];
    }
  }

  lemma StaysReachable(cfg: Config, init: State, st: State, a: Action, st': State)
    requires CanReach(cfg, init, st) && Enabled(cfg, st, a) && Act(cfg, st, a) == st'
    ensures CanReach(cfg, init, st')
  {
    var actions :| Runs(cfg, init, actions) && Reach(cfg, init, actions) == st;
    RunsExtend(cfg, init, actions, a);
  }

  const PUBLIC: Client := Client("x", Start, [], 0, [])

  /** Nothing submitted yet, and one reader to come. */
  const EMPTY: State :=
    State(map[], Broker({}, [], {}, {}), Bus(map[], [], []), Idle, map[0 := PUBLIC], History(map[], map[], {}))

  /** The states of the example: the record, what the queue holds, what has been published. */
  function Scene(broker: Broker, r: Record, events: seq<Event>, worker: Worker, client: Client,
      told: map<Id, seq<Event>>, runs: map<Id, RunResult>): State {
    State(map["x" := r], broker, Bus(map["x" := 0], [events], ["x"]), worker, map[0 := client], History(told, runs, {}))
  }

  const TAKEN: Broker := Broker({}, [], {"x"}, {})

  /** The claim waits in the queue, and its reader for the first event. */
  function Opened(): State {
    Scene(Broker({}, ["x"], {}, {}), NEW_RECORD, [], Idle, PUBLIC.(at := Live(0)), map[], map[])
  }

  lemma Opens(cfg: Config)
    ensures CanReach(cfg, EMPTY, Opened())
  {
    assert Runs(cfg, EMPTY, []) && Reach(cfg, EMPTY, []) == EMPTY;
    var s1 := Act(cfg, EMPTY, Create("x"));
    StaysReachable(cfg, EMPTY, EMPTY, Create("x"), s1);
    var s2 := EMPTY.(store := map["x" := NEW_RECORD], broker := Broker({}, ["x"], {}, {}));
    assert Act(cfg, s1, Enqueue("x")).broker == s2.broker;
    StaysReachable(cfg, EMPTY, s1, Enqueue("x"), s2);
    var s3 := Opened().(clients := map[0 := PUBLIC.(at := Subscribed(0))]);
    assert Act(cfg, s2, Read(0)).bus.pool == s3.bus.pool;
    StaysReachable(cfg, EMPTY, s2, Read(0), s3);
    StaysReachable(cfg, EMPTY, s3, Read(0), Opened());
  }

  /** The worker has begun the run. */
  function Begun(run: RunResult): State
    requires run.Finished?
  {
    Scene(TAKEN, PROCESSING, [], Streaming("x", PROCESSING, run.trace), PUBLIC.(at := Live(0)), map[], map["x" := run])
  }

  lemma Begins(cfg: Config, run: RunResult)
    requires run.Finished? && cfg.legal(run)
    ensures CanReach(cfg, EMPTY, Begun(run))
  {
    Opens(cfg);
    var work := Work(run, false);
    var s1 := Opened().(broker := TAKEN, worker := Got("x"));
    assert Act(cfg, Opened(), work).broker.waiting == [];
    StaysReachable(cfg, EMPTY, Opened(), work, s1);
    var s2 := s1.(worker := Loaded("x", NEW_RECORD));
    StaysReachable(cfg, EMPTY, s1, work, s2);
    StaysReachable(cfg, EMPTY, s2, work, Begun(run));
  }

  /** The reader has sent the first step and timed out; the worker has told `k` steps. */
  function TornAt(run: RunResult, k: nat): State
    requires run.Finished? && 1 <= k <= |run.trace|
  {
    Scene(TAKEN, PROCESSING, Events(run.trace[1..k]), Streaming("x", PROCESSING, run.trace[k..]),
          PUBLIC.(at := TimedOut(0), sent := Events(run.trace[..1])),
          map["x" := Events(run.trace[..k])], map["x" := run])
  }

  /** The worker has told the first step, and the reader stands as `client` with `events` waiting. */
  function FirstTold(run: RunResult, events: seq<Event>, client: Client): State
    requires run.Finished? && run.trace != []
  {
    Scene(TAKEN, PROCESSING, events, Streaming("x", PROCESSING, run.trace[1..]), client,
          map["x" := [Step(run.trace[0])]], map["x" := run])
  }

  lemma FirstIsTold(cfg: Config, run: RunResult)
    requires run.Finished? && run.trace != [] && cfg.legal(run)
    ensures CanReach(cfg, EMPTY, FirstTold(run, [Step(run.trace[0])], PUBLIC.(at := Live(0))))
  {
    var st := FirstTold(run, [Step(run.trace[0])], PUBLIC.(at := Live(0)));
    Begins(cfg, run);
    TellsFirst(cfg, run, st);
    StaysReachable(cfg, EMPTY, Begun(run), Work(run, false), st);
  }

  lemma FirstIsSent(cfg: Config, run: RunResult)
    requires run.Finished? && run.trace != [] && cfg.legal(run)
    ensures CanReach(cfg, EMPTY, FirstTold(run, [], PUBLIC.(at := Live(0), sent := [Step(run.trace[0])])))
  {
    var first := [Step(run.trace[0])];
    var st := FirstTold(run, first, PUBLIC.(at := Live(0)));
    var next := FirstTold(run, [], PUBLIC.(at := Live(0), sent := first));
    FirstIsTold(cfg, run);
    assert first[1..] == [] && [] + first == first;
    assert Act(cfg, st, Read(0)).bus.pool == next.bus.pool;
    assert Act(cfg, st, Read(0)).clients[0].sent == first;
    StaysReachable(cfg, EMPTY, st, Read(0), next);
  }

  lemma Tears(cfg: Config, run: RunResult)
    requires run.Finished? && run.trace != [] && cfg.legal(run) && !cfg.atomic
    ensures CanReach(cfg, EMPTY, TornAt(run, 1))
  {
    FirstIsSent(cfg, run);
    var first := Events(run.trace[..1]);
    assert first == [Step(run.trace[0])];
    assert Events(run.trace[1..1]) == [];
    var st := FirstTold(run, [], PUBLIC.(at := Live(0), sent := first));
    StaysReachable(cfg, EMPTY, st, Read(0), TornAt(run, 1));
  }

  lemma TellsFirst(cfg: Config, run: RunResult, s1: State)
    requires run.Finished? && run.trace != [] && cfg.legal(run)
    requires s1 == FirstTold(run, [Step(run.trace[0])], PUBLIC.(at := Live(0)))
    ensures Act(cfg, Begun(run), Work(run, false)) == s1
  {
    var r, first := Act(cfg, Begun(run), Work(run, false)), [Step(run.trace[0])];
    assert [] + first == first;
    assert r.bus.pool == s1.bus.pool && r.history.published == s1.history.published;
  }

  /** With the reader timed out, the worker tells the rest. */
  lemma TellsNext(cfg: Config, run: RunResult, k: nat)
    requires run.Finished? && 1 <= k < |run.trace| && cfg.legal(run)
    ensures Act(cfg, TornAt(run, k), Work(run, false)) == TornAt(run, k + 1)
  {
    var r, next := Act(cfg, TornAt(run, k), Work(run, false)), TornAt(run, k + 1);
    assert Events(run.trace[1..k]) + [Step(run.trace[k])] == Events(run.trace[1..k + 1]);
    assert Events(run.trace[..k]) + [Step(run.trace[k])] == Events(run.trace[..k + 1]);
    assert run.trace[k..][1..] == run.trace[k + 1..];
    assert r.bus.pool == next.bus.pool && r.history.published == next.history.published;
    assert r.worker == next.worker;
  }

  lemma {:induction false} TellsRest(cfg: Config, run: RunResult, k: nat)
    requires run.Finished? && 1 <= k <= |run.trace| && cfg.legal(run) && !cfg.atomic
    ensures CanReach(cfg, EMPTY, TornAt(run, k))
  {
    if k == 1 {
      Tears(cfg, run);
    } else {
      TellsRest(cfg, run, k - 1);
      TellsNext(cfg, run, k - 1);
      StaysReachable(cfg, EMPTY, TornAt(run, k - 1), Work(run, false), TornAt(run, k));
    }
  }

  /** The worker has told everything and saved the record, while the reader stands as `client`. */
  function SavedFor(run: RunResult, client: Client): State
    requires run.Finished? && run.trace != []
  {
    Scene(TAKEN, Saved(PROCESSING, run), Events(run.trace[1..]) + [Sentinel], Acking("x"), client,
          map["x" := Told(run)], map["x" := run])
  }

  function TornReader(run: RunResult): Client
    requires run.Finished? && run.trace != []
  {
    PUBLIC.(at := TimedOut(0), sent := Events(run.trace[..1]))
  }

  lemma Saves(cfg: Config, run: RunResult)
    requires run.Finished? && run.trace != [] && cfg.legal(run) && !cfg.atomic
    ensures CanReach(cfg, EMPTY, SavedFor(run, TornReader(run)))
  {
    var work := Work(run, false);
    ToldAll(cfg, run);
    var told := SavedFor(run, TornReader(run)).(store := map["x" := PROCESSING], worker := Saving("x", PROCESSING));
    StaysReachable(cfg, EMPTY, told, work, SavedFor(run, TornReader(run)));
  }

  /** The worker has told everything, and has the record yet to save. */
  lemma ToldAll(cfg: Config, run: RunResult)
    requires run.Finished? && run.trace != [] && cfg.legal(run) && !cfg.atomic
    ensures
      CanReach(cfg, EMPTY,
        SavedFor(run, TornReader(run)).(store := map["x" := PROCESSING], worker := Saving("x", PROCESSING)))
  {
    var n, work := |run.trace|, Work(run, false);
    TellsRest(cfg, run, n);
    assert run.trace[n..] == [] && run.trace[..n] == run.trace && run.trace[1..n] == run.trace[1..];
    var told := SavedFor(run, TornReader(run)).(store := map["x" := PROCESSING], worker := Saving("x", PROCESSING));
    var r := Act(cfg, TornAt(run, n), work);
    assert r.bus.pool == told.bus.pool && r.history.published == told.history.published;
    StaysReachable(cfg, EMPTY, TornAt(run, n), work, told);
  }

  /** The reader has replayed `k` steps. */
  function Replayed(run: RunResult, k: nat): Client
    requires run.Finished? && run.trace != [] && k <= |run.trace|
  {
    var first := Events(run.trace[..1]);
    PUBLIC.(at := Replaying(run.trace[k..]), sent := first + Events(run.trace[..k]), before := first)
  }

  lemma ReplaysNext(cfg: Config, run: RunResult, k: nat)
    requires run.Finished? && k < |run.trace|
    ensures Act(cfg, SavedFor(run, Replayed(run, k)), Read(0)) == SavedFor(run, Replayed(run, k + 1))
  {
    var first := Events(run.trace[..1]);
    assert first + Events(run.trace[..k]) + [Step(run.trace[k])] == first + Events(run.trace[..k + 1]);
    assert run.trace[k..][1..] == run.trace[k + 1..];
    assert Act(cfg, SavedFor(run, Replayed(run, k)), Read(0)).clients[0] == Replayed(run, k + 1);
  }

  lemma {:induction false} Replays(cfg: Config, run: RunResult, k: nat)
    requires run.Finished? && run.trace != [] && k <= |run.trace| && cfg.legal(run) && !cfg.atomic
    ensures CanReach(cfg, EMPTY, SavedFor(run, Replayed(run, k)))
  {
    if k == 0 {
      var st := SavedFor(run, TornReader(run));
      Saves(cfg, run);
      assert Terminal(st.store["x"]) && run.trace[0..] == run.trace;
      assert Events(run.trace[..1]) + Events(run.trace[..0]) == Events(run.trace[..1]);
      assert Act(cfg, st, Read(0)).clients[0] == Replayed(run, 0);
      StaysReachable(cfg, EMPTY, st, Read(0), SavedFor(run, Replayed(run, 0)));
    } else {
      Replays(cfg, run, k - 1);
      ReplaysNext(cfg, run, k - 1);
      StaysReachable(cfg, EMPTY, SavedFor(run, Replayed(run, k - 1)), Read(0), SavedFor(run, Replayed(run, k)));
    }
  }

  /** The reader of a claim that ended with `done`, having subscribed before anything was published, of a run
      that did not raise. */
  ghost predicate EarlyAndDone(st: State, c: nat, run: RunResult) {
    && c in st.clients && st.clients[c].missed == 0
    && (st.clients[c].at == Done(BySentinel) || st.clients[c].at == Done(ByReplay))
    && st.clients[c].claim in st.history.runs && st.history.runs[st.clients[c].claim] == run
    && st.clients[c].claim !in st.history.raised
  }

  ghost predicate SendsFirstTwice(st: State, c: nat, run: RunResult) {
    && run.Finished? && run.trace != [] && EarlyAndDone(st, c, run)
    && st.clients[c].sent == Events(run.trace[..1]) + Events(run.trace) + [Sentinel]
  }

  /** The reader has sent the first step twice, and the end of the stream. */
  function SentTwice(run: RunResult): Client
    requires run.Finished? && run.trace != []
  {
    var first := Events(run.trace[..1]);
    PUBLIC.(at := Closing(ByReplay), sent := first + Events(run.trace) + [Sentinel], before := first)
  }

  lemma EndsTwice(cfg: Config, run: RunResult)
    requires !cfg.atomic && cfg.legal(run) && run.Finished? && run.trace != []
    ensures CanReach(cfg, EMPTY, SavedFor(run, SentTwice(run)))
  {
    var n := |run.trace|;
    Replays(cfg, run, n);
    assert run.trace[n..] == [] && run.trace[..n] == run.trace;
    var st := SavedFor(run, Replayed(run, n));
    assert Act(cfg, st, Read(0)).clients[0] == SentTwice(run);
    StaysReachable(cfg, EMPTY, st, Read(0), SavedFor(run, SentTwice(run)));
  }

  /** The reader unsubscribes and is done. */
  lemma LastRead(cfg: Config, run: RunResult)
    requires run.Finished? && run.trace != []
    ensures SendsFirstTwice(Act(cfg, SavedFor(run, SentTwice(run)), Read(0)), 0, run)
  {
    assert Act(cfg, SavedFor(run, SentTwice(run)), Read(0)).clients[0] == SentTwice(run).(at := Done(ByReplay));
  }

  /** A torn timeout can hurt every run that has steps: a sole reader that subscribed before the first one was
      published can send that step live, time out, and replay the whole trace, so that it sends it twice. */
  lemma TornTimeoutDuplicates(cfg: Config, run: RunResult)
    requires !cfg.atomic && cfg.legal(run) && run.Finished? && run.trace != []
    ensures Initial(EMPTY) && Sole(EMPTY.clients, 0)
    ensures exists actions :: Runs(cfg, EMPTY, actions) && SendsFirstTwice(Reach(cfg, EMPTY, actions), 0, run)
  {
    EndsTwice(cfg, run);
    LastRead(cfg, run);
    var st := Act(cfg, SavedFor(run, SentTwice(run)), Read(0));
    StaysReachable(cfg, EMPTY, SavedFor(run, SentTwice(run)), Read(0), st);
    var actions :| Runs(cfg, EMPTY, actions) && Reach(cfg, EMPTY, actions) == st;
  }

  /** In some interleaving a sole reader that subscribed in time does not send exactly the run's trace. */
  ghost predicate CanGoWrong(cfg: Config, run: RunResult) {
    exists init, actions, c ::
      && Initial(init) && Sole(init.clients, c) && Runs(cfg, init, actions)
      && GoesWrong(Reach(cfg, init, actions), c, run)
  }

  ghost predicate GoesWrong(st: State, c: nat, run: RunResult) {
    EarlyAndDone(st, c, run) && st.clients[c].sent != Events(StepsOf(run)) + [Sentinel]
  }

  /** Which runs a torn timeout can hurt: exactly those with steps, and none when a timeout and the look at the
      store are one step. */
  lemma TornTimeoutExactly(cfg: Config, run: RunResult)
    requires cfg.legal(run) && !run.Fails?
    ensures CanGoWrong(cfg, run) <==> !cfg.atomic && StepsOf(run) != []
  {
    if !cfg.atomic && StepsOf(run) != [] {
      TornTimeoutDuplicates(cfg, run);
      var actions :| Runs(cfg, EMPTY, actions) && SendsFirstTwice(Reach(cfg, EMPTY, actions), 0, run);
      assert GoesWrong(Reach(cfg, EMPTY, actions), 0, run);
    } else {
      forall init, actions, c | Initial(init) && Sole(init.clients, c) && Runs(cfg, init, actions)
        ensures !GoesWrong(Reach(cfg, init, actions), c, run)
      {
        if EarlyAndDone(Reach(cfg, init, actions), c, run) {
          NothingSentTwice(cfg, init, actions, c, run);
        }
      }
    }
  }

  lemma NothingSentTwice(cfg: Config, init: State, actions: seq<Action>, c: nat, run: RunResult)
    requires cfg.atomic || StepsOf(run) == []
    requires Initial(init) && Sole(init.clients, c) && Runs(cfg, init, actions)
    requires EarlyAndDone(Reach(cfg, init, actions), c, run)
    ensures Reach(cfg, init, actions).clients[c].sent == Events(StepsOf(run)) + [Sentinel]
  {
    ClaimsStay(cfg, init, actions, c);
    SingleReaderExactlyOnce(cfg, init, actions, c);
    assert StepsOf(run) == [] ==> Events(StepsOf(run)[0..]) == [];
  }

  lemma {:induction false} ClaimsStay(cfg: Config, st: State, actions: seq<Action>, c: nat)
    requires Sole(st.clients, c) && Runs(cfg, st, actions)
    ensures c in Reach(cfg, st, actions).clients && Reach(cfg, st, actions).clients[c].claim == st.clients[c].claim
    decreases |actions|
  {
    if actions != [] {
      ActKeepsSole(cfg, st, actions[0], c);
      ClaimsStay(cfg, Act(cfg, st, actions[0]), actions[1..], c);
    }
  }
}
