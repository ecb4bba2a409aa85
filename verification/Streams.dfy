// What the readers of a claim's live stream get, in every interleaving.

module Streams {
  import opened Prelude
  import C = CostMeter
  import opened Lifecycle
  import opened LifecycleTheorems

  // ===== Queues belong to claims ============================================================

  ghost predicate BusOk(st: State) {
    && |st.bus.pool| == |st.bus.owner|
    && (forall id :: id in st.bus.current ==>
          st.bus.current[id] < |st.bus.pool| && st.bus.owner[st.bus.current[id]] == id)
    && (forall c :: c in st.clients ==> HoldsOwn(st.bus, st.clients[c]))
  }

  /** A reader waits on a queue made for its claim. */
  ghost predicate HoldsOwn(bus: Bus, client: Client) {
    Holds(client) ==>
      && client.at.queue < |bus.pool| && client.at.queue < |bus.owner|
      && bus.owner[client.at.queue] == client.claim
  }

  lemma ActKeepsBus(cfg: Config, st: State, a: Action)
    requires BusOk(st) && Enabled(cfg, st, a)
    ensures BusOk(Act(cfg, st, a))
  {
    match a
    case Work(run, raise) => WorkKeepsBus(st, run, raise);
    case Read(c) => MovesAreTidy(cfg.atomic, st, c); MoveKeepsBus(st, c, ReaderStep(cfg.atomic, st, st.clients[c]));
    case Leave(c) =>
      ReaderNeverBlocks(cfg, st, c);
      MovesAreTidy(cfg.atomic, st, c);
      MoveKeepsBus(st, c, Drop(st, st.clients[c]));
    case _ =>
  }

  lemma WorkKeepsBus(st: State, run: RunResult, raise: bool)
    requires BusOk(st)
    ensures BusOk(WorkerStep(st, run, raise))
  {
    var st' := WorkerStep(st, run, raise);
    assert st'.bus == st.bus || exists id, e :: st'.bus == Publish(st.bus, id, e);
    forall c | c in st'.clients ensures HoldsOwn(st'.bus, st'.clients[c]) {
      assert HoldsOwn(st.bus, st.clients[c]);
    }
  }

  /** A move keeps the queues there are, and lets the reader hold one of its claim only. */
  ghost predicate TidyMove(bus: Bus, m: Move) {
    && |m.bus.pool| == |m.bus.owner| && bus.owner <= m.bus.owner
    && (forall id :: id in m.bus.current ==> m.bus.current[id] < |m.bus.pool| && m.bus.owner[m.bus.current[id]] == id)
    && HoldsOwn(m.bus, m.client)
  }

  lemma MovesAreTidy(atomic: bool, st: State, c: nat)
    requires BusOk(st) && c in st.clients && Readable(st, st.clients[c])
    ensures TidyMove(st.bus, ReaderStep(atomic, st, st.clients[c]))
    ensures TidyMove(st.bus, Drop(st, st.clients[c]))
  {
    assert HoldsOwn(st.bus, st.clients[c]);
  }

  lemma MoveKeepsBus(st: State, c: nat, m: Move)
    requires BusOk(st) && TidyMove(st.bus, m)
    ensures BusOk(Moved(st, c, m))
  {
    var st' := Moved(st, c, m);
    forall d | d in st'.clients ensures HoldsOwn(st'.bus, st'.clients[d]) {
      if d != c {
        assert HoldsOwn(st.bus, st.clients[d]);
        var q := if Holds(st.clients[d]) then st.clients[d].at.queue else 0;
        assert q < |st.bus.owner| ==> st'.bus.owner[q] == st.bus.owner[q];
      }
    }
  }

  /** A reader can always take its next step. */
  lemma ReaderNeverBlocks(cfg: Config, st: State, c: nat)
    requires BusOk(st) && c in st.clients
    ensures Enabled(cfg, st, Read(c))
  {
    assert HoldsOwn(st.bus, st.clients[c]);
  }

  /** What a queue's reader sees of a step: the queue, and whether it is still the claim's current one. */
  ghost predicate SameQueue(bus: Bus, bus': Bus, id: Id, q: nat) {
    && q < |bus.pool| && q < |bus'.pool| && bus'.pool[q] == bus.pool[q]
    && (id in bus.current <==> id in bus'.current) && (id in bus.current ==> bus'.current[id] == bus.current[id])
  }

  /** Readers of other claims, submitters and the human endpoint leave a claim's queue alone. */
  lemma OthersKeepQueue(cfg: Config, st: State, a: Action, id: Id, q: nat)
    requires BusOk(st) && Enabled(cfg, st, a) && !a.Work?
    requires a.Read? || a.Leave? ==> st.clients[a.client].claim != id
    requires q < |st.bus.pool| && st.bus.owner[q] == id
    ensures SameQueue(st.bus, Act(cfg, st, a).bus, id, q)
  {
    if a.Read? || a.Leave? {
      assert HoldsOwn(st.bus, st.clients[a.client]);
    }
  }

  /** What the worker says about one claim does not reach another's queue. */
  lemma WorkKeepsQueue(st: State, run: RunResult, raise: bool, id: Id, q: nat)
    requires BusOk(st) && q < |st.bus.pool| && st.bus.owner[q] == id
    requires st.worker.Idle? || st.worker.id != id
    ensures SameQueue(st.bus, WorkerStep(st, run, raise).bus, id, q)
  {
    match st.worker
    case Streaming(_, _, _) =>
    case _ =>
  }

  // ===== Termination ========================================================================

  /** The claim's record has reached a terminal state. */
  ghost predicate Over(st: State, id: Id) {
    id in st.store && Terminal(st.store[id])
  }

  /** A sentinel the worker still owes: it marks a failed claim after saving it. */
  function Owed(st: State, id: Id): nat {
    if st.worker == ErrMarking(id) then 1 else 0
  }

  /** A bound on the steps a reader still takes once its claim is over: its queue's length, the owed
      sentinel, the replay, and a constant. */
  ghost function Ahead(atomic: bool, st: State, c: nat): nat
    requires BusOk(st) && c in st.clients && Over(st, st.clients[c].claim)
  {
    var client := st.clients[c];
    var replay := |st.store[client.claim].trace| + 2;
    assert HoldsOwn(st.bus, client);
    match client.at
    case Start => replay + 2
    case Subscribed(_) => replay + 1
    case Live(q) => |st.bus.pool[q]| + Owed(st, client.claim) + replay + if atomic then 1 else 2
    case TimedOut(_) => replay + 1
    case Replaying(rest) => |rest| + 2
    case Closing(_) => 1
    case Done(_) => 0
  }

  /** A finished claim stays finished, with the same trace. */
  lemma OverStays(cfg: Config, st: State, a: Action, id: Id)
    requires Inv(cfg, st) && Enabled(cfg, st, a) && Over(st, id)
    ensures Over(Act(cfg, st, a), id) && Act(cfg, st, a).store[id].trace == st.store[id].trace
  {
    ActMovesOn(cfg, st, a);
  }

  /** Once its claim is over, each of a reader's own steps brings it closer to its end. */
  lemma OwnStepAdvances(cfg: Config, st: State, c: nat)
    requires Inv(cfg, st) && BusOk(st) && c in st.clients && Over(st, st.clients[c].claim)
    requires Enabled(cfg, st, Read(c)) && !st.clients[c].at.Done?
    ensures
      var st' := Act(cfg, st, Read(c));
      && BusOk(st') && c in st'.clients && Over(st', st'.clients[c].claim)
      && Ahead(cfg.atomic, st', c) < Ahead(cfg.atomic, st, c)
  {
    ActKeepsBus(cfg, st, Read(c));
    OverStays(cfg, st, Read(c), st.clients[c].claim);
    assert HoldsOwn(st.bus, st.clients[c]);
  }

  /** All the worker still tells about a finished claim is the sentinel it owes. */
  lemma OnlyOwed(cfg: Config, st: State, run: RunResult, raise: bool, id: Id)
    requires Inv(cfg, st) && Over(st, id)
    ensures
      var st' := WorkerStep(st, run, raise);
      || (st'.bus == st.bus && Owed(st', id) == Owed(st, id))
      || (st.worker == ErrMarking(id) && st'.bus == Publish(st.bus, id, Sentinel) && Owed(st', id) == 0)
      || (!st.worker.Idle? && st.worker.id != id && Owed(st', id) == Owed(st, id))
  {
    assert Placed(st, id);
  }

  /** The worker's steps never take a reader of a finished claim further from its end. */
  lemma WorkNeverDelays(cfg: Config, st: State, run: RunResult, raise: bool, c: nat)
    requires Inv(cfg, st) && cfg.legal(run) && BusOk(st) && c in st.clients && Over(st, st.clients[c].claim)
    ensures
      var st' := WorkerStep(st, run, raise);
      && BusOk(st') && c in st'.clients && Over(st', st'.clients[c].claim)
      && Ahead(cfg.atomic, st', c) <= Ahead(cfg.atomic, st, c)
  {
    var id, st' := st.clients[c].claim, WorkerStep(st, run, raise);
    WorkKeepsBus(st, run, raise);
    OverStays(cfg, st, Work(run, raise), id);
    assert st'.clients == st.clients;
    if st.clients[c].at.Live? {
      QueueNeverDelays(cfg, st, run, raise, c);
    }
  }

  /** What is in the reader's queue and the sentinel it is owed do not grow together. */
  lemma QueueNeverDelays(cfg: Config, st: State, run: RunResult, raise: bool, c: nat)
    requires Inv(cfg, st) && BusOk(st) && c in st.clients && Over(st, st.clients[c].claim)
    requires st.clients[c].at.Live?
    ensures
      var id, q, st' := st.clients[c].claim, st.clients[c].at.queue, WorkerStep(st, run, raise);
      && q < |st.bus.pool| && q < |st'.bus.pool|
      && |st'.bus.pool[q]| + Owed(st', id) <= |st.bus.pool[q]| + Owed(st, id)
  {
    var id := st.clients[c].claim;
    OnlyOwed(cfg, st, run, raise, id);
    assert HoldsOwn(st.bus, st.clients[c]);
    if !st.worker.Idle? && st.worker.id != id {
      WorkKeepsQueue(st, run, raise, id, st.clients[c].at.queue);
    }
  }

  lemma OthersNeverDelay(cfg: Config, st: State, a: Action, c: nat)
    requires Inv(cfg, st) && BusOk(st) && c in st.clients && Over(st, st.clients[c].claim)
    requires Enabled(cfg, st, a) && a != Read(c)
    ensures
      var st' := Act(cfg, st, a);
      && BusOk(st') && c in st'.clients && Over(st', st'.clients[c].claim)
      && Ahead(cfg.atomic, st', c) <= Ahead(cfg.atomic, st, c)
  {
    match a
    case Work(run, raise) => WorkNeverDelays(cfg, st, run, raise, c);
    case Read(d) => MoveNeverDelays(cfg, st, a, c);
    case Leave(d) => MoveNeverDelays(cfg, st, a, c);
    case _ =>
      ActKeepsBus(cfg, st, a);
      OverStays(cfg, st, a, st.clients[c].claim);
  }

  /** Another reader may shorten a shared queue, never lengthen it. */
  lemma MoveNeverDelays(cfg: Config, st: State, a: Action, c: nat)
    requires Inv(cfg, st) && BusOk(st) && c in st.clients && Over(st, st.clients[c].claim)
    requires Enabled(cfg, st, a) && a != Read(c) && (a.Read? || a.Leave?)
    ensures
      var st' := Act(cfg, st, a);
      && BusOk(st') && c in st'.clients && Over(st', st'.clients[c].claim)
      && Ahead(cfg.atomic, st', c) <= Ahead(cfg.atomic, st, c)
  {
    ActKeepsBus(cfg, st, a);
    OverStays(cfg, st, a, st.clients[c].claim);
    assert HoldsOwn(st.bus, st.clients[c]);
    if a != Leave(c) && st.clients[c].at.Live? {
      QueuesShrink(cfg, st, a, st.clients[c].at.queue);
    }
  }

  lemma QueuesShrink(cfg: Config, st: State, a: Action, q: nat)
    requires BusOk(st) && Enabled(cfg, st, a) && (a.Read? || a.Leave?) && q < |st.bus.pool|
    ensures q < |Act(cfg, st, a).bus.pool| && |Act(cfg, st, a).bus.pool[q]| <= |st.bus.pool[q]|
  {
  }

  function OwnSteps(actions: seq<Action>, c: nat): nat {
    if actions == [] then 0 else (if actions[0] == Read(c) then 1 else 0) + OwnSteps(actions[1..], c)
  }

  lemma {:induction false} StepsBounded(cfg: Config, st: State, actions: seq<Action>, c: nat)
    requires Inv(cfg, st) && BusOk(st) && Runs(cfg, st, actions)
    requires c in st.clients && Over(st, st.clients[c].claim)
    ensures c in Reach(cfg, st, actions).clients
    ensures OwnSteps(actions, c) >= Ahead(cfg.atomic, st, c) ==> Reach(cfg, st, actions).clients[c].at.Done?
    decreases |actions|
  {
    if actions != [] {
      var a := actions[0];
      ActKeeps(cfg, st, a);
      if a != Read(c) {
        OthersNeverDelay(cfg, st, a, c);
      } else if !st.clients[c].at.Done? {
        OwnStepAdvances(cfg, st, c);
      } else {
        ActKeepsBus(cfg, st, a);
      }
      StepsBounded(cfg, Act(cfg, st, a), actions[1..], c);
    }
  }

  lemma {:induction false} RunKeepsBus(cfg: Config, st: State, actions: seq<Action>)
    requires BusOk(st) && Runs(cfg, st, actions)
    ensures BusOk(Reach(cfg, st, actions))
    decreases |actions|
  {
    if actions != [] {
      ActKeepsBus(cfg, st, actions[0]);
      RunKeepsBus(cfg, Act(cfg, st, actions[0]), actions[1..]);
    }
  }

  /** Stream termination: with any number of readers sharing, losing or popping queues, a reader whose
      claim is over can always move, and is done after as many of its own steps as `Ahead` counts,
      whatever the others do in between. */
  lemma StreamsTerminate(cfg: Config, init: State, before: seq<Action>, after: seq<Action>, c: nat)
    requires Initial(init) && Runs(cfg, init, before) && Runs(cfg, Reach(cfg, init, before), after)
    requires c in Reach(cfg, init, before).clients
    requires Over(Reach(cfg, init, before), Reach(cfg, init, before).clients[c].claim)
    ensures
      var st := Reach(cfg, init, before);
      && BusOk(st)
      && Enabled(cfg, st, Read(c))
      && c in Reach(cfg, st, after).clients
      && (OwnSteps(after, c) >= Ahead(cfg.atomic, st, c) ==> Reach(cfg, st, after).clients[c].at.Done?)
  {
    InitialInv(cfg, init);
    RunKeeps(cfg, init, before);
    RunKeepsBus(cfg, init, before);
    var st := Reach(cfg, init, before);
    ReaderNeverBlocks(cfg, st, c);
    StepsBounded(cfg, st, after, c);
  }

  // ===== Replays ============================================================================

  /** A replay has sent what went before it, and then the part of the stored trace it no longer holds. */
  ghost predicate ReplayOk(st: State, client: Client) {
    match client.at
    case Replaying(rest) =>
      && Over(st, client.claim)
      && var trace := st.store[client.claim].trace;
         && |rest| <= |trace| && rest == trace[|trace| - |rest|..]
         && client.sent == client.before + Events(trace[..|trace| - |rest|])
    case Closing(ByReplay) =>
      Over(st, client.claim) && client.sent == client.before + Events(st.store[client.claim].trace) + [Sentinel]
    case Done(ByReplay) =>
      Over(st, client.claim) && client.sent == client.before + Events(st.store[client.claim].trace) + [Sentinel]
    case _ => true
  }

  ghost predicate ReplaysOk(st: State) {
    forall c :: c in st.clients ==> ReplayOk(st, st.clients[c])
  }

  lemma ReplayStepOk(st: State, client: Client, rest: seq<C.StepTrace>)
    requires client.at == Replaying(rest) && ReplayOk(st, client)
    ensures ReplayOk(st, Replay(st, client, rest).client)
  {
    var trace := st.store[client.claim].trace;
    var n := |trace| - |rest|;
    if rest == [] {
      assert trace[..n] == trace;
    } else {
      ConcatAssoc(client.before, Events(trace[..n]), [Step(rest[0])]);
      assert Events(trace[..n]) + [Step(rest[0])] == Events(trace[..n + 1]);
    }
  }

  lemma ReaderStepReplays(atomic: bool, st: State, client: Client)
    requires ReplayOk(st, client)
    ensures Readable(st, client) ==> ReplayOk(st, ReaderStep(atomic, st, client).client)
    ensures ReplayOk(st, Drop(st, client).client)
  {
    if client.at.Replaying? { ReplayStepOk(st, client, client.at.rest); }
    if client.claim in st.store {
      var trace := st.store[client.claim].trace;
      assert trace[|trace| - |trace|..] == trace && client.sent + Events(trace[..0]) == client.sent;
    }
  }

  /** A finished claim's trace does not change under a replay. */
  lemma ReplayFramed(cfg: Config, st: State, a: Action, client: Client)
    requires Inv(cfg, st) && Enabled(cfg, st, a) && ReplayOk(st, client)
    ensures ReplayOk(Act(cfg, st, a), client)
  {
    if Over(st, client.claim) { OverStays(cfg, st, a, client.claim); }
  }

  lemma MovesTheirOwn(cfg: Config, st: State, a: Action, c: nat)
    requires Enabled(cfg, st, a) && c in st.clients
    ensures c in Act(cfg, st, a).clients
    ensures !(a.Read? || a.Leave?) || a.client != c ==> Act(cfg, st, a).clients[c] == st.clients[c]
    ensures a == Read(c) ==> Act(cfg, st, a).clients[c] == ReaderStep(cfg.atomic, st, st.clients[c]).client
    ensures a == Leave(c) ==> Act(cfg, st, a).clients[c] == Drop(st, st.clients[c]).client
  {
  }

  lemma ReadersStay(cfg: Config, st: State, a: Action)
    requires Enabled(cfg, st, a)
    ensures Act(cfg, st, a).clients.Keys == st.clients.Keys
  {
  }

  lemma ActKeepsReplays(cfg: Config, st: State, a: Action)
    requires Inv(cfg, st) && Enabled(cfg, st, a) && ReplaysOk(st)
    ensures ReplaysOk(Act(cfg, st, a))
  {
    var st' := Act(cfg, st, a);
    ReadersStay(cfg, st, a);
    forall c | c in st'.clients ensures ReplayOk(st', st'.clients[c]) {
      assert c in st.clients.Keys;
      MovesTheirOwn(cfg, st, a, c);
      ReaderStepReplays(cfg.atomic, st, st.clients[c]);
      ReplayFramed(cfg, st, a, st'.clients[c]);
    }
  }

  lemma {:induction false} RunKeepsReplays(cfg: Config, st: State, actions: seq<Action>)
    requires Inv(cfg, st) && ReplaysOk(st) && Runs(cfg, st, actions)
    ensures ReplaysOk(Reach(cfg, st, actions))
    decreases |actions|
  {
    if actions != [] {
      ActKeeps(cfg, st, actions[0]);
      ActKeepsReplays(cfg, st, actions[0]);
      RunKeepsReplays(cfg, Act(cfg, st, actions[0]), actions[1..]);
    }
  }

  /** With any number of readers, a stream that ends by replay has sent what it had sent before, then its claim's
      whole stored trace, and `done`. */
  lemma ReplaysAreComplete(cfg: Config, init: State, actions: seq<Action>, c: nat)
    requires Initial(init) && Runs(cfg, init, actions)
    requires c in Reach(cfg, init, actions).clients && Reach(cfg, init, actions).clients[c].at == Done(ByReplay)
    ensures
      var st := Reach(cfg, init, actions);
      var client := st.clients[c];
      && client.claim in st.store && Terminal(st.store[client.claim])
      && client.sent == client.before + Events(st.store[client.claim].trace) + [Sentinel]
  {
    InitialInv(cfg, init);
    RunKeepsReplays(cfg, init, actions);
    assert ReplayOk(Reach(cfg, init, actions), Reach(cfg, init, actions).clients[c]);
  }
}
