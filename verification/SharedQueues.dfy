// Readers of one claim share its queue (api/worker.py:165-186, api/routes/claims.py:164-214): who gets which of
// the events, in every interleaving.

module SharedQueues {
  import opened Prelude
  import C = CostMeter
  import opened Lifecycle
  import opened LifecycleTheorems
  import opened Streams
  import opened ExactlyOnce

  /** What the worker's next step publishes, and for which claim. */
  function Telling(st: State): Option<(Id, Event)> {
    match st.worker
    case Streaming(id, _, todo) =>
      if todo != [] then Some((id, Step(todo[0])))
      else if id in st.history.runs && st.history.runs[id].Fails? then None
      else Some((id, Sentinel))
    case ErrMarking(id) => Some((id, Sentinel))
    case _ => None
  }

  /** The event an action puts into queue `q`, if any. */
  ghost function Puts(st: State, a: Action, q: nat): seq<Event> {
    if !a.Work? then []
    else
      match Telling(st)
      case Some((id, e)) => if id in st.bus.current && st.bus.current[id] == q then [e] else []
      case None => []
  }

  /** The event an action takes out of queue `q`, if any, and the reader that gets it. */
  ghost function Takes(st: State, a: Action, q: nat): seq<(nat, Event)> {
    if a.Read? && a.client in st.clients && st.clients[a.client].at == Live(q)
       && q < |st.bus.pool| && st.bus.pool[q] != []
    then [(a.client, st.bus.pool[q][0])] else []
  }

  ghost function PutInto(cfg: Config, st: State, actions: seq<Action>, q: nat): seq<Event>
    requires Runs(cfg, st, actions)
    decreases |actions|
  {
    if actions == [] then []
    else Puts(st, actions[0], q) + PutInto(cfg, Act(cfg, st, actions[0]), actions[1..], q)
  }

  ghost function TakenFrom(cfg: Config, st: State, actions: seq<Action>, q: nat): seq<(nat, Event)>
    requires Runs(cfg, st, actions)
    decreases |actions|
  {
    if actions == [] then []
    else Takes(st, actions[0], q) + TakenFrom(cfg, Act(cfg, st, actions[0]), actions[1..], q)
  }

  /** The events taken, whoever got them. */
  function EventsTaken(taken: seq<(nat, Event)>): (r: seq<Event>)
    ensures |r| == |taken| && forall i :: 0 <= i < |r| ==> r[i] == taken[i].1
  {
    seq(|taken|, i requires 0 <= i < |taken| => taken[i].1)
  }

  /** Those of them one reader got. */
  function TakenBy(taken: seq<(nat, Event)>, c: nat): seq<Event> {
    if taken == [] then [] else Part(taken[0], c) + TakenBy(taken[1..], c)
  }

  function Part(take: (nat, Event), c: nat): seq<Event> {
    if take.0 == c then [take.1] else []
  }

  // ----- No event lost, none copied -----------------------------------------------------------

  /** The worker's step publishes what it tells, and nothing else. */
  lemma WorkTells(st: State, run: RunResult, raise: bool)
    ensures
      var st' := WorkerStep(st, run, raise);
      && st'.clients == st.clients
      && match Telling(st)
         case Some((id, e)) => st'.bus == Publish(st.bus, id, e) && st'.history == Note(st.history, id, e)
         case None => st'.bus == st.bus && st'.history.published == st.history.published
  {
  }

  lemma WorkFeeds(st: State, run: RunResult, raise: bool, q: nat)
    requires q < |st.bus.pool|
    ensures
      var bus := WorkerStep(st, run, raise).bus;
      q < |bus.pool| && bus.pool[q] == st.bus.pool[q] + Puts(st, Work(run, raise), q)
  {
    WorkTells(st, run, raise);
  }

  lemma ReadDrains(cfg: Config, st: State, c: nat, q: nat)
    requires Enabled(cfg, st, Read(c)) && q < |st.bus.pool|
    ensures
      var bus := Act(cfg, st, Read(c)).bus;
      q < |bus.pool| && st.bus.pool[q] == EventsTaken(Takes(st, Read(c), q)) + bus.pool[q]
  {
  }

  lemma QueueStep(cfg: Config, st: State, a: Action, q: nat)
    requires Enabled(cfg, st, a) && q < |st.bus.pool|
    ensures
      var bus := Act(cfg, st, a).bus;
      && q < |bus.pool|
      && st.bus.pool[q] + Puts(st, a, q) == EventsTaken(Takes(st, a, q)) + bus.pool[q]
  {
    match a
    case Work(run, raise) => WorkFeeds(st, run, raise, q);
    case Read(c) => ReadDrains(cfg, st, c, q);
    case _ =>
  }

  /** Two balances, one after the other. */
  lemma Conserved<T>(pool: seq<T>, put: seq<T>, taken: seq<T>, next: seq<T>, putLater: seq<T>, takenLater: seq<T>,
      last: seq<T>)
    requires pool + put == taken + next && next + putLater == takenLater + last
    ensures pool + (put + putLater) == (taken + takenLater) + last
  {
    assert pool + (put + putLater) == (pool + put) + putLater == taken + (next + putLater);
    assert taken + (takenLater + last) == (taken + takenLater) + last;
  }

  lemma EventsTakenConcat(a: seq<(nat, Event)>, b: seq<(nat, Event)>)
    ensures EventsTaken(a + b) == EventsTaken(a) + EventsTaken(b)
  {
  }

  /** A queue's events are split among its readers: over any run, what was in it and what the worker put in is what
      readers took out, in that order and each event by one reader, and what is still in it. */
  lemma {:induction false} QueueConserved(cfg: Config, st: State, actions: seq<Action>, q: nat)
    requires Runs(cfg, st, actions) && q < |st.bus.pool|
    ensures q < |Reach(cfg, st, actions).bus.pool|
    ensures st.bus.pool[q] + PutInto(cfg, st, actions, q)
         == EventsTaken(TakenFrom(cfg, st, actions, q)) + Reach(cfg, st, actions).bus.pool[q]
    decreases |actions|
  {
    if actions != [] {
      var a, rest := actions[0], actions[1..];
      var next := Act(cfg, st, a);
      QueueStep(cfg, st, a, q);
      QueueConserved(cfg, next, rest, q);
      Conserved(st.bus.pool[q], Puts(st, a, q), EventsTaken(Takes(st, a, q)), next.bus.pool[q],
        PutInto(cfg, next, rest, q), EventsTaken(TakenFrom(cfg, next, rest, q)), Reach(cfg, next, rest).bus.pool[q]);
      EventsTakenConcat(Takes(st, a, q), TakenFrom(cfg, next, rest, q));
    }
  }

  // ----- What one of them sends -----------------------------------------------------------------

  /** Whatever queue the reader holds is `q`. */
  ghost predicate HoldsOnly(client: Client, q: nat) {
    && (client.at.Subscribed? || client.at.Live? || client.at.TimedOut? ==> client.at.queue == q)
    && !client.at.Start?
  }

  /** What a reader has sent when it has taken `took` out of its queue. */
  ghost predicate SentFrom(client: Client, took: seq<Event>) {
    match client.at
    case Start => client.sent == took == []
    case Subscribed(_) => client.sent == took && Sentinel !in took
    case Live(_) => client.sent == took && Sentinel !in took
    case TimedOut(_) => client.sent == took && Sentinel !in took
    case Replaying(_) => client.before == took && Sentinel !in took && took <= client.sent
    case Closing(how) => EndedFrom(client, how, took)
    case Done(how) => EndedFrom(client, how, took)
  }

  ghost predicate EndedFrom(client: Client, how: Ending, took: seq<Event>) {
    match how
    case BySentinel => client.sent == took && EndsAtSentinel(took)
    case ByReplay => client.before == took && Sentinel !in took && took <= client.sent
    case ByError => client.sent == took + [NotFound]
    case Dropped => took <= client.sent
  }

  ghost predicate EndsAtSentinel(took: seq<Event>) {
    took != [] && took[|took| - 1] == Sentinel && Sentinel !in took[..|took| - 1]
  }

  lemma TakeSent(client: Client, e: Event, next: Client)
    requires client.at.Live? && Sentinel !in client.sent
    requires next == client.(sent := client.sent + [e],
                             at := if e == Sentinel then Closing(BySentinel) else client.at)
    ensures SentFrom(next, client.sent + [e])
  {
    assert (client.sent + [e])[..|client.sent|] == client.sent;
  }

  lemma OwnStepSent(cfg: Config, st: State, client: Client, took: seq<Event>)
    requires Readable(st, client) && SentFrom(client, took) && !client.at.Start?
    requires client.at.Live? ==> st.bus.pool[client.at.queue] == []
    ensures SentFrom(ReaderStep(cfg.atomic, st, client).client, took)
  {
    if client.at.Replaying? && client.at.rest != [] {
      assert took <= client.sent + [Step(client.at.rest[0])];
    }
  }

  /** One step of anybody: the reader has sent what it took, whether it is on the stream or past it. */
  lemma SentStep(cfg: Config, st: State, a: Action, c: nat, q: nat, took: seq<Event>)
    requires Enabled(cfg, st, a) && c in st.clients && HoldsOnly(st.clients[c], q) && SentFrom(st.clients[c], took)
    ensures c in Act(cfg, st, a).clients
    ensures
      var client' := Act(cfg, st, a).clients[c];
      HoldsOnly(client', q) && SentFrom(client', took + TakenBy(Takes(st, a, q), c))
  {
    var client := st.clients[c];
    MovesTheirOwn(cfg, st, a, c);
    assert took + [] == took;
    if a == Read(c) && client.at.Live? && st.bus.pool[q] != [] {
      assert TakenBy(Takes(st, a, q), c) == [st.bus.pool[q][0]] + [];
      TakeSent(client, st.bus.pool[q][0], Act(cfg, st, a).clients[c]);
    } else {
      NothingTaken(st, a, c, q);
      if a == Read(c) { OwnStepSent(cfg, st, client, took); }
    }
  }

  lemma NothingTaken(st: State, a: Action, c: nat, q: nat)
    requires c in st.clients
    requires a == Read(c) && st.clients[c].at == Live(q) && q < |st.bus.pool| ==> st.bus.pool[q] == []
    ensures TakenBy(Takes(st, a, q), c) == []
  {
  }

  lemma {:induction false} TakenByConcat(a: seq<(nat, Event)>, b: seq<(nat, Event)>, c: nat)
    ensures TakenBy(a + b, c) == TakenBy(a, c) + TakenBy(b, c)
  {
    if a == [] {
      assert a + b == b;
    } else {
      assert (a + b)[1..] == a[1..] + b;
      TakenByConcat(a[1..], b, c);
      ConcatAssoc(Part(a[0], c), TakenBy(a[1..], c), TakenBy(b, c));
    }
  }

  lemma {:induction false} SentRun(cfg: Config, st: State, actions: seq<Action>, c: nat, q: nat, took: seq<Event>)
    requires Runs(cfg, st, actions) && c in st.clients && HoldsOnly(st.clients[c], q) && SentFrom(st.clients[c], took)
    ensures c in Reach(cfg, st, actions).clients
    ensures SentFrom(Reach(cfg, st, actions).clients[c], took + TakenBy(TakenFrom(cfg, st, actions, q), c))
    decreases |actions|
  {
    if actions == [] {
      assert took + [] == took;
    } else {
      var a, next := actions[0], Act(cfg, st, actions[0]);
      var now, later := Takes(st, a, q), TakenFrom(cfg, next, actions[1..], q);
      SentStep(cfg, st, a, c, q, took);
      SentRun(cfg, next, actions[1..], c, q, took + TakenBy(now, c));
      TakenByConcat(now, later, c);
      ConcatAssoc(took, TakenBy(now, c), TakenBy(later, c));
    }
  }

  lemma {:induction false} SentFromStart(cfg: Config, st: State, actions: seq<Action>, c: nat) returns (q: nat)
    requires Runs(cfg, st, actions) && c in st.clients && st.clients[c].at.Start? && st.clients[c].sent == []
    ensures c in Reach(cfg, st, actions).clients
    ensures SentFrom(Reach(cfg, st, actions).clients[c], TakenBy(TakenFrom(cfg, st, actions, q), c))
    decreases |actions|
  {
    if actions == [] {
      q := 0;
    } else {
      var a, next := actions[0], Act(cfg, st, actions[0]);
      MovesTheirOwn(cfg, st, a, c);
      if a == Read(c) {
        q := next.clients[c].at.queue;
        SentRun(cfg, next, actions[1..], c, q, []);
        NothingTaken(st, a, c, q);
        TakenByConcat(Takes(st, a, q), TakenFrom(cfg, next, actions[1..], q), c);
      } else {
        q := SentFromStart(cfg, next, actions[1..], c);
        NothingTaken(st, a, c, q);
        TakenByConcat(Takes(st, a, q), TakenFrom(cfg, next, actions[1..], q), c);
      }
    }
  }

  /** In every interleaving a reader sends what it has taken out of one queue, in order, and nothing else before it
      replays. Ended by the sentinel, it has sent just that, the sentinel last and nowhere else. Ended by replay, it
      has sent that, then the whole stored trace and `done`; so exactly the trace and `done` if and only if it had
      taken nothing. */
  lemma SentIsTaken(cfg: Config, init: State, actions: seq<Action>, c: nat) returns (q: nat)
    requires Initial(init) && Runs(cfg, init, actions) && c in init.clients
    ensures c in Reach(cfg, init, actions).clients
    ensures
      var last, took := Reach(cfg, init, actions), TakenBy(TakenFrom(cfg, init, actions, q), c);
      var client := last.clients[c];
      && SentFrom(client, took)
      && (client.at == Done(BySentinel) ==> client.sent == took && EndsAtSentinel(took))
      && (client.at == Done(ByReplay) ==>
            && client.claim in last.store && Terminal(last.store[client.claim])
            && var trace := last.store[client.claim].trace;
               && client.sent == took + Events(trace) + [Sentinel]
               && (client.sent == Events(trace) + [Sentinel] <==> took == []))
  {
    q := SentFromStart(cfg, init, actions, c);
    if Reach(cfg, init, actions).clients[c].at == Done(ByReplay) {
      ReplaysAreComplete(cfg, init, actions, c);
    }
  }

  // ===== Two readers of one claim ===============================================================

  /** Nobody closes a connection early. */
  predicate NobodyLeaves(actions: seq<Action>) {
    forall i :: 0 <= i < |actions| ==> !actions[i].Leave?
  }

  /** Some interleaving in which nobody leaves leads from one state to the other. */
  ghost predicate Leads(cfg: Config, st: State, st': State) {
    exists actions :: NobodyLeaves(actions) && Runs(cfg, st, actions) && Reach(cfg, st, actions) == st'
  }

  lemma LeadsOn(cfg: Config, init: State, st: State, a: Action, st': State)
    requires Leads(cfg, init, st) && !a.Leave? && Enabled(cfg, st, a) && Act(cfg, st, a) == st'
    ensures Leads(cfg, init, st')
  {
    var actions :| NobodyLeaves(actions) && Runs(cfg, init, actions) && Reach(cfg, init, actions) == st;
    RunsExtend(cfg, init, actions, a);
    assert NobodyLeaves(actions + [a]);
  }

  /** Nothing submitted yet, and two readers to come. */
  const PAIR: State := EMPTY.(clients := map[0 := PUBLIC, 1 := PUBLIC])

  const LIVE: Client := PUBLIC.(at := Live(0))

  /** The states of the example: the two readers, the worker, what waits in their queue, and what has been told. */
  function Shared(worker: Worker, events: seq<Event>, a: Client, b: Client, told: seq<Event>, run: RunResult): State {
    State(map["x" := PROCESSING], TAKEN, Bus(map["x" := 0], [events], ["x"]), worker, map[0 := a, 1 := b],
          History(map["x" := told], map["x" := run], {}))
  }

  /** The claim waits, and both readers on the queue they share. */
  function PairOpened(a: Client, b: Client): State {
    State(map["x" := NEW_RECORD], Broker({}, ["x"], {}, {}), Bus(map["x" := 0], [[]], ["x"]), Idle,
          map[0 := a, 1 := b], History(map[], map[], {}))
  }

  lemma PairSubmits(cfg: Config)
    ensures Leads(cfg, PAIR, PairSubmitted())
  {
    assert NobodyLeaves([]) && Runs(cfg, PAIR, []) && Reach(cfg, PAIR, []) == PAIR;
    var s1 := Act(cfg, PAIR, Create("x"));
    LeadsOn(cfg, PAIR, PAIR, Create("x"), s1);
    assert Act(cfg, s1, Enqueue("x")).broker == PairSubmitted().broker;
    LeadsOn(cfg, PAIR, s1, Enqueue("x"), PairSubmitted());
  }

  function PairSubmitted(): State {
    PAIR.(store := map["x" := NEW_RECORD], broker := Broker({}, ["x"], {}, {}))
  }

  lemma FirstOpens(cfg: Config)
    ensures Leads(cfg, PAIR, PairOpened(LIVE, PUBLIC))
  {
    PairSubmits(cfg);
    var s2 := PairSubmitted();
    var s3 := PairOpened(PUBLIC.(at := Subscribed(0)), PUBLIC);
    var r := Act(cfg, s2, Read(0));
    assert r.bus.pool == s3.bus.pool && r.clients == s3.clients;
    LeadsOn(cfg, PAIR, s2, Read(0), s3);
    assert Act(cfg, s3, Read(0)).clients == PairOpened(LIVE, PUBLIC).clients;
    LeadsOn(cfg, PAIR, s3, Read(0), PairOpened(LIVE, PUBLIC));
  }

  lemma BothOpen(cfg: Config)
    ensures Leads(cfg, PAIR, PairOpened(LIVE, LIVE))
  {
    FirstOpens(cfg);
    var s1 := PairOpened(LIVE, PUBLIC.(at := Subscribed(0)));
    assert Act(cfg, PairOpened(LIVE, PUBLIC), Read(1)).clients == s1.clients;
    LeadsOn(cfg, PAIR, PairOpened(LIVE, PUBLIC), Read(1), s1);
    assert Act(cfg, s1, Read(1)).clients == PairOpened(LIVE, LIVE).clients;
    LeadsOn(cfg, PAIR, s1, Read(1), PairOpened(LIVE, LIVE));
  }

  /** The worker has begun the run. */
  lemma PairBegins(cfg: Config, run: RunResult)
    requires run.Finished? && cfg.legal(run)
    ensures Leads(cfg, PAIR, PairBegun(run))
  {
    BothOpen(cfg);
    var work, s0 := Work(run, false), PairOpened(LIVE, LIVE);
    var s1 := s0.(broker := TAKEN, worker := Got("x"));
    assert Act(cfg, s0, work).broker.waiting == [];
    LeadsOn(cfg, PAIR, s0, work, s1);
    var s2 := s1.(worker := Loaded("x", NEW_RECORD));
    LeadsOn(cfg, PAIR, s1, work, s2);
    LeadsOn(cfg, PAIR, s2, work, PairBegun(run));
  }

  function PairBegun(run: RunResult): State
    requires run.Finished?
  {
    var told := Shared(Streaming("x", PROCESSING, run.trace), [], LIVE, LIVE, [], run);
    told.(history := History(map[], map["x" := run], {}))
  }

  /** The first reader has sent the first step, and the second one the others up to `k`. */
  function SplitAt(run: RunResult, k: nat): State
    requires run.Finished? && 1 <= k <= |run.trace|
  {
    Shared(Streaming("x", PROCESSING, run.trace[k..]), [], First(run), Second(run, k), Events(run.trace[..k]), run)
  }

  function First(run: RunResult): Client
    requires run.Finished? && run.trace != []
  {
    LIVE.(sent := Events(run.trace[..1]))
  }

  function Second(run: RunResult, k: nat): Client
    requires run.Finished? && 1 <= k <= |run.trace|
  {
    LIVE.(sent := Events(run.trace[1..k]))
  }

  /** The worker tells step `k`, which either reader can take. */
  lemma TellsTheNext(cfg: Config, run: RunResult, k: nat)
    requires run.Finished? && 1 <= k < |run.trace| && cfg.legal(run)
    ensures
      Act(cfg, SplitAt(run, k), Work(run, false)) ==
        Shared(Streaming("x", PROCESSING, run.trace[k + 1..]), [Step(run.trace[k])], First(run), Second(run, k),
               Events(run.trace[..k + 1]), run)
  {
    var r := Act(cfg, SplitAt(run, k), Work(run, false));
    assert [] + [Step(run.trace[k])] == [Step(run.trace[k])];
    assert Events(run.trace[..k]) + [Step(run.trace[k])] == Events(run.trace[..k + 1]);
    assert run.trace[k..][1..] == run.trace[k + 1..];
    assert r.bus.pool == [[Step(run.trace[k])]];
    assert r.history.published == map["x" := Events(run.trace[..k + 1])];
  }

  lemma SecondTakes(cfg: Config, run: RunResult, k: nat)
    requires run.Finished? && 1 <= k < |run.trace|
    ensures
      Act(cfg, Shared(Streaming("x", PROCESSING, run.trace[k + 1..]), [Step(run.trace[k])], First(run), Second(run, k),
                      Events(run.trace[..k + 1]), run), Read(1)) == SplitAt(run, k + 1)
  {
    var st := Shared(Streaming("x", PROCESSING, run.trace[k + 1..]), [Step(run.trace[k])], First(run), Second(run, k),
                     Events(run.trace[..k + 1]), run);
    var r := Act(cfg, st, Read(1));
    assert Events(run.trace[1..k]) + [Step(run.trace[k])] == Events(run.trace[1..k + 1]);
    assert [Step(run.trace[k])][1..] == [];
    assert r.bus.pool == [[]];
    assert r.clients == SplitAt(run, k + 1).clients;
  }

  /** The worker has told the first step. */
  function FirstTold(run: RunResult): State
    requires run.Finished? && run.trace != []
  {
    Shared(Streaming("x", PROCESSING, run.trace[1..]), [Step(run.trace[0])], LIVE, LIVE, Events(run.trace[..1]), run)
  }

  lemma TellsTheFirst(cfg: Config, run: RunResult)
    requires run.Finished? && run.trace != [] && cfg.legal(run)
    ensures Leads(cfg, PAIR, FirstTold(run))
  {
    PairBegins(cfg, run);
    var r := Act(cfg, PairBegun(run), Work(run, false));
    assert [] + [Step(run.trace[0])] == Events(run.trace[..1]) == [Step(run.trace[0])];
    assert r.bus.pool == FirstTold(run).bus.pool && r.history.published == FirstTold(run).history.published;
    LeadsOn(cfg, PAIR, PairBegun(run), Work(run, false), FirstTold(run));
  }

  lemma FirstTakes(cfg: Config, run: RunResult)
    requires run.Finished? && run.trace != [] && cfg.legal(run)
    ensures Leads(cfg, PAIR, SplitAt(run, 1))
  {
    TellsTheFirst(cfg, run);
    var r := Act(cfg, FirstTold(run), Read(0));
    assert Events(run.trace[1..1]) == [] && [Step(run.trace[0])][1..] == [];
    assert [] + [Step(run.trace[0])] == Events(run.trace[..1]);
    assert r.bus.pool == [[]] && r.clients == SplitAt(run, 1).clients;
    LeadsOn(cfg, PAIR, FirstTold(run), Read(0), SplitAt(run, 1));
  }

  lemma {:induction false} SecondTakesRest(cfg: Config, run: RunResult, k: nat)
    requires run.Finished? && 1 <= k <= |run.trace| && cfg.legal(run)
    ensures Leads(cfg, PAIR, SplitAt(run, k))
  {
    if k == 1 {
      FirstTakes(cfg, run);
    } else {
      SecondTakesRest(cfg, run, k - 1);
      TellsTheNext(cfg, run, k - 1);
      LeadsOn(cfg, PAIR, SplitAt(run, k - 1), Work(run, false), Act(cfg, SplitAt(run, k - 1), Work(run, false)));
      SecondTakes(cfg, run, k - 1);
      LeadsOn(cfg, PAIR, Act(cfg, SplitAt(run, k - 1), Work(run, false)), Read(1), SplitAt(run, k));
    }
  }

  /** The run is saved, and the second reader done by the sentinel; the first stands as `a`. */
  function SecondDone(run: RunResult, a: Client): State
    requires run.Finished? && run.trace != []
  {
    State(map["x" := Saved(PROCESSING, run)], TAKEN, Bus(map[], [[]], ["x"]), Acking("x"),
          map[0 := a, 1 := LIVE.(at := Done(BySentinel), sent := Events(run.trace[1..]) + [Sentinel])],
          History(map["x" := Told(run)], map["x" := run], {}))
  }

  lemma SecondEnds(cfg: Config, run: RunResult)
    requires run.Finished? && run.trace != [] && cfg.legal(run)
    ensures Leads(cfg, PAIR, SecondDone(run, First(run)))
  {
    var n, work := |run.trace|, Work(run, false);
    var second := LIVE.(sent := Events(run.trace[1..]));
    SecondTakesRest(cfg, run, n);
    assert run.trace[n..] == [] && run.trace[..n] == run.trace && run.trace[1..n] == run.trace[1..];
    var s1 := Shared(Saving("x", PROCESSING), [Sentinel], First(run), second, Told(run), run);
    var r1 := Act(cfg, SplitAt(run, n), work);
    assert [] + [Sentinel] == [Sentinel];
    assert r1.bus.pool == s1.bus.pool && r1.history.published == s1.history.published;
    LeadsOn(cfg, PAIR, SplitAt(run, n), work, s1);
    SecondCloses(cfg, run, s1);
  }

  /** The run is saved, with `events` in the queue that is `current`, and the second reader as `b`. */
  function SavedPair(run: RunResult, current: map<Id, nat>, events: seq<Event>, b: Client): State
    requires run.Finished? && run.trace != []
  {
    State(map["x" := Saved(PROCESSING, run)], TAKEN, Bus(current, [events], ["x"]), Acking("x"),
          map[0 := First(run), 1 := b], History(map["x" := Told(run)], map["x" := run], {}))
  }

  lemma SecondMoves(cfg: Config, run: RunResult, current: map<Id, nat>, events: seq<Event>, b: Client,
      current': map<Id, nat>, events': seq<Event>, b': Client)
    requires run.Finished? && run.trace != [] && Leads(cfg, PAIR, SavedPair(run, current, events, b))
    requires
      var st := SavedPair(run, current, events, b);
      Readable(st, b) && ReaderStep(cfg.atomic, st, b) == Move(Bus(current', [events'], ["x"]), b')
    ensures Leads(cfg, PAIR, SavedPair(run, current', events', b'))
  {
    var st, next := SavedPair(run, current, events, b), SavedPair(run, current', events', b');
    assert Act(cfg, st, Read(1)).clients == next.clients;
    LeadsOn(cfg, PAIR, st, Read(1), next);
  }

  /** The worker saves; the second reader takes the sentinel and leaves. */
  lemma SecondCloses(cfg: Config, run: RunResult, s1: State)
    requires run.Finished? && run.trace != [] && cfg.legal(run) && Leads(cfg, PAIR, s1)
    requires s1 == Shared(Saving("x", PROCESSING), [Sentinel], First(run), LIVE.(sent := Events(run.trace[1..])),
                          Told(run), run)
    ensures Leads(cfg, PAIR, SecondDone(run, First(run)))
  {
    var live := LIVE.(sent := Events(run.trace[1..]));
    var closing := LIVE.(at := Closing(BySentinel), sent := live.sent + [Sentinel]);
    LeadsOn(cfg, PAIR, s1, Work(run, false), SavedPair(run, map["x" := 0], [Sentinel], live));
    assert [[Sentinel]][0 := []] == [[]] && [Sentinel][1..] == [];
    SecondMoves(cfg, run, map["x" := 0], [Sentinel], live, map["x" := 0], [], closing);
    assert map["x" := 0] - {"x"} == map[];
    SecondMoves(cfg, run, map["x" := 0], [], closing, map[], [], closing.(at := Done(BySentinel)));
  }

  /** The first reader has replayed `k` steps. */
  function FirstReplaying(run: RunResult, k: nat): Client
    requires run.Finished? && run.trace != [] && k <= |run.trace|
  {
    var first := Events(run.trace[..1]);
    LIVE.(at := Replaying(run.trace[k..]), sent := first + Events(run.trace[..k]), before := first)
  }

  lemma FirstMoves(cfg: Config, run: RunResult, a: Client, a': Client)
    requires run.Finished? && run.trace != [] && Leads(cfg, PAIR, SecondDone(run, a))
    requires
      var st := SecondDone(run, a);
      Readable(st, a) && ReaderStep(cfg.atomic, st, a) == Move(st.bus, a')
    ensures Leads(cfg, PAIR, SecondDone(run, a'))
  {
    assert Act(cfg, SecondDone(run, a), Read(0)).clients == SecondDone(run, a').clients;
    LeadsOn(cfg, PAIR, SecondDone(run, a), Read(0), SecondDone(run, a'));
  }

  /** Its queue is empty and the claim has finished: torn or not, the timeout leads to a replay. */
  lemma FirstReplays(cfg: Config, run: RunResult)
    requires run.Finished? && run.trace != [] && cfg.legal(run)
    ensures Leads(cfg, PAIR, SecondDone(run, FirstReplaying(run, 0)))
  {
    var first, torn := First(run), First(run).(at := TimedOut(0));
    SecondEnds(cfg, run);
    assert run.trace[0..] == run.trace;
    assert Events(run.trace[..1]) + Events(run.trace[..0]) == Events(run.trace[..1]);
    if cfg.atomic {
      FirstMoves(cfg, run, first, FirstReplaying(run, 0));
    } else {
      FirstMoves(cfg, run, first, torn);
      FirstMoves(cfg, run, torn, FirstReplaying(run, 0));
    }
  }

  lemma {:induction false} FirstReplaysOn(cfg: Config, run: RunResult, k: nat)
    requires run.Finished? && run.trace != [] && k <= |run.trace| && cfg.legal(run)
    ensures Leads(cfg, PAIR, SecondDone(run, FirstReplaying(run, k)))
  {
    if k == 0 {
      FirstReplays(cfg, run);
    } else {
      FirstReplaysOn(cfg, run, k - 1);
      NextReplayed(run, k - 1);
      FirstMoves(cfg, run, FirstReplaying(run, k - 1), FirstReplaying(run, k));
    }
  }

  lemma NextReplayed(run: RunResult, k: nat)
    requires run.Finished? && k < |run.trace|
    ensures FirstReplaying(run, k + 1).sent == FirstReplaying(run, k).sent + [Step(run.trace[k])]
    ensures run.trace[k..][1..] == run.trace[k + 1..]
  {
    ConcatAssoc(Events(run.trace[..1]), Events(run.trace[..k]), [Step(run.trace[k])]);
    assert Events(run.trace[..k]) + [Step(run.trace[k])] == Events(run.trace[..k + 1]);
  }

  /** The first reader has replayed everything. */
  function FirstEnded(run: RunResult, at: Reader): Client
    requires run.Finished? && run.trace != []
  {
    var first := Events(run.trace[..1]);
    LIVE.(at := at, sent := first + Events(run.trace) + [Sentinel], before := first)
  }

  lemma FirstCloses(cfg: Config, run: RunResult)
    requires run.Finished? && run.trace != [] && cfg.legal(run)
    ensures Leads(cfg, PAIR, SecondDone(run, FirstEnded(run, Done(ByReplay))))
  {
    var n := |run.trace|;
    FirstReplaysOn(cfg, run, n);
    assert run.trace[n..] == [] && run.trace[..n] == run.trace;
    FirstMoves(cfg, run, FirstReplaying(run, n), FirstEnded(run, Closing(ByReplay)));
    var none: map<Id, nat> := map[];
    assert none - {"x"} == none;
    FirstMoves(cfg, run, FirstEnded(run, Closing(ByReplay)), FirstEnded(run, Done(ByReplay)));
  }

  /** What the two readers have sent. */
  ghost predicate SplitUnfairly(st: State, run: RunResult) {
    && run.Finished? && run.trace != []
    && EarlyAndDone(st, 0, run) && EarlyAndDone(st, 1, run)
    && st.clients[0].sent == Events(run.trace[..1]) + Events(run.trace) + [Sentinel]
    && st.clients[1].sent == Events(run.trace[1..]) + [Sentinel]
  }

  /** Sharing a queue hurts every run with steps, even when a timeout and the look at the store are one step and
      nobody leaves: of two readers that subscribed in time one can send the first step twice, and the other miss it. */
  lemma SharingSplits(cfg: Config, run: RunResult)
    requires cfg.legal(run) && run.Finished? && run.trace != []
    ensures Initial(PAIR)
    ensures exists actions ::
      NobodyLeaves(actions) && Runs(cfg, PAIR, actions) && SplitUnfairly(Reach(cfg, PAIR, actions), run)
  {
    FirstCloses(cfg, run);
    var st := SecondDone(run, FirstEnded(run, Done(ByReplay)));
    SplitInTheEnd(run);
    var actions :| NobodyLeaves(actions) && Runs(cfg, PAIR, actions) && Reach(cfg, PAIR, actions) == st;
  }

  lemma SplitInTheEnd(run: RunResult)
    requires run.Finished? && run.trace != []
    ensures SplitUnfairly(SecondDone(run, FirstEnded(run, Done(ByReplay))), run)
  {
  }

  // ----- Where sharing does no harm ---------------------------------------------------------------

  /** What a reader has sent live. */
  ghost function SentLive(client: Client): seq<Event> {
    match client.at
    case Replaying(_) => client.before
    case Closing(ByReplay) => client.before
    case Done(ByReplay) => client.before
    case Closing(ByError) => []
    case Done(ByError) => []
    case Closing(Dropped) => []
    case Done(Dropped) => []
    case _ => client.sent
  }

  ghost predicate AllIn(events: seq<Event>, told: seq<Event>) {
    forall i :: 0 <= i < |events| ==> events[i] in told
  }

  /** What waits in a queue has been published for its claim. */
  ghost predicate QueuesHeard(bus: Bus, h: History) {
    |bus.pool| == |bus.owner| && forall q :: 0 <= q < |bus.pool| ==> AllIn(bus.pool[q], Published(h, bus.owner[q]))
  }

  ghost predicate ReadersHeard(clients: map<nat, Client>, h: History) {
    forall c :: c in clients ==> AllIn(SentLive(clients[c]), Published(h, clients[c].claim))
  }

  /** Whatever waits or is sent live has been published for the claim. */
  ghost predicate AllHeard(st: State) {
    QueuesHeard(st.bus, st.history) && ReadersHeard(st.clients, st.history)
  }

  lemma AllInMore(events: seq<Event>, told: seq<Event>, e: Event)
    requires AllIn(events, told)
    ensures AllIn(events, told + [e]) && AllIn(events + [e], told + [e])
  {
    assert (told + [e])[|told|] == e;
    forall i | 0 <= i < |events| ensures events[i] in told + [e] {
      assert events[i] in told;
    }
  }

  lemma PublishKeepsHeard(bus: Bus, h: History, id: Id, e: Event)
    requires QueuesHeard(bus, h)
    requires id in bus.current ==> bus.current[id] < |bus.pool| && bus.owner[bus.current[id]] == id
    ensures QueuesHeard(Publish(bus, id, e), Note(h, id, e))
  {
    var bus' := Publish(bus, id, e);
    forall q | 0 <= q < |bus'.pool| ensures AllIn(bus'.pool[q], Published(Note(h, id, e), bus'.owner[q])) {
      AllInMore(bus.pool[q], Published(h, bus.owner[q]), e);
    }
  }

  lemma NoteKeepsHeard(clients: map<nat, Client>, h: History, id: Id, e: Event)
    requires ReadersHeard(clients, h)
    ensures ReadersHeard(clients, Note(h, id, e))
  {
    forall c | c in clients ensures AllIn(SentLive(clients[c]), Published(Note(h, id, e), clients[c].claim)) {
      AllInMore(SentLive(clients[c]), Published(h, clients[c].claim), e);
    }
  }

  lemma ToldKeepsHeard(st: State, st': State, id: Id, e: Event)
    requires BusOk(st) && AllHeard(st)
    requires st'.clients == st.clients && st'.bus == Publish(st.bus, id, e) && st'.history == Note(st.history, id, e)
    ensures AllHeard(st')
  {
    PublishKeepsHeard(st.bus, st.history, id, e);
    NoteKeepsHeard(st.clients, st.history, id, e);
  }

  lemma WorkKeepsHeard(st: State, run: RunResult, raise: bool)
    requires BusOk(st) && AllHeard(st)
    ensures AllHeard(WorkerStep(st, run, raise))
  {
    var st' := WorkerStep(st, run, raise);
    WorkTells(st, run, raise);
    match Telling(st)
    case Some((id, e)) => ToldKeepsHeard(st, st', id, e);
    case None => SamePublished(st.bus, st.clients, st.history, st'.history);
  }

  lemma SamePublished(bus: Bus, clients: map<nat, Client>, h: History, h': History)
    requires QueuesHeard(bus, h) && ReadersHeard(clients, h) && h'.published == h.published
    ensures QueuesHeard(bus, h') && ReadersHeard(clients, h')
  {
    assert forall id :: Published(h', id) == Published(h, id);
  }

  /** What a move leaves in the queues and has the reader send live has been published. */
  ghost predicate MoveHeard(st: State, m: Move) {
    QueuesHeard(m.bus, st.history) && AllIn(SentLive(m.client), Published(st.history, m.client.claim))
  }

  lemma WaitHeard(atomic: bool, st: State, client: Client, q: nat)
    requires QueuesHeard(st.bus, st.history) && AllIn(client.sent, Published(st.history, client.claim))
    requires client.at == Live(q) && q < |st.bus.pool| && st.bus.owner[q] == client.claim
    ensures MoveHeard(st, Wait(atomic, st, client, q))
  {
    var events := st.bus.pool[q];
    if events != [] {
      assert events[0] in Published(st.history, client.claim);
      forall i | 0 <= i < |events[1..]| ensures events[1..][i] in Published(st.history, client.claim) {
        assert events[1..][i] == events[i + 1];
      }
    }
  }

  lemma SubscribeHeard(st: State, client: Client)
    requires QueuesHeard(st.bus, st.history) && AllIn(client.sent, Published(st.history, client.claim))
    ensures MoveHeard(st, Subscribe(st, client))
  {
  }

  lemma MoveIsHeard(atomic: bool, st: State, client: Client)
    requires QueuesHeard(st.bus, st.history) && AllIn(SentLive(client), Published(st.history, client.claim))
    requires HoldsOwn(st.bus, client) && Readable(st, client)
    ensures MoveHeard(st, ReaderStep(atomic, st, client))
  {
    match client.at
    case Start => SubscribeHeard(st, client);
    case Live(q) => WaitHeard(atomic, st, client, q);
    case _ =>
  }

  lemma ReadKeepsHeard(cfg: Config, st: State, c: nat)
    requires BusOk(st) && AllHeard(st) && Enabled(cfg, st, Read(c))
    ensures AllHeard(Act(cfg, st, Read(c)))
  {
    assert HoldsOwn(st.bus, st.clients[c]);
    assert AllIn(SentLive(st.clients[c]), Published(st.history, st.clients[c].claim));
    MoveIsHeard(cfg.atomic, st, st.clients[c]);
  }

  lemma ActKeepsHeard(cfg: Config, st: State, a: Action)
    requires BusOk(st) && AllHeard(st) && Enabled(cfg, st, a)
    ensures AllHeard(Act(cfg, st, a))
  {
    match a
    case Work(run, raise) => WorkKeepsHeard(st, run, raise);
    case Read(c) => ReadKeepsHeard(cfg, st, c);
    case Leave(c) => assert AllIn(SentLive(st.clients[c]), Published(st.history, st.clients[c].claim));
    case _ =>
  }

  lemma {:induction false} RunKeepsHeard(cfg: Config, st: State, actions: seq<Action>)
    requires BusOk(st) && AllHeard(st) && Runs(cfg, st, actions)
    ensures AllHeard(Reach(cfg, st, actions))
    decreases |actions|
  {
    if actions != [] {
      ActKeepsBus(cfg, st, actions[0]);
      ActKeepsHeard(cfg, st, actions[0]);
      RunKeepsHeard(cfg, Act(cfg, st, actions[0]), actions[1..]);
    }
  }

  /** Of a run without steps nothing but the sentinel is published. */
  lemma OnlySentinelTold(cfg: Config, st: State, id: Id)
    requires Inv(cfg, st) && id in st.history.runs && id !in st.history.raised && StepsOf(st.history.runs[id]) == []
    ensures forall e :: e in Published(st.history, id) ==> e == Sentinel
  {
    assert Placed(st, id);
  }

  lemma OnlySentinelSent(took: seq<Event>)
    requires forall i :: 0 <= i < |took| ==> took[i] == Sentinel
    ensures EndsAtSentinel(took) ==> took == [Sentinel]
    ensures Sentinel !in took ==> took == []
  {
    assert |took| > 1 ==> took[..|took| - 1][0] == took[0];
    assert took != [] ==> took[0] in took;
  }

  lemma StepsAreNeeded(cfg: Config, init: State, actions: seq<Action>, c: nat, run: RunResult)
    requires Initial(init) && Runs(cfg, init, actions) && StepsOf(run) == []
    requires EarlyAndDone(Reach(cfg, init, actions), c, run)
    ensures Reach(cfg, init, actions).clients[c].sent == [Sentinel]
  {
    var last := Reach(cfg, init, actions);
    var client := last.clients[c];
    ClientsStay(cfg, init, actions);
    InitialInv(cfg, init);
    RunKeeps(cfg, init, actions);
    RunKeepsHeard(cfg, init, actions);
    OnlySentinelTold(cfg, last, client.claim);
    var q := SentIsTaken(cfg, init, actions, c);
    assert AllIn(SentLive(client), Published(last.history, client.claim));
    OnlySentinelSent(SentLive(client));
    if client.at == Done(ByReplay) { OverStored(cfg, last, client.claim); }
  }

  lemma {:induction false} ClientsStay(cfg: Config, st: State, actions: seq<Action>)
    requires Runs(cfg, st, actions)
    ensures Reach(cfg, st, actions).clients.Keys == st.clients.Keys
    decreases |actions|
  {
    if actions != [] {
      ReadersStay(cfg, st, actions[0]);
      ClientsStay(cfg, Act(cfg, st, actions[0]), actions[1..]);
    }
  }

  /** In some interleaving in which nobody leaves, a reader that subscribed in time does not send exactly the run's
      trace, however many readers there are. */
  ghost predicate CanShareBadly(cfg: Config, run: RunResult) {
    exists init, actions, c ::
      Initial(init) && NobodyLeaves(actions) && Runs(cfg, init, actions) && GoesWrong(Reach(cfg, init, actions), c, run)
  }

  /** With readers that share a queue, things can go wrong for exactly the runs with steps, torn timeouts or not. */
  lemma SharingExactly(cfg: Config, run: RunResult)
    requires cfg.legal(run) && !run.Fails?
    ensures CanShareBadly(cfg, run) <==> StepsOf(run) != []
  {
    if StepsOf(run) != [] {
      SharingSplits(cfg, run);
      var actions :| NobodyLeaves(actions) && Runs(cfg, PAIR, actions) && SplitUnfairly(Reach(cfg, PAIR, actions), run);
      assert GoesWrong(Reach(cfg, PAIR, actions), 1, run);
    } else {
      forall init, actions, c | Initial(init) && NobodyLeaves(actions) && Runs(cfg, init, actions)
        ensures !GoesWrong(Reach(cfg, init, actions), c, run)
      {
        if EarlyAndDone(Reach(cfg, init, actions), c, run) {
          StepsAreNeeded(cfg, init, actions, c, run);
          assert Events(StepsOf(run)) + [Sentinel] == [Sentinel];
        }
      }
    }
  }
}
