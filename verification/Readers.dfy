// What opening and leaving streams does to the event bus, and who is told that a claim does not exist
// (api/routes/claims.py:164-214, api/worker.py:173-186), in every interleaving.

module Readers {
  import opened Prelude
  import C = CostMeter
  import opened Lifecycle
  import opened LifecycleTheorems

  // ----- No queue outlives its readers ---------------------------------------------------------

  /** The stream has been opened and not closed yet. */
  predicate Open(client: Client) {
    !client.at.Start? && !client.at.Done?
  }

  ghost predicate SomebodyReads(st: State, id: Id) {
    exists c :: c in st.clients && st.clients[c].claim == id && Open(st.clients[c])
  }

  ghost predicate NoLeak(st: State) {
    forall id :: id in st.bus.current ==> SomebodyReads(st, id)
  }

  /** Whatever a reader does, it stays open or takes its claim's queue out of the bus, and makes no queue current but
      its own claim's while it is open. */
  ghost predicate TidiesUp(st: State, client: Client, m: Move) {
    && m.client.claim == client.claim
    && (forall id :: id in m.bus.current ==> id in st.bus.current || id == client.claim)
    && (client.claim in m.bus.current && (Open(client) || client.claim !in st.bus.current) ==> Open(m.client))
    && (!Open(client) && !Open(m.client) ==> m.bus == st.bus)
  }

  lemma ReaderTidiesUp(atomic: bool, st: State, client: Client)
    requires Readable(st, client)
    ensures TidiesUp(st, client, ReaderStep(atomic, st, client))
  {
  }

  lemma DropTidiesUp(st: State, client: Client)
    ensures TidiesUp(st, client, Drop(st, client))
  {
  }

  lemma MoveLeaksNot(st: State, c: nat, m: Move)
    requires NoLeak(st) && c in st.clients && TidiesUp(st, st.clients[c], m)
    ensures NoLeak(Moved(st, c, m))
  {
    var st', client := Moved(st, c, m), st.clients[c];
    forall id | id in st'.bus.current ensures SomebodyReads(st', id) {
      if id == client.claim && Open(m.client) {
        assert st'.clients[c] == m.client;
      } else {
        assert id in st.bus.current;
        var d :| d in st.clients && st.clients[d].claim == id && Open(st.clients[d]);
        assert d != c ==> st'.clients[d] == st.clients[d];
      }
    }
  }

  lemma WorkLeaksNot(st: State, run: RunResult, raise: bool)
    requires NoLeak(st)
    ensures NoLeak(WorkerStep(st, run, raise))
  {
    var st' := WorkerStep(st, run, raise);
    assert st'.clients == st.clients && st'.bus.current == st.bus.current;
    forall id | id in st'.bus.current ensures SomebodyReads(st', id) {
      assert SomebodyReads(st, id);
    }
  }

  lemma ActLeaksNot(cfg: Config, st: State, a: Action)
    requires NoLeak(st) && Enabled(cfg, st, a)
    ensures NoLeak(Act(cfg, st, a))
  {
    match a
    case Work(run, raise) => WorkLeaksNot(st, run, raise);
    case Read(c) =>
      ReaderTidiesUp(cfg.atomic, st, st.clients[c]);
      MoveLeaksNot(st, c, ReaderStep(cfg.atomic, st, st.clients[c]));
    case Leave(c) =>
      DropTidiesUp(st, st.clients[c]);
      MoveLeaksNot(st, c, Drop(st, st.clients[c]));
    case _ =>
      var st' := Act(cfg, st, a);
      forall id | id in st'.bus.current ensures SomebodyReads(st', id) {
        assert SomebodyReads(st, id);
      }
  }

  lemma {:induction false} RunLeaksNot(cfg: Config, st: State, actions: seq<Action>)
    requires NoLeak(st) && Runs(cfg, st, actions)
    ensures NoLeak(Reach(cfg, st, actions))
    decreases |actions|
  {
    if actions != [] {
      ActLeaksNot(cfg, st, actions[0]);
      RunLeaksNot(cfg, Act(cfg, st, actions[0]), actions[1..]);
    }
  }

  /** In every run, a claim has a current queue only while somebody reads its stream: whichever way readers end, by a
      sentinel, a replay, an error or a lost connection, the last one takes the queue with it. */
  lemma NoQueueLeaks(cfg: Config, init: State, actions: seq<Action>)
    requires Initial(init) && Runs(cfg, init, actions)
    ensures
      var st := Reach(cfg, init, actions);
      forall id :: id in st.bus.current ==>
        exists c :: c in st.clients && st.clients[c].claim == id && !st.clients[c].at.Start? && !st.clients[c].at.Done?
  {
    RunLeaksNot(cfg, init, actions);
    var st := Reach(cfg, init, actions);
    forall id | id in st.bus.current
      ensures exists c ::
        c in st.clients && st.clients[c].claim == id && !st.clients[c].at.Start? && !st.clients[c].at.Done?
    {
      assert SomebodyReads(st, id);
    }
  }

  // ----- Who is told that a claim does not exist -------------------------------------------------

  /** A reader told that its claim does not exist has been told nothing else, and one that waits for its claim, replays
      it or has seen it through has not been told that: the claim is stored. */
  ghost predicate ToldRight(st: State, client: Client) {
    match client.at
    case Start => client.sent == []
    case Subscribed(_) => client.sent == []
    case Live(_) => client.claim in st.store && NotFound !in client.sent
    case TimedOut(_) => client.claim in st.store && NotFound !in client.sent
    case Replaying(_) => client.claim in st.store && NotFound !in client.sent
    case Closing(how) => ToldAtEnd(st, client, how)
    case Done(how) => ToldAtEnd(st, client, how)
  }

  ghost predicate ToldAtEnd(st: State, client: Client, how: Ending) {
    match how
    case ByError => client.sent == [NotFound]
    case Dropped => client.sent == [NotFound] || NotFound !in client.sent
    case _ => client.claim in st.store && NotFound !in client.sent
  }

  /** No queue carries the answer to an unknown claim. */
  ghost predicate NotInQueues(bus: Bus) {
    forall q :: 0 <= q < |bus.pool| ==> NotFound !in bus.pool[q]
  }

  ghost predicate AllToldRight(st: State) {
    NotInQueues(st.bus) && forall c :: c in st.clients ==> ToldRight(st, st.clients[c])
  }

  lemma ReaderToldRight(atomic: bool, st: State, client: Client)
    requires NotInQueues(st.bus) && ToldRight(st, client) && Readable(st, client)
    ensures NotInQueues(ReaderStep(atomic, st, client).bus) && ToldRight(st, ReaderStep(atomic, st, client).client)
  {
    if client.at.Live? { assert NotFound !in st.bus.pool[client.at.queue]; }
  }

  lemma DropToldRight(st: State, client: Client)
    requires NotInQueues(st.bus) && ToldRight(st, client)
    ensures NotInQueues(Drop(st, client).bus) && ToldRight(st, Drop(st, client).client)
  {
  }

  lemma WorkSaysNothing(st: State, run: RunResult, raise: bool)
    requires NotInQueues(st.bus)
    ensures NotInQueues(WorkerStep(st, run, raise).bus)
    ensures WorkerStep(st, run, raise).clients == st.clients
  {
    assert WorkerStep(st, run, raise).bus == st.bus
        || exists id, e :: e != NotFound && WorkerStep(st, run, raise).bus == Publish(st.bus, id, e);
  }

  lemma StoreGrows(cfg: Config, st: State, a: Action)
    requires Enabled(cfg, st, a)
    ensures st.store.Keys <= Act(cfg, st, a).store.Keys
  {
  }

  lemma StaysToldRight(st: State, st': State, client: Client)
    requires ToldRight(st, client) && st.store.Keys <= st'.store.Keys
    ensures ToldRight(st', client)
  {
    assert client.claim in st.store.Keys ==> client.claim in st'.store.Keys;
  }

  lemma ActToldRight(cfg: Config, st: State, a: Action)
    requires AllToldRight(st) && Enabled(cfg, st, a)
    ensures AllToldRight(Act(cfg, st, a))
  {
    var st' := Act(cfg, st, a);
    StoreGrows(cfg, st, a);
    match a {
      case Work(run, raise) => WorkSaysNothing(st, run, raise);
      case Read(c) => ReaderToldRight(cfg.atomic, st, st.clients[c]);
      case Leave(c) => DropToldRight(st, st.clients[c]);
      case _ =>
    }
    forall c | c in st'.clients ensures ToldRight(st', st'.clients[c]) {
      if c in st.clients && st'.clients[c] == st.clients[c] { StaysToldRight(st, st', st.clients[c]); }
    }
  }

  lemma {:induction false} RunToldRight(cfg: Config, st: State, actions: seq<Action>)
    requires AllToldRight(st) && Runs(cfg, st, actions)
    ensures AllToldRight(Reach(cfg, st, actions))
    decreases |actions|
  {
    if actions != [] {
      ActToldRight(cfg, st, actions[0]);
      RunToldRight(cfg, Act(cfg, st, actions[0]), actions[1..]);
    }
  }

  /** In every run: a reader is told that a claim does not exist as the first and only thing, and a stream that waits,
      replays or ends by a sentinel or a replay is one of a stored claim. */
  lemma NotFoundAlone(cfg: Config, init: State, actions: seq<Action>, c: nat)
    requires Initial(init) && Runs(cfg, init, actions) && c in Reach(cfg, init, actions).clients
    ensures
      var st, client := Reach(cfg, init, actions), Reach(cfg, init, actions).clients[c];
      && (NotFound in client.sent ==> client.sent == [NotFound])
      && (client.at == Done(ByError) ==> client.sent == [NotFound])
      && (client.at.Live? || client.at.TimedOut? || client.at.Replaying? ==> client.claim in st.store)
      && (client.at == Done(BySentinel) || client.at == Done(ByReplay) ==> client.claim in st.store)
  {
    RunToldRight(cfg, init, actions);
    assert ToldRight(Reach(cfg, init, actions), Reach(cfg, init, actions).clients[c]);
  }
}
