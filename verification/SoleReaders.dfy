// What the only reader of a claim receives when running the claim raises: the steps and a sentinel, or a replay
// of a record that has none (api/worker.py:213-230, api/routes/claims.py:164-214).

module SoleReaders {
  import opened Prelude
  import C = CostMeter
  import opened Lifecycle
  import opened LifecycleTheorems
  import opened Streams
  import opened ExactlyOnce
  import opened SharedQueues

  /** The events are among those told since the reader subscribed, from the first one on. */
  ghost predicate CutFrom(told: seq<Event>, missed: nat, part: seq<Event>) {
    missed <= |told| && part <= told[missed..]
  }

  /** What the only reader of a claim relies on, whether the run raises or not. */
  ghost predicate TouchOk(st: State, client: Client) {
    match client.at
    case Start => client.sent == [] && client.claim !in st.bus.current
    case Subscribed(q) => InTouch(st, client, q) && client.sent == []
    case Live(q) => InTouch(st, client, q)
    case TimedOut(q) => InTouch(st, client, q)
    case _ => CutFrom(Published(st.history, client.claim), client.missed, SentLive(client))
  }

  lemma CutMore(told: seq<Event>, missed: nat, part: seq<Event>, e: Event)
    requires CutFrom(told, missed, part)
    ensures CutFrom(told + [e], missed, part)
  {
    assert (told + [e])[missed..] == told[missed..] + [e];
  }

  // ----- The other actors -----------------------------------------------------------------------

  lemma OwnWorkKeepsTouch(st: State, run: RunResult, raise: bool, client: Client, q: nat)
    requires InTouch(st, client, q) && !st.worker.Idle? && st.worker.id == client.claim
    ensures InTouch(WorkerStep(st, run, raise), client, q)
  {
    var st' := WorkerStep(st, run, raise);
    WorkTells(st, run, raise);
    match Telling(st)
    case Some((id, e)) =>
      TellKeepsTouch(st, e, st'.worker, client, q);
      assert InTouch(Tell(st, client.claim, e, st'.worker), client, q);
    case None =>
      assert Published(st'.history, client.claim) == Published(st.history, client.claim);
  }

  lemma WorkKeepsCut(st: State, run: RunResult, raise: bool, id: Id, missed: nat, part: seq<Event>)
    requires CutFrom(Published(st.history, id), missed, part)
    ensures CutFrom(Published(WorkerStep(st, run, raise).history, id), missed, part)
  {
    WorkTells(st, run, raise);
    match Telling(st)
    case Some((told, e)) => if told == id { CutMore(Published(st.history, id), missed, part, e); }
    case None =>
  }

  lemma WorkKeepsSole(cfg: Config, st: State, run: RunResult, raise: bool, client: Client)
    requires Inv(cfg, st) && BusOk(st) && TouchOk(st, client)
    ensures TouchOk(WorkerStep(st, run, raise), client)
  {
    if Holds(client) {
      if st.worker.Idle? || st.worker.id != client.claim {
        OthersWorkKeepsTouch(cfg, st, run, raise, client, client.at.queue);
      } else {
        OwnWorkKeepsTouch(st, run, raise, client, client.at.queue);
      }
    } else if client.at.Start? {
      BusKeepsCurrent(st, run, raise);
    } else {
      WorkKeepsCut(st, run, raise, client.claim, client.missed, SentLive(client));
    }
  }

  lemma OthersKeepSole(cfg: Config, st: State, a: Action, client: Client)
    requires BusOk(st) && TouchOk(st, client) && HoldsOwn(st.bus, client)
    requires Enabled(cfg, st, a) && !a.Work? && (a.Read? || a.Leave? ==> st.clients[a.client].claim != client.claim)
    ensures TouchOk(Act(cfg, st, a), client)
  {
    if Holds(client) {
      OthersKeepQueue(cfg, st, a, client.claim, client.at.queue);
    }
    OthersKeepHistory(cfg, st, a, client.claim);
  }

  // ----- The reader's own steps --------------------------------------------------------------

  lemma WaitKeepsSole(atomic: bool, st: State, c: nat, client: Client, q: nat)
    requires client.at == Live(q) && InTouch(st, client, q)
    ensures
      var m := Wait(atomic, st, client, q);
      TouchOk(Moved(st, c, m), m.client)
  {
    var events := st.bus.pool[q];
    if events != [] {
      HeadTaken(client.sent, events);
      assert client.sent + [events[0]] <= client.sent + events;
    } else {
      assert client.sent + [] == client.sent;
    }
  }

  lemma ReadKeepsSole(cfg: Config, st: State, c: nat, client: Client)
    requires BusOk(st) && TouchOk(st, client) && Readable(st, client)
    ensures
      var m := ReaderStep(cfg.atomic, st, client);
      TouchOk(Moved(st, c, m), m.client)
  {
    var told := Published(st.history, client.claim);
    match client.at
    case Start => assert told[|told|..] == [];
    case Subscribed(q) => assert [] <= told[client.missed..];
    case Live(q) => WaitKeepsSole(cfg.atomic, st, c, client, q);
    case TimedOut(q) => assert client.sent <= told[client.missed..];
    case _ =>
  }

  lemma ActKeepsTouch(cfg: Config, st: State, a: Action, c: nat)
    requires Inv(cfg, st) && BusOk(st) && Sole(st.clients, c) && Enabled(cfg, st, a) && TouchOk(st, st.clients[c])
    ensures c in Act(cfg, st, a).clients && TouchOk(Act(cfg, st, a), Act(cfg, st, a).clients[c])
  {
    MovesTheirOwn(cfg, st, a, c);
    assert HoldsOwn(st.bus, st.clients[c]);
    if a == Read(c) {
      ReadKeepsSole(cfg, st, c, st.clients[c]);
    } else if a == Leave(c) {
      LeaveKeepsSole(st, c, st.clients[c]);
    } else if a.Work? {
      WorkKeepsSole(cfg, st, a.run, a.raise, st.clients[c]);
    } else {
      OthersKeepSole(cfg, st, a, st.clients[c]);
    }
  }

  lemma LeaveKeepsSole(st: State, c: nat, client: Client)
    requires TouchOk(st, client)
    ensures
      var m := Drop(st, client);
      TouchOk(Moved(st, c, m), m.client)
  {
  }

  lemma {:induction false} RunKeepsTouch(cfg: Config, st: State, actions: seq<Action>, c: nat)
    requires Inv(cfg, st) && BusOk(st) && Sole(st.clients, c) && Runs(cfg, st, actions) && TouchOk(st, st.clients[c])
    ensures c in Reach(cfg, st, actions).clients
    ensures TouchOk(Reach(cfg, st, actions), Reach(cfg, st, actions).clients[c])
    decreases |actions|
  {
    if actions != [] {
      var a := actions[0];
      ActKeeps(cfg, st, a);
      ActKeepsBus(cfg, st, a);
      ActKeepsSole(cfg, st, a, c);
      ActKeepsTouch(cfg, st, a, c);
      RunKeepsTouch(cfg, Act(cfg, st, a), actions[1..], c);
    }
  }

  // ----- Runs that raise -----------------------------------------------------------------------

  /** Of a run that raised, its steps are told, and then at most two sentinels; and its record has no trace. */
  lemma RaisedTold(cfg: Config, st: State, id: Id)
    requires Inv(cfg, st) && id in st.history.raised
    ensures id in st.history.runs
    ensures Published(st.history, id) <= Events(StepsOf(st.history.runs[id])) + [Sentinel, Sentinel]
    ensures Over(st, id) ==> st.store[id].trace == []
  {
    assert Placed(st, id);
    var steps := Events(StepsOf(st.history.runs[id]));
    assert steps + [Sentinel] + [Sentinel] == steps + [Sentinel, Sentinel];
    assert steps + [] + [Sentinel] == steps + [Sentinel];
    assert steps + [] == steps;
  }

  lemma CutAtSentinel(trace: seq<C.StepTrace>, missed: nat, sent: seq<Event>)
    requires CutFrom(Events(trace) + [Sentinel, Sentinel], missed, sent) && EndsAtSentinel(sent)
    ensures missed <= |trace| + 1
    ensures sent == (if missed <= |trace| then Events(trace[missed..]) else []) + [Sentinel]
    ensures sent == Events(trace) + [Sentinel] <==> missed == 0 || trace == []
  {
    var told, n := Events(trace) + [Sentinel, Sentinel], |sent| - 1;
    assert forall i :: 0 <= i <= n ==> sent[i] == told[missed..][i] == told[missed + i];
    assert told[missed + n] == Sentinel;
    SentinelOnlyLast(sent, if missed <= |trace| then |trace| - missed else 0);
  }

  lemma SentinelOnlyLast(sent: seq<Event>, i: nat)
    requires EndsAtSentinel(sent) && i < |sent| && sent[i] == Sentinel
    ensures i == |sent| - 1
  {
    var front := sent[..|sent| - 1];
    assert forall j :: 0 <= j < |front| ==> front[j] == sent[j] && front[j] != Sentinel;
  }

  lemma CutBeforeSentinel(trace: seq<C.StepTrace>, missed: nat, before: seq<Event>)
    requires CutFrom(Events(trace) + [Sentinel, Sentinel], missed, before) && Sentinel !in before
    ensures before == [] || (missed <= |trace| && before <= Events(trace[missed..]))
  {
    if before != [] {
      StepInTrace(trace, missed, before, |before| - 1);
      var rest := Events(trace[missed..]);
      forall i | 0 <= i < |before| ensures before[i] == rest[i] {
        StepInTrace(trace, missed, before, i);
      }
    }
  }

  lemma StepInTrace(trace: seq<C.StepTrace>, missed: nat, before: seq<Event>, i: nat)
    requires CutFrom(Events(trace) + [Sentinel, Sentinel], missed, before) && Sentinel !in before && i < |before|
    ensures missed + i < |trace| && before[i] == Step(trace[missed + i])
  {
    var told := Events(trace) + [Sentinel, Sentinel];
    assert before[i] == told[missed..][i] == told[missed + i];
    assert before[i] in before;
  }

  /** What a reader that ends with `done` has sent of a run with these steps that raised. */
  ghost predicate SentOfRaised(client: Client, trace: seq<C.StepTrace>) {
    && (client.at == Done(BySentinel) ==>
          && client.sent == (if client.missed <= |trace| then Events(trace[client.missed..]) else []) + [Sentinel]
          && (client.sent == Events(trace) + [Sentinel] <==> client.missed == 0 || trace == []))
    && (client.at == Done(ByReplay) ==>
          && client.sent == client.before + [Sentinel]
          && (client.before == [] || (client.missed <= |trace| && client.before <= Events(trace[client.missed..]))))
  }

  lemma RaisedEnding(client: Client, trace: seq<C.StepTrace>, told: seq<Event>)
    requires told <= Events(trace) + [Sentinel, Sentinel] && CutFrom(told, client.missed, SentLive(client))
    requires
      || (client.at == Done(BySentinel) && EndsAtSentinel(client.sent))
      || (client.at == Done(ByReplay) && Sentinel !in client.before && client.sent == client.before + [Sentinel])
    ensures SentOfRaised(client, trace)
  {
    CutLonger(told, Events(trace) + [Sentinel, Sentinel], client.missed, SentLive(client));
    if client.at == Done(BySentinel) {
      CutAtSentinel(trace, client.missed, client.sent);
    } else {
      CutBeforeSentinel(trace, client.missed, client.before);
    }
  }

  lemma CutLonger(told: seq<Event>, all: seq<Event>, missed: nat, part: seq<Event>)
    requires CutFrom(told, missed, part) && told <= all
    ensures CutFrom(all, missed, part)
  {
    assert told[missed..] <= all[missed..];
  }

  ghost predicate EndsOfRaised(st: State, client: Client) {
    && client.claim in st.history.runs
    && SentOfRaised(client, StepsOf(st.history.runs[client.claim]))
    && (client.at == Done(ByReplay) ==> client.claim in st.store && st.store[client.claim].trace == [])
  }

  lemma RaisedEnds(cfg: Config, st: State, client: Client, took: seq<Event>)
    requires Inv(cfg, st) && client.claim in st.history.raised && TouchOk(st, client) && SentFrom(client, took)
    requires client.at == Done(BySentinel) || client.at == Done(ByReplay)
    requires client.at == Done(ByReplay) ==>
      Over(st, client.claim) && client.sent == client.before + Events(st.store[client.claim].trace) + [Sentinel]
    ensures EndsOfRaised(st, client)
  {
    RaisedTold(cfg, st, client.claim);
    assert client.before + Events([]) == client.before;
    RaisedEnding(client, StepsOf(st.history.runs[client.claim]), Published(st.history, client.claim));
  }

  /** The only reader of a claim whose run raised, when it ends with `done`. Ended by the sentinel, it has sent the
      steps from the first one published after it subscribed and one `done` (only `done` if it subscribed between two
      sentinels): the whole trace exactly when it missed nothing. Ended by replay, it has sent some of those steps
      and `done`, because the record of such a run has no trace. */
  lemma SingleReaderOfRaised(cfg: Config, init: State, actions: seq<Action>, c: nat)
    requires Initial(init) && Sole(init.clients, c) && Runs(cfg, init, actions)
    requires
      var last := Reach(cfg, init, actions);
      && c in last.clients && last.clients[c].claim in last.history.raised
      && (last.clients[c].at == Done(BySentinel) || last.clients[c].at == Done(ByReplay))
    ensures EndsOfRaised(Reach(cfg, init, actions), Reach(cfg, init, actions).clients[c])
  {
    var last := Reach(cfg, init, actions);
    InitialInv(cfg, init);
    RunKeeps(cfg, init, actions);
    RunKeepsTouch(cfg, init, actions, c);
    var q := SentIsTaken(cfg, init, actions, c);
    if last.clients[c].at == Done(ByReplay) { ReplaysAreComplete(cfg, init, actions, c); }
    RaisedEnds(cfg, last, last.clients[c], TakenBy(TakenFrom(cfg, init, actions, q), c));
  }
}
