// The stream generator on the heap (api/routes/claims.py:164-214): one resumption at a time, each proved to
// be the protocol's reader step.

module Sse {
  import opened Prelude
  import C = CostMeter
  import opened Lifecycle
  import opened Infra
  import opened ApiWorker

  /** Where the generator is suspended. */
  datatype Phase =
    | Fresh
    | Looking
    | Waiting
    | TimeoutSeen
    | Yielding(rest: seq<C.StepTrace>)
    | Finishing(end: Ending)
    | Ended(end: Ending)

  predicate Matches(phase: Phase, at: Reader) {
    match at
    case Start => phase == Fresh
    case Subscribed(_) => phase == Looking
    case Live(_) => phase == Waiting
    case TimedOut(_) => phase == TimeoutSeen
    case Replaying(rest) => phase == Yielding(rest)
    case Closing(how) => phase == Finishing(how)
    case Done(how) => phase == Ended(how)
  }

  class SseStream {
    const claim: Id
    var phase: Phase
    var q: Option<EventQueue>
    var sent: seq<Event>
    /** The reader as the protocol sees it. */
    ghost var client: Client

    ghost predicate Valid(bus: EventBus)
      reads this, bus
    {
      && client.claim == claim && client.sent == sent && Matches(phase, client.at)
      && (Holds(client) ==> q.Some? && client.at.queue < |bus.made| && bus.made[client.at.queue] == q.value)
    }

    constructor (claim: Id)
      ensures this.claim == claim && client == Client(claim, Start, [], 0, []) && phase == Fresh && sent == []
      ensures forall bus: EventBus :: Valid(bus)
    {
      this.claim := claim;
      phase, q, sent := Fresh, None, [];
      client := Client(claim, Start, [], 0, []);
    }

    /** `_sse_generator` up to its first look at the store. */
    method Begin(bus: EventBus, ghost st: State)
      requires bus.Valid() && Valid(bus) && phase == Fresh && st.bus == bus.abs
      modifies this, bus
      ensures bus.Valid() && Valid(bus) && Move(bus.abs, client) == Lifecycle.Subscribe(st, old(client))
    {
      var queue := bus.Subscribe(claim);
      q := Some(queue);
      phase := Looking;
      client := Lifecycle.Subscribe(st, client).client;
    }

    /** The first look: not found, a replay, or the wait for live events. */
    method Look(store: ClaimStore, bus: EventBus, ghost st: State)
      requires store.Valid() && bus.Valid() && Valid(bus) && phase == Looking && st.bus == bus.abs
      requires st.store == store.records
      modifies this, bus
      ensures bus.Valid() && Valid(bus) && Move(bus.abs, client) == FirstLoad(st, old(client), old(client.at.queue))
      ensures claim !in store.records ==> sent == old(sent) + [Event.NotFound] && bus.abs == old(bus.abs)
      ensures claim in store.records && store.records[claim].status in {Completed, Escalated, Status.Error} ==>
        && phase == Yielding(store.records[claim].trace) && sent == old(sent)
        && bus.abs == old(bus.abs).(current := old(bus.abs).current - {claim})
      ensures claim in store.records && store.records[claim].status in {Pending, Processing} ==>
        phase == Waiting && sent == old(sent) && bus.abs == old(bus.abs)
    {
      var record := store.Load(claim);
      client := FirstLoad(st, client, client.at.queue).client;
      if record.None? {
        sent := sent + [Event.NotFound];
        phase := Finishing(ByError);
      } else if Terminal(record.value) {
        bus.Unsubscribe(claim);
        phase := Yielding(record.value.trace);
      } else {
        phase := Waiting;
      }
    }

    /** The look at the store after a timeout. */
    method LookAgain(store: ClaimStore, bus: EventBus, ghost st: State)
      requires store.Valid() && bus.Valid() && Valid(bus) && st.bus == bus.abs && st.store == store.records
      requires phase == TimeoutSeen || phase == Waiting
      modifies this
      ensures Valid(bus) && Move(bus.abs, client) == Recheck(st, old(client), old(client.at.queue))
    {
      var record := store.Load(claim);
      client := Recheck(st, client, client.at.queue).client;
      if record.Some? && Terminal(record.value) {
        phase := Yielding(record.value.trace);
      } else {
        phase := Waiting;
      }
    }

    /** One turn of the wait: the next event, or a timeout on an empty queue. */
    method Await(store: ClaimStore, bus: EventBus, atomic: bool, ghost st: State)
      requires store.Valid() && bus.Valid() && Valid(bus) && phase == Waiting && st.bus == bus.abs
      requires st.store == store.records
      modifies this, bus`abs, q.value
      ensures bus.Valid() && Valid(bus)
      ensures old(client.at.queue) < |st.bus.pool|
      ensures Move(bus.abs, client) == Wait(atomic, st, old(client), old(client.at.queue))
    {
      if q.value.items == [] {
        if atomic {
          LookAgain(store, bus, st);
        } else {
          phase := TimeoutSeen;
          client := client.(at := TimedOut(client.at.queue));
        }
      } else {
        ghost var m := Wait(atomic, st, client, client.at.queue);
        var e := q.value.Get();
        sent := sent + [e];
        if e == Sentinel {
          phase := Finishing(BySentinel);
        }
        bus.abs := m.bus;
        client := m.client;
      }
    }

    /** The next item of a replay, and `done` after the last. */
    method Yield(bus: EventBus, ghost st: State)
      requires bus.Valid() && Valid(bus) && phase.Yielding? && st.bus == bus.abs
      modifies this
      ensures Valid(bus) && Move(bus.abs, client) == Replay(st, old(client), old(phase).rest)
    {
      client := Replay(st, client, phase.rest).client;
      if phase.rest == [] {
        sent := sent + [Sentinel];
        phase := Finishing(ByReplay);
      } else {
        sent := sent + [Step(phase.rest[0])];
        phase := Yielding(phase.rest[1..]);
      }
    }

    /** The `finally` clause, on whichever way out. */
    method Close(bus: EventBus, end: Ending, ghost st: State)
      requires bus.Valid() && Valid(bus) && st.bus == bus.abs
      modifies this, bus
      ensures bus.Valid() && Valid(bus) && Move(bus.abs, client) == Leaving(st, old(client), end)
      ensures claim !in bus.queues
    {
      bus.Unsubscribe(claim);
      phase := Ended(end);
      client := Leaving(st, client, end).client;
    }

    /** Resuming the generator is the protocol's reader step. */
    method Resume(store: ClaimStore, bus: EventBus, atomic: bool, ghost st: State)
      requires store.Valid() && bus.Valid() && Valid(bus) && st.bus == bus.abs && st.store == store.records
      modifies this, bus, if q.Some? then {q.value} else {}
      ensures bus.Valid() && Valid(bus)
      ensures Readable(st, old(client)) && Move(bus.abs, client) == ReaderStep(atomic, st, old(client))
    {
      match phase
      case Fresh => Begin(bus, st);
      case Looking => Look(store, bus, st);
      case Waiting => Await(store, bus, atomic, st);
      case TimeoutSeen => LookAgain(store, bus, st);
      case Yielding(_) => Yield(bus, st);
      case Finishing(end) => Close(bus, end, st);
      case Ended(_) =>
    }
  }
}
