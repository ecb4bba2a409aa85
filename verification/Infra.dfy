// The in-memory infrastructure the API runs on, on the heap: the checkpoint store that copies
// (infra/providers/fakes/checkpointer.py), the message queue (infra/providers/fakes/queue.py), and the
// event bus (api/worker.py:158-186), whose state is the protocol's.

module Infra {
  import opened Prelude
  import opened Lifecycle

  // ===== Checkpointer =======================================================================

  /** A mutable document, as a caller holds it. */
  class Document {
    var value: Record

    constructor (value: Record)
      ensures this.value == value
    {
      this.value := value;
    }
  }

  class FakeCheckpointer {
    var store: map<string, Document>

    /** No two keys share a document. */
    ghost predicate Valid()
      reads this
    {
      forall k, l :: k in store && l in store && store[k] == store[l] ==> k == l
    }

    ghost function Repr(): set<object>
      reads this
    {
      {this} + set k | k in store :: store[k]
    }

    /** What the store holds, as values. */
    ghost function Contents(): map<string, Record>
      reads this, store.Values
    {
      map k | k in store :: store[k].value
    }

    constructor ()
      ensures Valid() && Contents() == map[] && fresh(Repr())
    {
      store := map[];
    }

    /** Saving stores a copy: the caller's document is not the store's. */
    method Save(key: string, state: Document)
      requires Valid()
      modifies this
      ensures Valid() && Contents() == old(Contents())[key := state.value]
      ensures fresh(Repr() - old(Repr())) && (state !in old(Repr()) ==> state !in Repr())
    {
      var copy := new Document(state.value);
      store := store[key := copy];
    }

    /** Loading returns a copy nobody else holds. */
    method Load(key: string) returns (r: Option<Document>)
      requires Valid()
      ensures r.Some? <==> key in Contents()
      ensures r.Some? ==> fresh(r.value) && r.value.value == Contents()[key] && r.value !in Repr()
    {
      if key !in store {
        return None;
      }
      var copy := new Document(store[key].value);
      r := Some(copy);
    }

    method Delete(key: string)
      requires Valid()
      modifies this
      ensures Valid() && Contents() == old(Contents()) - {key}
      ensures Repr() <= old(Repr())
    {
      store := store - {key};
    }
  }

  // ===== Queue ==============================================================================

  datatype Message = Message(id: Id, policyNumber: string, fnolText: string)

  class FakeQueue {
    var q: seq<Message>
    var unacked: map<Id, Message>

    constructor ()
      ensures q == [] && unacked == map[]
    {
      q, unacked := [], map[];
    }

    method Enqueue(message: Message)
      modifies this
      ensures q == old(q) + [message] && unacked == old(unacked)
    {
      q := q + [message];
    }

    /** The oldest message, kept as unacknowledged; nothing after a timeout on an empty queue. */
    method Dequeue() returns (r: Option<Message>)
      modifies this
      ensures old(q) == [] ==> r == None && q == [] && unacked == old(unacked)
      ensures old(q) != [] ==>
        r == Some(old(q)[0]) && q == old(q)[1..] && unacked == old(unacked)[old(q)[0].id := old(q)[0]]
    {
      if q == [] {
        return None;
      }
      var msg := q[0];
      q := q[1..];
      unacked := unacked[msg.id := msg];
      r := Some(msg);
    }

    method Ack(id: Id)
      modifies this
      ensures q == old(q) && unacked == old(unacked) - {id}
    {
      unacked := unacked - {id};
    }
  }

  // ===== Event bus ==========================================================================

  class EventQueue {
    var items: seq<Event>

    constructor ()
      ensures items == []
    {
      items := [];
    }

    method Put(e: Event)
      modifies this
      ensures items == old(items) + [e]
    {
      items := items + [e];
    }

    method Get() returns (e: Event)
      requires items != []
      modifies this
      ensures e == old(items)[0] && items == old(items)[1..]
    {
      e := items[0];
      items := items[1..];
    }
  }

  class EventBus {
    var queues: map<Id, EventQueue>
    /** Every queue ever made, and the bus as the protocol sees it. */
    ghost var made: seq<EventQueue>
    ghost var abs: Bus

    ghost predicate Valid()
      reads this, made
    {
      && Distinct(made) && |abs.owner| == |made| == |abs.pool|
      && (forall i :: 0 <= i < |made| ==> made[i].items == abs.pool[i])
      && queues.Keys == abs.current.Keys
      && forall id :: id in queues ==> abs.current[id] < |made| && made[abs.current[id]] == queues[id]
    }

    constructor ()
      ensures Valid() && abs == Bus(map[], [], []) && made == []
    {
      queues, made, abs := map[], [], Bus(map[], [], []);
    }

    /** The claim's queue, made if there is none. */
    method Subscribe(id: Id) returns (q: EventQueue)
      requires Valid()
      modifies this
      ensures Valid() && id in abs.current && q == made[abs.current[id]]
      ensures abs == (if id in old(abs.current) then old(abs)
                      else Bus(old(abs.current)[id := |old(made)|], old(abs.pool) + [[]], old(abs.owner) + [id]))
      ensures if id in old(abs.current) then made == old(made) else made == old(made) + [q] && fresh(q)
    {
      if id !in queues {
        q := new EventQueue();
        queues := queues[id := q];
        abs := Bus(abs.current[id := |made|], abs.pool + [[]], abs.owner + [id]);
        made := made + [q];
      }
      q := queues[id];
    }

    method Publish(id: Id, e: Event)
      requires Valid()
      modifies this`abs, made
      ensures Valid() && abs == Lifecycle.Publish(old(abs), id, e)
    {
      if id in queues {
        queues[id].Put(e);
        abs := Lifecycle.Publish(abs, id, e);
        ghost var k := abs.current[id];
        forall i | 0 <= i < |made| ensures made[i].items == abs.pool[i] {
          assert i != k ==> made[i] != made[k];
        }
      }
    }

    method Unsubscribe(id: Id)
      requires Valid()
      modifies this
      ensures Valid() && made == old(made) && abs == Lifecycle.Unsubscribe(old(abs), id)
    {
      queues := queues - {id};
      abs := Lifecycle.Unsubscribe(abs, id);
    }
  }
}
