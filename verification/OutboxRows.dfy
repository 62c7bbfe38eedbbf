/** The durable tables of a paired PC as values: queued events, the pull cursor and the received events. */
module OutboxRows {
  import opened Prelude
  import opened CloudEvents
  import opened DurableQueue

  datatype Outbox = Outbox(rows: map<Id, QueueRow<Mutation>>, cursor: nat, received: map<nat, Event>)

  const EMPTY_OUTBOX := Outbox(map[], 0, map[])

  function Enqueue(o: Outbox, m: Mutation, at: Stamp): Outbox {
    o.(rows := Put(o.rows, m.eventId, m, at))
  }

  function Acknowledge(o: Outbox, ids: seq<Id>, at: Stamp): Outbox {
    o.(rows := Mark(o.rows, ids, at))
  }

  /** INSERT .. ON CONFLICT(sequence) DO NOTHING for every delivered event. */
  function Insert(received: map<nat, Event>, events: seq<Event>): map<nat, Event> {
    if events == [] then received
    else
      var last := events[|events| - 1];
      var rest := Insert(received, events[..|events| - 1]);
      if last.sequence in rest then rest else rest[last.sequence := last]
  }

  function Apply(o: Outbox, events: seq<Event>, serverCursor: nat): Outbox {
    o.(received := Insert(o.received, events), cursor := serverCursor)
  }

  lemma {:induction false} InsertMeaning(received: map<nat, Event>, events: seq<Event>, n: nat)
    ensures n in Insert(received, events) <==> n in received || exists e | e in events :: e.sequence == n
    ensures n in received ==> Insert(received, events)[n] == received[n]
    ensures n in Insert(received, events) && n !in received ==>
              Insert(received, events)[n] in events && Insert(received, events)[n].sequence == n
  {
    if events != [] {
      var few := events[..|events| - 1];
      InsertMeaning(received, few, n);
      assert events == few + [events[|events| - 1]];
      if n in Insert(received, events) && n !in received {
        if n in Insert(received, few) {
          assert Insert(received, few)[n] in events;
        }
      }
    }
  }
}
