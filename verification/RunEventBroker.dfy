/** The in-process notifier: one-slot queues registered per run. */
module Broker {
  import opened Prelude

  /** `asyncio.Queue(maxsize=1)`; the slot holds at most one token. */
  class Subscription {
    var pending: bool

    constructor ()
      ensures !pending
    {
      pending := false;
    }

    /** `put_nowait`; true means QueueFull was raised. */
    method PutNowait() returns (full: bool)
      modifies this
      ensures full == old(pending) && pending
    {
      full := pending;
      pending := true;
    }

    /** The non-blocking part of `get`: takes the token when there is one. */
    method TryGet() returns (woken: bool)
      modifies this
      ensures woken == old(pending) && !pending
    {
      woken := pending;
      pending := false;
    }
  }

  class RunEventBroker {
    var subscribers: map<Id, set<Subscription>>

    /** No run keeps an empty entry and no queue serves two runs. */
    ghost predicate Valid()
      reads this
    {
      && (forall run | run in subscribers :: subscribers[run] != {})
      && (forall one, other | one in subscribers && other in subscribers && one != other ::
          subscribers[one] !! subscribers[other])
    }

    function Of(run: Id): set<Subscription>
      reads this
    {
      if run in subscribers then subscribers[run] else {}
    }

    ghost function Everyone(): set<Subscription>
      reads this
    {
      set run, s | run in subscribers && s in subscribers[run] :: s
    }

    constructor ()
      ensures Valid() && subscribers == map[]
    {
      subscribers := map[];
    }

    method Subscribe(run: Id) returns (subscriber: Subscription)
      requires Valid()
      modifies `subscribers
      ensures Valid() && fresh(subscriber) && !subscriber.pending
      ensures Of(run) == old(Of(run)) + {subscriber}
      ensures forall other | other != run :: Of(other) == old(Of(other))
    {
      subscriber := new Subscription();
      assert forall r, s | r in subscribers && s in subscribers[r] :: s != subscriber by {
        assert forall r, s | r in old(subscribers) && s in old(subscribers)[r] :: allocated(s);
      }
      subscribers := subscribers[run := Of(run) + {subscriber}];
    }

    method Unsubscribe(run: Id, subscriber: Subscription)
      requires Valid()
      modifies `subscribers
      ensures Valid() && Of(run) == old(Of(run)) - {subscriber}
      ensures forall other | other != run :: Of(other) == old(Of(other))
    {
      if run !in subscribers {
        return;
      }
      var rest := subscribers[run] - {subscriber};
      subscribers := if rest == {} then subscribers - {run} else subscribers[run := rest];
    }

    /** Afterwards exactly the run's own queues are full; every other queue is as it was, and no token is ever taken
        away. */
    method Publish(run: Id)
      requires Valid()
      modifies Of(run)
      ensures forall s | s in Of(run) :: s.pending
      ensures forall other, s | other != run && s in Of(other) :: s.pending == old(s.pending)
    {
      var waiting := Of(run);
      while waiting != {}
        invariant waiting <= Of(run)
        invariant forall s | s in Of(run) :: s.pending || s in waiting
        decreases |waiting|
      {
        var subscriber: Subscription :| subscriber in waiting;
        var dropped := subscriber.PutNowait();
        waiting := waiting - {subscriber};
      }
    }
  }
}
