/** One running event stream: the loop body of the generator, method by method between its suspension points. */
module StreamSession {
  import opened Prelude
  import opened RunEvents
  import opened RunStore
  import RunRows
  import opened Broker
  import opened EventStream

  const FINAL := {"completed", "failed", "needs_revision", "cancelled"}

  /** The status column. */
  function StatusText(status: RunRows.Status): string {
    match status
    case Queued => "queued"
    case Running => "running"
    case Settled(outcome) => outcome
  }

  /** The run has ended with one of the outcomes that close a stream. */
  predicate Final(status: RunRows.Status) {
    status.Settled? && (status.outcome == "completed" || status.outcome == "failed"
                        || status.outcome == "needs_revision" || status.outcome == "cancelled")
  }

  class Session {
    const run: Id
    const start: int
    const subscription: Subscription
    var cursor: int
    var delivered: seq<EventRow>
    var at: Point

    /** The session as a stream of the hub; the token lives in its subscription. */
    function Value(): Stream
      reads this, subscription
    {
      Stream(run, start, cursor, delivered, at, subscription.pending)
    }

    constructor (run: Id, start: int, subscription: Subscription)
      ensures this.subscription == subscription
      ensures Value() == Stream(run, start, start, [], Polling, subscription.pending)
    {
      this.run, this.start, this.subscription := run, start, subscription;
      cursor, delivered, at := start, [], Polling;
    }

    /** Reads behind the cursor and yields the batch row by row. */
    method YieldBatch(store: SQLiteRunStore)
      requires at.Polling?
      modifies this
      ensures Value() == Drained(Moved(old(Value()), store.events, Read))
    {
      hide After;
      var events := store.GetEvents(run, cursor);
      at := Yielding(events);
      ghost var fetched := Value();
      var i := 0;
      while i < |events|
        invariant 0 <= i <= |events|
        invariant at == Yielding(events[i..]) && subscription.pending == fetched.token
        invariant Drained(Value()) == Drained(fetched)
      {
        assert events[i..][1..] == events[i + 1..];
        cursor := events[i].sequence;
        delivered := delivered + [events[i]];
        at := Yielding(events[i + 1..]);
        i := i + 1;
      }
      assert events[|events|..] == [];
    }

    /** After a batch: a run whose status is one of the four final ones ends the stream, any other leaves it waiting. */
    method CheckStatus(store: SQLiteRunStore) returns (ended: bool)
      requires at == Yielding([])
      modifies this
      ensures ended <==> run in store.rows && Final(store.rows[run].status)
      ensures Value() == Moved(old(Value()), [], Check(ended))
    {
      var current := if run in store.rows then Some(StatusText(store.rows[run].status)) else None;
      ended := current.Some? && current.value in FINAL;
      at := if ended then Closed else Waiting;
    }

    /** Waits for a token; `expired` decides the wait when there is none. */
    method Await(expired: bool) returns (resumed: bool)
      requires at.Waiting?
      modifies this, subscription
      ensures Value() == if old(subscription.pending) then Moved(old(Value()), [], Wake)
                         else if expired then Moved(old(Value()), [], Timeout) else old(Value())
      ensures resumed == at.Polling? && !subscription.pending
    {
      resumed := subscription.TryGet();
      if resumed || expired {
        at, resumed := Polling, true;
      }
    }
  }
}
