/** Server-sent event streams over the event log: a cursor reader per client, woken through one-slot queues. */
module EventStream {
  import opened Prelude
  import opened RunEvents

  /** The Last-Event-ID header as `int(last_event_id or "0")` sees it; an absent and an empty header both read
      as "0". */
  datatype Header = Absent | Unparsable | Number(value: int)

  function OpenCursor(afterSequence: int, lastEventId: Header): int {
    match lastEventId
    case Absent => Max(afterSequence, 0)
    case Number(n) => Max(afterSequence, n)
    case Unparsable => afterSequence
  }

  /** A stream opens behind both of the client's cursors and at one of them; a header that is no number, or none, does
      not matter, and nothing lies before event 1. */
  lemma OpensExactly(afterSequence: int, header: Header)
    ensures var start := OpenCursor(afterSequence, header);
            && afterSequence <= start && (header.Number? ==> header.value <= start)
            && (start == afterSequence || (header.Number? && start == header.value) || start == 0)
            && (header.Unparsable? ==> start == afterSequence)
            && (header.Absent? ==> Max(start, 0) == Max(afterSequence, 0))
  {}

  /** Where the generator is suspended: about to poll, yielding a batch, waiting on its queue, or finished. */
  datatype Point = Polling | Yielding(rest: seq<EventRow>) | Waiting | Closed

  /** `token` is the subscription's one-slot queue: true while a notification is pending. */
  datatype Stream = Stream(run: Id, start: int, cursor: int, delivered: seq<EventRow>, at: Point, token: bool)

  /** `published[run]` counts the events of the run that were committed when `publish(run)` last happened. */
  datatype Hub = Hub(rows: seq<EventRow>, published: map<Id, nat>, streams: map<Id, Stream>)

  datatype Move = Read | Deliver | Check(settled: bool) | Wake | Timeout | Disconnect

  datatype Label =
    | Append(run: Id, read: nat, entries: seq<Entry>)
    | Publish(run: Id)
    | Open(client: Id, run: Id, start: int)
    | Advance(client: Id, move: Move)

  /** One step of the generator between two suspension points. */
  function Moved(st: Stream, rows: seq<EventRow>, move: Move): Stream {
    match move
    case Read => if st.at.Polling? then st.(at := Yielding(After(rows, st.run, st.cursor))) else st
    case Deliver =>
      if st.at.Yielding? && st.at.rest != [] then
        st.(at := Yielding(st.at.rest[1..]), cursor := st.at.rest[0].sequence,
            delivered := st.delivered + [st.at.rest[0]])
      else st
    case Check(settled) => if st.at == Yielding([]) then st.(at := if settled then Closed else Waiting) else st
    case Wake => if st.at.Waiting? && st.token then st.(at := Polling, token := false) else st
    case Timeout => if st.at.Waiting? then st.(at := Polling) else st
    case Disconnect => st.(at := Closed)
  }

  /** `put_nowait` on every subscribed queue of the run; a full queue drops the token it already holds. */
  function Notified(st: Stream, run: Id): Stream {
    if st.run == run && !st.at.Closed? then st.(token := true) else st
  }

  function Published(h: Hub, run: Id): nat {
    if run in h.published then h.published[run] else 0
  }

  function Next(h: Hub, step: Label): Hub {
    match step
    case Append(run, read, entries) =>
      // The highest sequence was read at some earlier commit, so it is at most the present one.
      if read <= |Of(h.rows, run)| && InsertAll(h.rows, run, read, entries).Some? then
        h.(rows := InsertAll(h.rows, run, read, entries).value)
      else h
    case Publish(run) =>
      h.(published := h.published[run := |Of(h.rows, run)|],
         streams := map client | client in h.streams :: Notified(h.streams[client], run))
    case Open(client, run, start) =>
      if client in h.streams then h
      else h.(streams := h.streams[client := Stream(run, start, start, [], Polling, false)])
    case Advance(client, move) =>
      if client in h.streams then h.(streams := h.streams[client := Moved(h.streams[client], h.rows, move)]) else h
  }

  const QUIET := Hub([], map[], map[])

  function Run(steps: seq<Label>): Hub {
    if steps == [] then QUIET else Next(Run(steps[..|steps| - 1]), steps[|steps| - 1])
  }

  /** What a stream has delivered or already fetched. */
  function Fetched(st: Stream): seq<EventRow> {
    if st.at.Yielding? then st.delivered + st.at.rest else st.delivered
  }

  /** `part` is the stretch of the log that begins behind `start`. */
  predicate Stretch(part: seq<EventRow>, log: seq<EventRow>, start: int) {
    part == [] || (Max(start, 0) + |part| <= |log| && part == log[Max(start, 0)..Max(start, 0) + |part|])
  }

  predicate Follows(st: Stream, log: seq<EventRow>, published: nat) {
    && Stretch(Fetched(st), log, st.start)
    && st.cursor == (if st.delivered == [] then st.start else Max(st.start, 0) + |st.delivered|)
    && ((st.at.Yielding? || st.at.Waiting?) && !st.token ==> published <= Max(st.start, 0) + |Fetched(st)|)
  }

  ghost predicate Sound(h: Hub) {
    && Dense(h.rows)
    && (forall run: Id :: Published(h, run) <= |Of(h.rows, run)|)
    && (forall client | client in h.streams ::
          var st := h.streams[client]; Follows(st, Of(h.rows, st.run), Published(h, st.run)))
  }

  lemma StretchCompletes(part: seq<EventRow>, log: seq<EventRow>, start: int)
    requires part != [] && Stretch(part, log, start)
    ensures part + log[Max(start, 0) + |part|..] == log[Max(start, 0)..]
  {}

  lemma TailIsStretch(log: seq<EventRow>, start: int)
    requires start < |log|
    ensures Stretch(log[Max(start, 0)..], log, start)
  {}

  lemma TailAfter(delivered: seq<EventRow>, log: seq<EventRow>, start: int, batch: seq<EventRow>)
    requires Stretch(delivered, log, start)
    requires var cursor := if delivered == [] then start else Max(start, 0) + |delivered|;
             batch == if cursor >= |log| then [] else log[Max(cursor, 0)..]
    ensures delivered + batch == if start >= |log| then [] else log[Max(start, 0)..]
  {
    if delivered == [] {
      assert delivered + batch == batch;
    } else {
      StretchCompletes(delivered, log, start);
    }
  }

  /** A poll fetches the whole log behind the start. */
  lemma PollFetches(st: Stream, rows: seq<EventRow>)
    requires st.at.Polling? && Counts(Of(rows, st.run), st.run) && Follows(st, Of(rows, st.run), 0)
    ensures var log := Of(rows, st.run);
            Fetched(Moved(st, rows, Read)) == if st.start >= |log| then [] else log[Max(st.start, 0)..]
  {
    hide Of, After, Counts, Stretch;
    var log := Of(rows, st.run);
    AfterIsTail(rows, st.run, st.cursor);
    TailAfter(st.delivered, log, st.start, After(rows, st.run, st.cursor));
  }

  lemma ReadFollows(st: Stream, rows: seq<EventRow>, published: nat)
    requires Dense(rows) && published <= |Of(rows, st.run)| && Follows(st, Of(rows, st.run), published)
    ensures Follows(Moved(st, rows, Read), Of(rows, st.run), published)
  {
    hide Of, After, Counts, Stretch;
    if st.at.Polling? {
      assert Counts(Of(rows, st.run), st.run);
      PollFetches(st, rows);
      if st.start < |Of(rows, st.run)| {
        TailIsStretch(Of(rows, st.run), st.start);
      } else {
        NoStretch(Of(rows, st.run), st.start);
      }
    }
  }

  lemma NoStretch(log: seq<EventRow>, start: int)
    ensures Stretch([], log, start)
  {}

  lemma DeliverFollows(st: Stream, rows: seq<EventRow>, published: nat)
    requires Dense(rows) && Follows(st, Of(rows, st.run), published)
    ensures Follows(Moved(st, rows, Deliver), Of(rows, st.run), published)
  {
    hide Of;
    if st.at.Yielding? && st.at.rest != [] {
      var log := Of(rows, st.run);
      assert Counts(log, st.run);
      assert st.delivered + st.at.rest == st.delivered + [st.at.rest[0]] + st.at.rest[1..];
      assert Fetched(st)[|st.delivered|] == st.at.rest[0] == log[Max(st.start, 0) + |st.delivered|];
    }
  }

  lemma MoveFollows(st: Stream, rows: seq<EventRow>, move: Move, published: nat)
    requires Dense(rows) && published <= |Of(rows, st.run)| && Follows(st, Of(rows, st.run), published)
    ensures Follows(Moved(st, rows, move), Of(rows, st.run), published) && Moved(st, rows, move).run == st.run
  {
    hide Of, After, Dense;
    match move
    case Read => ReadFollows(st, rows, published);
    case Deliver => DeliverFollows(st, rows, published);
    case Check(_) => assert st.delivered + [] == st.delivered;
    case Wake =>
    case Timeout =>
    case Disconnect =>
      var base := Max(st.start, 0);
      var log := Of(rows, st.run);
      if st.delivered != [] {
        assert st.delivered == Fetched(st)[..|st.delivered|] == log[base..base + |st.delivered|];
      }
  }

  lemma FollowsGrows(st: Stream, log: seq<EventRow>, added: seq<EventRow>, published: nat)
    requires Follows(st, log, published)
    ensures Follows(st, log + added, published)
  {}

  lemma AppendKeeps(h: Hub, run: Id, read: nat, entries: seq<Entry>)
    requires Sound(h)
    ensures Sound(Next(h, Append(run, read, entries)))
  {
    hide Of, InsertAll, Dense, Fresh, Follows;
    if entries == [] {
      NothingToInsert(h.rows, run, read);
    } else if read <= |Of(h.rows, run)| {
      AppendExactly(h.rows, run, read, entries);
      if read == |Of(h.rows, run)| {
        var added := Fresh(run, read, entries);
        var grown := h.(rows := h.rows + added);
        forall client | client in grown.streams
          ensures var st := grown.streams[client]; Follows(st, Of(grown.rows, st.run), Published(grown, st.run)) {
          FollowsGrows(h.streams[client], Of(h.rows, h.streams[client].run), added,
                       Published(h, h.streams[client].run));
        }
        forall other: Id ensures Published(grown, other) <= |Of(grown.rows, other)| {
          assert Published(h, other) <= |Of(h.rows, other)|;
        }
      }
    }
  }

  lemma NextKeeps(h: Hub, step: Label)
    requires Sound(h)
    ensures Sound(Next(h, step))
  {
    hide Of, InsertAll, Dense, After, Moved;
    match step
    case Append(run, read, entries) => AppendKeeps(h, run, read, entries);
    case Publish(run) =>
      var after := Next(h, step);
      forall client | client in after.streams
        ensures var st := after.streams[client]; Follows(st, Of(after.rows, st.run), Published(after, st.run)) {
        var st := h.streams[client];
        assert Follows(st, Of(h.rows, st.run), Published(h, st.run));
      }
      forall other: Id ensures Published(after, other) <= |Of(after.rows, other)| {
        assert Published(h, other) <= |Of(h.rows, other)|;
      }
    case Open(client, run, start) =>
      var after := Next(h, step);
      assert forall other: Id :: Published(after, other) == Published(h, other);
    case Advance(client, move) =>
      var after := Next(h, step);
      assert forall other: Id :: Published(after, other) == Published(h, other);
      if client in h.streams {
        MoveFollows(h.streams[client], h.rows, move, Published(h, h.streams[client].run));
      }
  }

  lemma {:induction false} RunIsSound(steps: seq<Label>)
    ensures Sound(Run(steps))
  {
    if steps != [] {
      RunIsSound(steps[..|steps| - 1]);
      NextKeeps(Run(steps[..|steps| - 1]), steps[|steps| - 1]);
    }
  }

  /** Stream continuity: after any interleaving of appends, publishes and streams, every run's log is 1..n and a stream
      opened at cursor c has delivered the events c+1, c+2, .. of it, without gap or repeat. */
  lemma StreamsAreContinuous(steps: seq<Label>, client: Id)
    requires client in Run(steps).streams
    ensures var h := Run(steps); var st := h.streams[client]; var log := Of(h.rows, st.run);
            && Counts(log, st.run)
            && (forall i | 0 <= i < |st.delivered| ::
                st.delivered[i].run == st.run && st.delivered[i].sequence == Max(st.start, 0) + i + 1)
            && Stretch(st.delivered, log, st.start)
            && st.cursor == if st.delivered == [] then st.start else st.delivered[|st.delivered| - 1].sequence
  {
    hide Of, Run;
    RunIsSound(steps);
    var h := Run(steps);
    var st := h.streams[client];
    var log := Of(h.rows, st.run);
    assert Follows(st, log, Published(h, st.run)) && Counts(log, st.run);
    if st.delivered != [] {
      assert st.delivered == Fetched(st)[..|st.delivered|];
    }
  }

  /** The yields of one batch, back to back. */
  function Drained(st: Stream): Stream
    decreases if st.at.Yielding? then |st.at.rest| else 0
  {
    if st.at.Yielding? && st.at.rest != [] then Drained(Moved(st, [], Deliver)) else st
  }

  lemma {:induction false} DrainedDelivers(st: Stream)
    requires st.at.Yielding?
    ensures Drained(st).delivered == Fetched(st) && Drained(st).at == Yielding([])
    decreases |st.at.rest|
  {
    if st.at.rest == [] {
      assert st.delivered + [] == st.delivered;
    } else {
      DrainedDelivers(Moved(st, [], Deliver));
      assert st.delivered + [st.at.rest[0]] + st.at.rest[1..] == st.delivered + st.at.rest;
    }
  }

  /** A woken stream catches up: one poll yields everything committed behind its start, however many wake-ups were
      merged into the token that woke it. */
  lemma PollCatchesUp(steps: seq<Label>, client: Id)
    requires client in Run(steps).streams && Run(steps).streams[client].at.Polling?
    ensures var h := Run(steps); var st := h.streams[client]; var log := Of(h.rows, st.run);
            Drained(Moved(st, h.rows, Read)).delivered == if st.start >= |log| then [] else log[Max(st.start, 0)..]
  {
    hide Of, Run, After, Drained;
    StreamsAreContinuous(steps, client);
    var h := Run(steps);
    DrainedDelivers(Moved(h.streams[client], h.rows, Read));
    PollFetches(h.streams[client], h.rows);
  }

  /** No lost wake-up: a stream blocked on an empty queue has delivered every event behind its start that was committed
      before the latest publish of its run. */
  lemma NoLostWakeup(steps: seq<Label>, client: Id, row: EventRow)
    requires client in Run(steps).streams
    requires var st := Run(steps).streams[client];
             && st.at.Waiting? && !st.token && row in Run(steps).rows
             && row.run == st.run && st.start < row.sequence <= Published(Run(steps), st.run)
    ensures row in Run(steps).streams[client].delivered
  {
    hide Of, Run;
    RunIsSound(steps);
    var h := Run(steps);
    var st := h.streams[client];
    var log := Of(h.rows, st.run);
    assert Follows(st, log, Published(h, st.run)) && Counts(log, st.run);
    OfMembers(h.rows, st.run);
    assert row in log;
    var i :| 0 <= i < |log| && log[i] == row;
    assert st.delivered[i - Max(st.start, 0)] == row;
  }

  /** How often a run was published, and how often a stream was woken by a token. */
  function Publishes(steps: seq<Label>, run: Id): nat {
    if steps == [] then 0
    else Publishes(steps[..|steps| - 1], run) + if steps[|steps| - 1] == Publish(run) then 1 else 0
  }

  predicate IsWoken(h: Hub, step: Label, client: Id) {
    step == Advance(client, Wake) && client in h.streams && h.streams[client].at.Waiting? && h.streams[client].token
  }

  function Wakes(steps: seq<Label>, client: Id): nat {
    if steps == [] then 0
    else
      Wakes(steps[..|steps| - 1], client)
      + if IsWoken(Run(steps[..|steps| - 1]), steps[|steps| - 1], client) then 1 else 0
  }

  lemma NobodyYet(client: Id)
    ensures client !in Run([]).streams
  {}

  /** A step sets a stream's token only by publishing its run, and waking takes it. */
  lemma TokenStep(h: Hub, step: Label, client: Id)
    ensures IsWoken(h, step, client) ==> client in h.streams
    ensures client in h.streams ==>
              && client in Next(h, step).streams
              && var before, after := h.streams[client], Next(h, step).streams[client];
              && after.run == before.run
              && (after.token ==> !IsWoken(h, step, client) && (before.token || step == Publish(before.run)))
              && (IsWoken(h, step, client) ==> before.token)
    ensures client !in h.streams && client in Next(h, step).streams ==> !Next(h, step).streams[client].token
  {
    hide InsertAll, After, Of;
  }

  /** A token wakes once: a stream is woken at most as often as its run was published, however wake-ups are merged. */
  lemma {:induction false} WakesAreBounded(steps: seq<Label>, client: Id)
    ensures client !in Run(steps).streams ==> Wakes(steps, client) == 0
    ensures client in Run(steps).streams ==>
              var st := Run(steps).streams[client];
              Wakes(steps, client) + (if st.token then 1 else 0) <= Publishes(steps, st.run)
  {
    hide Next, IsWoken;
    if steps == [] {
      NobodyYet(client);
    } else {
      WakesAreBounded(steps[..|steps| - 1], client);
      TokenStep(Run(steps[..|steps| - 1]), steps[|steps| - 1], client);
    }
  }

  lemma StretchesJoin(first: seq<EventRow>, second: seq<EventRow>, log: seq<EventRow>, start: int, middle: int)
    requires Stretch(first, log, start) && Stretch(second, log, middle)
    requires middle == if first == [] then start else Max(start, 0) + |first|
    ensures Stretch(first + second, log, start)
  {}

  lemma StretchesAgree(one: seq<EventRow>, other: seq<EventRow>, log: seq<EventRow>, start: int)
    requires Stretch(one, log, start) && Stretch(other, log, start)
    ensures one <= other || other <= one
  {}

  /** Cutting and resuming: a stream opened at the cursor where another one stopped continues it, so that the two
      together agree with any uncut stream from the first start. */
  lemma ResumedStreamsConcatenate(steps: seq<Label>, cut: Id, resumed: Id, uncut: Id)
    requires var h := Run(steps);
             && cut in h.streams && resumed in h.streams && uncut in h.streams
             && h.streams[cut].run == h.streams[resumed].run == h.streams[uncut].run
             && h.streams[resumed].start == h.streams[cut].cursor && h.streams[uncut].start == h.streams[cut].start
    ensures var h := Run(steps);
            var whole := h.streams[cut].delivered + h.streams[resumed].delivered;
            && Stretch(whole, Of(h.rows, h.streams[cut].run), h.streams[cut].start)
            && (whole <= h.streams[uncut].delivered || h.streams[uncut].delivered <= whole)
  {
    hide Of, Run, Stretch;
    StreamsAreContinuous(steps, cut);
    StreamsAreContinuous(steps, resumed);
    StreamsAreContinuous(steps, uncut);
    var h := Run(steps);
    var a, b, c := h.streams[cut], h.streams[resumed], h.streams[uncut];
    var log := Of(h.rows, a.run);
    StretchesJoin(a.delivered, b.delivered, log, a.start, b.start);
    StretchesAgree(a.delivered + b.delivered, c.delivered, log, a.start);
  }

  /** A client that reconnects to the same address with the last id it was sent resumes at its cursor. */
  lemma ReconnectResumes(steps: seq<Label>, client: Id, afterSequence: int, header: Header)
    requires client in Run(steps).streams && Run(steps).streams[client].start == OpenCursor(afterSequence, header)
    requires Run(steps).streams[client].delivered != []
    ensures var st := Run(steps).streams[client];
            OpenCursor(afterSequence, Number(st.delivered[|st.delivered| - 1].sequence)) == st.cursor
  {
    hide Run, Of;
    StreamsAreContinuous(steps, client);
  }
}
