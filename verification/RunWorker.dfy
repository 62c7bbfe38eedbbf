/** The worker: it executes deliveries, recovers expired leases, and is proved to be the serve loop of `RunDriver`. */
module RunWorker {
  import opened Prelude
  import opened RunRows
  import opened RunEvents
  import opened RunStore
  import opened Broker
  import RunDriver
  import RunLeases

  /** One persisted and notified event. */
  datatype Note = Note(run: Id, entry: Entry)

  function Noted(events: seq<EventRow>, notes: seq<Note>): seq<EventRow> {
    if notes == [] then events
    else
      var before := Noted(events, notes[..|notes| - 1]);
      var last := notes[|notes| - 1];
      before + Fresh(last.run, |Of(before, last.run)|, [last.entry])
  }

  function EntriesOf(notes: seq<Note>, run: Id): seq<Entry> {
    if notes == [] then []
    else
      var rest := EntriesOf(notes[..|notes| - 1], run);
      if notes[|notes| - 1].run == run then rest + [notes[|notes| - 1].entry] else rest
  }

  /** Notes keep the log dense, and each run's log grows by exactly its own entries, numbered on. */
  lemma {:induction false} NotedLog(events: seq<EventRow>, notes: seq<Note>, run: Id)
    requires Dense(events)
    ensures Dense(Noted(events, notes))
    ensures Of(Noted(events, notes), run) == Of(events, run) + Fresh(run, |Of(events, run)|, EntriesOf(notes, run))
  {
    hide Of, Dense, Fresh;
    if notes == [] {
      NothingToInsert(events, run, |Of(events, run)|);
      assert Of(events, run) + [] == Of(events, run);
    } else {
      var few, last := notes[..|notes| - 1], notes[|notes| - 1];
      NotedLog(events, few, run);
      var before := Noted(events, few);
      DenseGrows(before, last.run, [last.entry]);
      OfFresh(before, last.run, |Of(before, last.run)|, [last.entry], run);
      if last.run == run {
        var entries := EntriesOf(few, run);
        FreshSnoc(run, |Of(events, run)|, entries, last.entry);
        FreshShape(run, |Of(events, run)|, entries);
        FreshShape(run, |Of(before, run)|, [last.entry]);
        assert Fresh(run, |Of(before, run)|, [last.entry])
            == [EventRow(run, |Of(events, run)| + |entries| + 1, last.entry)];
        assert Of(events, run) + (Fresh(run, |Of(events, run)|, entries)
                                  + [EventRow(run, |Of(events, run)| + |entries| + 1, last.entry)])
            == Of(events, run) + Fresh(run, |Of(events, run)|, entries)
                + [EventRow(run, |Of(events, run)| + |entries| + 1, last.entry)];
      }
    }
  }

  lemma NotedSnoc(events: seq<EventRow>, notes: seq<Note>, note: Note)
    ensures Noted(events, notes + [note]) ==
            Noted(events, notes) + Fresh(note.run, |Of(Noted(events, notes), note.run)|, [note.entry])
  {}

  // ---------------------------------------------------------------- one execution

  /** What happens while the agent runs: it emits an event, or the heartbeat renews the lease. */
  datatype Activity = Emit(entry: Entry) | Beat(expires: Stamp, at: Stamp)

  /** How the agent ends. `Raised` includes a timeout and an event that could not be appended. */
  datatype Outcome = Finished(status: string) | Raised(error: string)

  datatype Attempt = Attempt(claimAt: Stamp, expires: Stamp, script: seq<Activity>, outcome: Outcome, endAt: Stamp)

  function Beats(script: seq<Activity>): seq<RunDriver.Event> {
    if script == [] then []
    else
      var last := script[|script| - 1];
      if last.Beat? then Beats(script[..|script| - 1]) + [RunDriver.Heartbeat(last.expires, last.at)]
          else Beats(script[..|script| - 1])
  }

  function Emissions(id: Id, script: seq<Activity>): seq<Note> {
    if script == [] then []
    else
      var last := script[|script| - 1];
      if last.Emit? then Emissions(id, script[..|script| - 1]) + [Note(id, last.entry)]
          else Emissions(id, script[..|script| - 1])
  }

  function Ending(a: Attempt): RunDriver.Event {
    match a.outcome
    case Finished(status) => RunDriver.Finish(status, a.endAt)
    case Raised(error) => RunDriver.Raise(error, a.endAt)
  }

  /** An execution as steps of the serve loop; without a successful claim all of them are idle. */
  function Trace(id: Id, a: Attempt): seq<RunDriver.Event> {
    [RunDriver.Take(id, a.expires, a.claimAt)] + Beats(a.script) + [Ending(a)]
  }

  function LastNote(id: Id, a: Attempt, attempt: nat, max: nat): Note {
    match a.outcome
    case Finished(_) => Note(id, Entry("run.completed", Numbered(attempt)))
    case Raised(_) => Note(id, Entry(if attempt < max then "run.retry_scheduled" else "run.failed", Numbered(attempt)))
  }

  /** The log of one execution. */
  function Journal(id: Id, a: Attempt, attempt: nat, max: nat): seq<Note> {
    [Note(id, Entry("run.started", Numbered(attempt)))] + Emissions(id, a.script) + [LastNote(id, a, attempt, max)]
  }

  lemma DriverSnoc(s: RunDriver.Driver, events: seq<RunDriver.Event>, e: RunDriver.Event, max: nat)
    ensures RunDriver.Run(s, events + [e], max) == RunDriver.Next(RunDriver.Run(s, events, max), e, max)
  {}

  lemma {:induction false} DriverConcat(s: RunDriver.Driver, one: seq<RunDriver.Event>, two: seq<RunDriver.Event>,
                                        max: nat)
    ensures RunDriver.Run(s, one + two, max) == RunDriver.Run(RunDriver.Run(s, one, max), two, max)
  {
    hide RunDriver.Next;
    if two == [] {
      assert one + two == one;
    } else {
      var few := two[..|two| - 1];
      DriverConcat(s, one, few, max);
      assert one + two == one + few + [two[|two| - 1]];
      DriverSnoc(s, one + few, two[|two| - 1], max);
    }
  }

  /** Steps that need a working run are idle without one. */
  lemma {:induction false} BeatsIdle(rows: Rows, script: seq<Activity>, max: nat)
    ensures RunDriver.Run(RunDriver.Driver(rows, None), Beats(script), max) == RunDriver.Driver(rows, None)
  {
    hide RunDriver.Run;
    if script == [] {
      NoScript(0, RunDriver.Driver(rows, None), [], max);
    } else {
      var few, last := script[..|script| - 1], script[|script| - 1];
      BeatsIdle(rows, few, max);
      if last.Beat? {
        DriverSnoc(RunDriver.Driver(rows, None), Beats(few), RunDriver.Heartbeat(last.expires, last.at), max);
      }
    }
  }

  lemma IdleTrace(rows: Rows, id: Id, a: Attempt, max: nat)
    requires id !in rows || rows[id].status != Queued
    ensures RunDriver.Run(RunDriver.Driver(rows, None), Trace(id, a), max) == RunDriver.Driver(rows, None)
  {
    var s := RunDriver.Driver(rows, None);
    var take := RunDriver.Take(id, a.expires, a.claimAt);
    assert [] + [take] == [take];
    DriverSnoc(s, [], take, max);
    DriverConcat(s, [take], Beats(a.script), max);
    BeatsIdle(rows, a.script, max);
    DriverSnoc(s, [take] + Beats(a.script), Ending(a), max);
  }

  // ---------------------------------------------------------------- what table and log say about an execution

  /** The entries that the agent emits, in order. */
  function Emitted(script: seq<Activity>): seq<Entry> {
    if script == [] then []
    else
      var last := script[|script| - 1];
      if last.Emit? then Emitted(script[..|script| - 1]) + [last.entry] else Emitted(script[..|script| - 1])
  }

  /** The last renewal of the heartbeat. */
  function LastBeat(script: seq<Activity>): Option<(Stamp, Stamp)> {
    if script == [] then None
    else if script[|script| - 1].Beat? then Some((script[|script| - 1].expires, script[|script| - 1].at))
    else LastBeat(script[..|script| - 1])
  }

  /** A running row carries the lease of the last renewal, or the one it was claimed with. */
  predicate Renewed(before: Row, after: Row, script: seq<Activity>) {
    && after.status == Running && after.attempts == before.attempts && after.lastError == before.lastError
    && match LastBeat(script)
       case None => after.leaseExpiresAt == before.leaseExpiresAt && after.updatedAt == before.updatedAt
       case Some(beat) => after.leaseExpiresAt == Some(beat.0) && after.updatedAt == beat.1
  }

  lemma RenewedSnoc(before: Row, after: Row, few: seq<Activity>, a: Activity)
    requires Renewed(before, after, few)
    ensures a.Emit? ==> Renewed(before, after, few + [a])
    ensures a.Beat? ==> Renewed(before, after.(leaseExpiresAt := Some(a.expires), updatedAt := a.at), few + [a])
  {
    assert (few + [a])[..|few|] == few;
  }

  /** The run's row after an attempt. */
  predicate Concluded(r: Row, a: Attempt, attempt: nat, max: nat) {
    && r.attempts == attempt && r.leaseExpiresAt == None && r.updatedAt == a.endAt
    && match a.outcome
       case Finished(status) => r.status == Settled(status)
       case Raised(error) =>
         r.status == (if attempt < max then Queued else Settled("failed")) && RunLeases.Kept(r.lastError, error)
  }

  /** The last entry of an attempt. */
  predicate EndTold(entry: Entry, a: Attempt, attempt: nat, max: nat) {
    && entry.payload == Numbered(attempt)
    && entry.kind == (if a.outcome.Finished? then "run.completed"
                      else if attempt < max then "run.retry_scheduled" else "run.failed")
  }

  /** The run's log after an attempt: its start, what the agent emitted, and how it ended, behind all that was there. */
  predicate AttemptLogged(before: seq<EventRow>, log: seq<EventRow>, a: Attempt, attempt: nat, max: nat) {
    var emitted := Emitted(a.script);
    && |log| == |before| + |emitted| + 2 && log[..|before|] == before
    && log[|before|].entry == Entry("run.started", Numbered(attempt))
    && (forall i | 0 <= i < |emitted| :: log[|before| + 1 + i].entry == emitted[i])
    && EndTold(log[|log| - 1].entry, a, attempt, max)
  }

  lemma {:induction false} EntriesConcat(one: seq<Note>, two: seq<Note>, run: Id)
    ensures EntriesOf(one + two, run) == EntriesOf(one, run) + EntriesOf(two, run)
  {
    if two == [] {
      assert one + two == one;
    } else {
      EntriesConcat(one, two[..|two| - 1], run);
      assert (one + two)[..|one + two| - 1] == one + two[..|two| - 1];
    }
  }

  lemma EntryOf(note: Note, run: Id)
    ensures EntriesOf([note], run) == if note.run == run then [note.entry] else []
  {
    assert [note][..0] == [];
  }

  lemma {:induction false} EmittedEntries(id: Id, script: seq<Activity>)
    ensures EntriesOf(Emissions(id, script), id) == Emitted(script)
  {
    if script != [] {
      var few, last := script[..|script| - 1], script[|script| - 1];
      EmittedEntries(id, few);
      if last.Emit? {
        EntriesConcat(Emissions(id, few), [Note(id, last.entry)], id);
        EntryOf(Note(id, last.entry), id);
      }
    }
  }

  lemma JournalEntries(id: Id, a: Attempt, attempt: nat, max: nat)
    ensures EntriesOf(Journal(id, a, attempt, max), id)
              == [Entry("run.started", Numbered(attempt))] + Emitted(a.script) + [LastNote(id, a, attempt, max).entry]
  {
    hide Emissions, Emitted, EntriesOf;
    var start, last := Note(id, Entry("run.started", Numbered(attempt))), LastNote(id, a, attempt, max);
    EntriesConcat([start] + Emissions(id, a.script), [last], id);
    EntriesConcat([start], Emissions(id, a.script), id);
    EmittedEntries(id, a.script);
    EntryOf(start, id);
    EntryOf(last, id);
  }

  lemma JournalLogs(events: seq<EventRow>, id: Id, a: Attempt, attempt: nat, max: nat)
    requires Dense(events)
    ensures AttemptLogged(Of(events, id), Of(Noted(events, Journal(id, a, attempt, max)), id), a, attempt, max)
  {
    hide Of, Dense, Fresh, Noted, Emitted, Journal;
    var entries := EntriesOf(Journal(id, a, attempt, max), id);
    NotedLog(events, Journal(id, a, attempt, max), id);
    JournalEntries(id, a, attempt, max);
    FreshShape(id, |Of(events, id)|, entries);
    var log := Of(Noted(events, Journal(id, a, attempt, max)), id);
    forall i | 0 <= i < |Emitted(a.script)|
      ensures log[|Of(events, id)| + 1 + i].entry == Emitted(a.script)[i] {
      assert entries[1 + i] == Emitted(a.script)[i];
    }
  }

  // ---------------------------------------------------------------- recovery

  lemma {:induction false} SeenIsCurrent(rows: Rows, ids: seq<Id>, max: nat, at: Stamp)
    requires forall i, j | 0 <= i < j < |ids| :: ids[i] != ids[j]
    ensures RecoverSeen(rows, rows, ids, max, at) == RunDriver.RecoverAll(rows, ids, max, at)
    ensures RunDriver.RecoverAll(rows, ids, max, at).Keys == rows.Keys
    ensures forall id | id in rows && id !in ids :: RunDriver.RecoverAll(rows, ids, max, at)[id] == rows[id]
  {
    if ids != [] {
      var few := ids[..|ids| - 1];
      SeenIsCurrent(rows, few, max, at);
      assert ids[|ids| - 1] !in few;
      assert forall id | id !in ids :: id !in few;
    }
  }

  function ExhaustedNotes(ids: seq<Id>): seq<Note> {
    if ids == [] then []
    else
      var note := Note(ids[|ids| - 1], Entry("run.failed", Text("Run recovery exceeded its retry limit.")));
      ExhaustedNotes(ids[..|ids| - 1]) + [note]
  }

  function RecoveredNotes(seen: Rows, ids: seq<Id>): seq<Note> {
    if ids == [] then []
    else
      var id := ids[|ids| - 1];
      RecoveredNotes(seen, ids[..|ids| - 1])
          + [Note(id, Entry("run.recovered", Numbered(if id in seen then seen[id].attempts else 0)))]
  }

  lemma {:induction false} NotedConcat(events: seq<EventRow>, one: seq<Note>, two: seq<Note>)
    ensures Noted(events, one + two) == Noted(Noted(events, one), two)
  {
    hide Of, Fresh;
    if two == [] {
      assert one + two == one;
    } else {
      NotedConcat(events, one, two[..|two| - 1]);
      assert one + two == one + two[..|two| - 1] + [two[|two| - 1]];
      NotedSnoc(events, one + two[..|two| - 1], two[|two| - 1]);
    }
  }

  lemma {:induction false} ExhaustedEntries(ids: seq<Id>, id: Id)
    requires RunLeases.NoRepeats(ids)
    ensures EntriesOf(ExhaustedNotes(ids), id) ==
            if id in ids then [Entry("run.failed", Text("Run recovery exceeded its retry limit."))] else []
  {
    if ids != [] {
      var few, last := ids[..|ids| - 1], ids[|ids| - 1];
      ExhaustedEntries(few, id);
      assert ids == few + [last] && last !in few;
    }
  }

  lemma {:induction false} RecoveredEntries(seen: Rows, ids: seq<Id>, id: Id)
    requires RunLeases.NoRepeats(ids) && id in seen
    ensures EntriesOf(RecoveredNotes(seen, ids), id) ==
            if id in ids then [Entry("run.recovered", Numbered(seen[id].attempts))] else []
  {
    if ids != [] {
      var few, last := ids[..|ids| - 1], ids[|ids| - 1];
      RecoveredEntries(seen, few, id);
      assert ids == few + [last] && last !in few;
    }
  }

  /** A recovery's effect on one run's log: one entry about a run it reports, none about any other. */
  predicate RecoveryLogged(before: seq<EventRow>, log: seq<EventRow>, run: Id, row: Row, queued: bool,
                           exhausted: bool) {
    if exhausted then
      log == before + [EventRow(run, |before| + 1, Entry("run.failed", Text("Run recovery exceeded its retry limit.")))]
    else if queued then
      log == before + [EventRow(run, |before| + 1, Entry("run.recovered", Numbered(row.attempts)))]
    else log == before
  }

  lemma ReportedApart(rows: Rows, after: Rows, includeQueued: bool, at: Stamp, limit: nat, max: nat, queued: seq<Id>,
                      exhausted: seq<Id>, id: Id)
    requires RunLeases.RecoveredRight(rows, after, includeQueued, at, limit, max, queued, exhausted) && id in rows
    ensures RunLeases.NoRepeats(queued) && RunLeases.NoRepeats(exhausted) && !(id in queued && id in exhausted)
  {
    hide RunLeases.NoRepeats;
  }

  lemma RecoveryNotes(events: seq<EventRow>, seen: Rows, queued: seq<Id>, exhausted: seq<Id>, id: Id)
    requires Dense(events) && id in seen && RunLeases.NoRepeats(queued) && RunLeases.NoRepeats(exhausted)
    requires !(id in queued && id in exhausted)
    ensures RecoveryLogged(Of(events, id),
                           Of(Noted(events, ExhaustedNotes(exhausted) + RecoveredNotes(seen, queued)), id), id,
                           seen[id], id in queued, id in exhausted)
  {
    hide Of, Dense, Fresh, Noted, ExhaustedNotes, RecoveredNotes, EntriesOf, RunLeases.NoRepeats;
    var notes := ExhaustedNotes(exhausted) + RecoveredNotes(seen, queued);
    NotedLog(events, notes, id);
    EntriesConcat(ExhaustedNotes(exhausted), RecoveredNotes(seen, queued), id);
    ExhaustedEntries(exhausted, id);
    RecoveredEntries(seen, queued, id);
    var failed := Entry("run.failed", Text("Run recovery exceeded its retry limit."));
    var recovered := Entry("run.recovered", Numbered(seen[id].attempts));
    NothingToInsert(events, id, |Of(events, id)|);
    FreshOne(id, |Of(events, id)|, failed);
    FreshOne(id, |Of(events, id)|, recovered);
    assert [failed] + [] == [failed] && [] + [recovered] == [recovered];
    assert Of(events, id) + [] == Of(events, id);
  }

  lemma FreshOne(run: Id, from: int, entry: Entry)
    ensures Fresh(run, from, [entry]) == [EventRow(run, from + 1, entry)]
  {
    FreshShape(run, from, [entry]);
  }

  /** What a dequeue brings: the head of the queue, a repeated or outdated delivery, or nothing before its timeout. */
  datatype Delivery = Head | Stray(id: Id) | Silence

  /** A run that the API creates while the loop runs. */
  datatype Arrival = Arrival(id: Id, at: Stamp)

  /** One turn of the serve loop: the runs created since the last one, whether a recovery is due, what is delivered,
      and how an execution of it would go. */
  datatype Turn = Turn(arrivals: seq<Arrival>, due: bool, sweepAt: Stamp, delivery: Delivery, attempt: Attempt,
                       up: bool)

  /** What a turn leaves open: an answer of the recovery's query, and the head of the queue. */
  datatype Choice = Choice(swept: seq<Id>, job: Option<Id>)

  predicate Allowed(turn: Turn, choice: Choice) {
    match turn.delivery
    case Head => true
    case Stray(id) => choice.job == Some(id)
    case Silence => choice.job.None?
  }

  function Submits(arrivals: seq<Arrival>): seq<RunDriver.Event> {
    if arrivals == [] then []
    else
      var last := arrivals[|arrivals| - 1];
      Submits(arrivals[..|arrivals| - 1]) + [RunDriver.Submit(last.id, last.at)]
  }

  function Swept(turn: Turn, choice: Choice): seq<RunDriver.Event> {
    if turn.due then [RunDriver.Sweep(choice.swept, turn.sweepAt)] else []
  }

  function Executed(turn: Turn, choice: Choice): seq<RunDriver.Event> {
    if choice.job.Some? then Trace(choice.job.value, turn.attempt) else []
  }

  function TurnTrace(turn: Turn, choice: Choice): seq<RunDriver.Event> {
    Submits(turn.arrivals) + Swept(turn, choice) + Executed(turn, choice)
  }

  /** The recovery of a turn takes runs only whose lease is over when it looks, from a table to which the arrivals were
      added. */
  predicate SweepsDue(s: RunDriver.Driver, turn: Turn, choice: Choice, max: nat) {
    var arrived := RunDriver.Run(s, Submits(turn.arrivals), max);
    turn.due ==> RunLeases.DueOnly(arrived.rows, choice.swept, false, turn.sweepAt)
  }

  /** The steps of the whole loop: the recovery at its start, then turn by turn. */
  function LoopTrace(first: RunDriver.Event, turns: seq<Turn>, choices: seq<Choice>): seq<RunDriver.Event>
    requires |turns| == |choices|
  {
    if turns == [] then [first]
    else
      var last := |turns| - 1;
      LoopTrace(first, turns[..last], choices[..last]) + TurnTrace(turns[last], choices[last])
  }

  /** The hand-over queue; deliveries of a real broker may be lost or repeated, so `Dequeue` promises only the local
      fallback. */
  class RunQueue {
    var jobs: seq<Id>

    constructor ()
      ensures jobs == []
    {
      jobs := [];
    }

    /** `up` tells whether the queue can be reached; when not, the caller sees an exception and nothing is queued. */
    method Enqueue(id: Id, up: bool)
      modifies this
      ensures jobs == if up then old(jobs) + [id] else old(jobs)
    {
      if up {
        jobs := jobs + [id];
      }
    }

    method Dequeue() returns (id: Option<Id>)
      modifies this
      ensures old(jobs) == (if id.Some? then [id.value] else []) + jobs && (id.None? ==> old(jobs) == [])
    {
      if jobs == [] {
        return None;
      }
      id := Some(jobs[0]);
      jobs := jobs[1..];
    }
  }

  class Worker {
    const store: SQLiteRunStore
    const queue: RunQueue
    const broker: RunEventBroker
    const max: nat
    const batch: nat

    constructor (store: SQLiteRunStore, queue: RunQueue, broker: RunEventBroker, max: nat, batch: nat)
      ensures this.store == store && this.queue == queue && this.broker == broker && this.max == max
                && this.batch == batch
    {
      this.store, this.queue, this.broker, this.max, this.batch := store, queue, broker, max, batch;
    }

    method PersistAndNotify(run: Id, entry: Entry)
      requires Dense(store.events) && broker.Valid()
      modifies store`events, broker.Of(run)
      ensures Dense(store.events) && store.events == Noted(old(store.events), [Note(run, entry)])
      ensures forall s | s in broker.Of(run) :: s.pending
      ensures forall other, s | other != run && s in broker.Of(other) :: s.pending == old(s.pending)
    {
      hide Of, Fresh;
      var committed := store.AppendEvents(run, [entry]);
      broker.Publish(run);
      assert [] + [Note(run, entry)] == [Note(run, entry)];
      NotedSnoc(old(store.events), [], Note(run, entry));
    }

    /** The agent at work: its events are persisted one by one while the heartbeat renews the lease. */
    method Play(id: Id, script: seq<Activity>)
      requires Dense(store.events) && broker.Valid() && id in store.rows && store.rows[id].status == Running
      modifies store, broker.Of(id)
      ensures Dense(store.events) && store.events == Noted(old(store.events), Emissions(id, script))
      ensures RunDriver.Driver(store.rows, Some(id))
                == RunDriver.Run(RunDriver.Driver(old(store.rows), Some(id)), Beats(script), max)
      ensures id in store.rows && Renewed(old(store.rows)[id], store.rows[id], script)
      ensures forall s | s in broker.Of(id) && old(s.pending) :: s.pending
    {
      hide Of, Dense, Fresh, Noted, RunDriver.Run, Emissions, Beats;
      ghost var events0, working := store.events, RunDriver.Driver(store.rows, Some(id));
      var i := 0;
      NoScript(id, working, events0, max);
      assert script[..0] == [];
      while i < |script|
        invariant 0 <= i <= |script| && Dense(store.events)
        invariant id in store.rows && Renewed(old(store.rows)[id], store.rows[id], script[..i])
        invariant RunDriver.Driver(store.rows, Some(id)) == RunDriver.Run(working, Beats(script[..i]), max)
        invariant store.events == Noted(events0, Emissions(id, script[..i]))
        invariant forall s | s in broker.Of(id) && old(s.pending) :: s.pending
      {
        assert script[..i + 1] == script[..i] + [script[i]];
        ScriptSnoc(id, script[..i], script[i]);
        RenewedSnoc(old(store.rows)[id], store.rows[id], script[..i], script[i]);
        match script[i] {
          case Emit(entry) =>
            PersistAndNotify(id, entry);
            NotedConcat(events0, Emissions(id, script[..i]), [Note(id, entry)]);
          case Beat(expires, at) =>
            var renewed := store.RenewLease(id, expires, at);
            DriverSnoc(working, Beats(script[..i]), RunDriver.Heartbeat(expires, at), max);
        }
        i := i + 1;
      }
      assert script[..|script|] == script;
    }

    /** The end of an attempt: completion, or release with a new delivery while attempts are left. */
    method Conclude(id: Id, a: Attempt, attempt: nat, up: bool)
      requires Dense(store.events) && broker.Valid() && id in store.rows && store.rows[id].attempts == attempt
      modifies store, queue, broker.Of(id)
      ensures Dense(store.events) && store.events == Noted(old(store.events), [LastNote(id, a, attempt, max)])
      ensures RunDriver.Driver(store.rows, None)
                == RunDriver.Next(RunDriver.Driver(old(store.rows), Some(id)), Ending(a), max)
      ensures queue.jobs == if a.outcome.Raised? && attempt < max && up then old(queue.jobs) + [id] else old(queue.jobs)
      ensures id in store.rows && Concluded(store.rows[id], a, attempt, max)
      ensures forall s | s in broker.Of(id) :: s.pending
    {
      hide Of, Dense, Fresh, Noted;
      if a.outcome.Raised? {
        RunLeases.ClippedIsKept(a.outcome.error);
      }
      match a.outcome {
        case Finished(status) =>
          store.CompleteRun(id, status, a.endAt);
          PersistAndNotify(id, Entry("run.completed", Numbered(attempt)));
        case Raised(error) =>
          var retry := store.ReleaseForRetry(id, error, max, a.endAt);
          if retry {
            PersistAndNotify(id, Entry("run.retry_scheduled", Numbered(attempt)));
            queue.Enqueue(id, up);
          } else {
            PersistAndNotify(id, Entry("run.failed", Numbered(attempt)));
          }
      }
    }

    /** One delivery. The store ends where the serve loop's steps end, the run's log grows by exactly the journal of the
        execution, and a failed attempt is queued again as long as attempts are left. */
    method Execute(id: Id, a: Attempt, up: bool) returns (claimed: bool)
      requires Dense(store.events) && broker.Valid()
      modifies store, queue, broker.Of(id)
      ensures Dense(store.events)
      ensures claimed == (id in old(store.rows) && old(store.rows)[id].status == Queued)
      ensures RunDriver.Driver(store.rows, None)
                == RunDriver.Run(RunDriver.Driver(old(store.rows), None), Trace(id, a), max)
      ensures !claimed ==>
                store.rows == old(store.rows) && store.events == old(store.events) && queue.jobs == old(queue.jobs)
      ensures claimed ==>
                var attempt := old(store.rows)[id].attempts + 1;
                && store.events == Noted(old(store.events), Journal(id, a, attempt, max))
                && queue.jobs == (if a.outcome.Raised? && attempt < max && up then old(queue.jobs) + [id]
                                  else old(queue.jobs))
                && id in store.rows && Concluded(store.rows[id], a, attempt, max)
                && AttemptLogged(Of(old(store.events), id), Of(store.events, id), a, attempt, max)
                && (forall s | s in broker.Of(id) :: s.pending)
    {
      hide Of, Dense, Fresh, Noted, RunDriver.Run, Emissions, Beats, RunDriver.Next, Trace, Concluded, AttemptLogged;
      claimed := store.ClaimRun(id, a.expires, a.claimAt);
      if !claimed {
        IdleTrace(old(store.rows), id, a, max);
        return;
      }
      var attempt := store.rows[id].attempts;
      ghost var started := Note(id, Entry("run.started", Numbered(attempt)));
      PersistAndNotify(id, Entry("run.started", Numbered(attempt)));
      Play(id, a.script);
      NotedConcat(old(store.events), [started], Emissions(id, a.script));
      NotedConcat(old(store.events), [started] + Emissions(id, a.script), [LastNote(id, a, attempt, max)]);
      BusyTrace(old(store.rows), id, a, max);
      JournalLogs(old(store.events), id, a, attempt, max);
      Conclude(id, a, attempt, up);
    }

    method NotifyExhausted(exhausted: seq<Id>)
      requires Dense(store.events) && broker.Valid()
      modifies store`events, broker.Everyone()
      ensures Dense(store.events) && store.events == Noted(old(store.events), ExhaustedNotes(exhausted))
      ensures forall id, s | id in exhausted && s in broker.Of(id) :: s.pending
    {
      hide Of, Dense, Fresh, Noted, ExhaustedNotes;
      ghost var events0 := store.events;
      NoNotes(map[], events0, _ => true);
      var i := 0;
      while i < |exhausted|
        invariant 0 <= i <= |exhausted| && Dense(store.events)
        invariant store.events == Noted(events0, ExhaustedNotes(exhausted[..i]))
        invariant forall k, s | 0 <= k < i && s in broker.Of(exhausted[k]) :: s.pending
      {
        assert exhausted[..i + 1] == exhausted[..i] + [exhausted[i]];
        ExhaustedSnoc(exhausted[..i], exhausted[i]);
        var entry := Entry("run.failed", Text("Run recovery exceeded its retry limit."));
        PersistAndNotify(exhausted[i], entry);
        NotedConcat(events0, ExhaustedNotes(exhausted[..i]), [Note(exhausted[i], entry)]);
        i := i + 1;
      }
      assert exhausted[..|exhausted|] == exhausted;
    }

    method NotifyRequeued(id: Id, attempts: nat, up: bool) returns (ghost note: Note)
      requires Dense(store.events) && broker.Valid()
      modifies store`events, queue, broker.Of(id)
      ensures note == Note(id, Entry("run.recovered", Numbered(attempts)))
      ensures Dense(store.events) && store.events == Noted(old(store.events), [note])
      ensures queue.jobs == if up then old(queue.jobs) + [id] else old(queue.jobs)
      ensures forall s | s in broker.Of(id) :: s.pending
    {
      hide Of, Dense, Fresh, Noted;
      note := Note(id, Entry("run.recovered", Numbered(attempts)));
      PersistAndNotify(id, Entry("run.recovered", Numbered(attempts)));
      queue.Enqueue(id, up);
    }

    method NotifyRecovered(seen: Rows, queued: seq<Id>, up: Id -> bool)
      requires Dense(store.events) && broker.Valid()
      modifies store`events, queue, broker.Everyone()
      ensures Dense(store.events) && store.events == Noted(old(store.events), RecoveredNotes(seen, queued))
      ensures queue.jobs == old(queue.jobs) + Reachable(queued, up)
      ensures forall id, s | id in queued && s in broker.Of(id) :: s.pending
      ensures forall s | s in broker.Everyone() && old(s.pending) :: s.pending
    {
      hide Of, Dense, Fresh, Noted, RecoveredNotes, Reachable;
      ghost var events0, jobs0 := store.events, queue.jobs;
      NoNotes(seen, events0, up);
      var i := 0;
      while i < |queued|
        invariant 0 <= i <= |queued| && Dense(store.events)
        invariant queue.jobs == jobs0 + Reachable(queued[..i], up)
        invariant store.events == Noted(events0, RecoveredNotes(seen, queued[..i]))
        invariant forall k, s | 0 <= k < i && s in broker.Of(queued[k]) :: s.pending
        invariant forall s | s in broker.Everyone() && old(s.pending) :: s.pending
      {
        assert queued[..i + 1] == queued[..i] + [queued[i]];
        RecoveredSnoc(seen, queued[..i], queued[i], up);
        var attempts := if queued[i] in seen then seen[queued[i]].attempts else 0;
        ghost var note := NotifyRequeued(queued[i], attempts, up(queued[i]));
        NotedConcat(events0, RecoveredNotes(seen, queued[..i]), [note]);
        i := i + 1;
      }
      assert queued[..|queued|] == queued;
    }

    /** A recovery: the sweep of the serve loop over an answer of the query, one event for each row it reported, and a
        new delivery for each row that is queued. */
    method Recover(includeQueued: bool, at: Stamp, up: Id -> bool) returns (ghost ids: seq<Id>)
      requires Dense(store.events) && broker.Valid()
      modifies store, queue, broker.Everyone()
      ensures Dense(store.events)
      ensures IsSelection(old(store.rows), includeQueued, at, batch, ids)
      ensures RunDriver.Driver(store.rows, None)
                == RunDriver.Next(RunDriver.Driver(old(store.rows), None), RunDriver.Sweep(ids, at), max)
      ensures var queued := Reported(old(store.rows), ids, max, false);
              var exhausted := Reported(old(store.rows), ids, max, true);
              && store.events == Noted(old(store.events),
                                       ExhaustedNotes(exhausted) + RecoveredNotes(old(store.rows), queued))
              && queue.jobs == old(queue.jobs) + Reachable(queued, up)
              && (forall id, s | (id in queued || id in exhausted) && s in broker.Of(id) :: s.pending)
              && RunLeases.RecoveredRight(old(store.rows), store.rows, includeQueued, at, batch, max, queued, exhausted)
              && forall id | id in old(store.rows) ::
                   RecoveryLogged(Of(old(store.events), id), Of(store.events, id), id, old(store.rows)[id],
                                  id in queued, id in exhausted)
      ensures RunLeases.DueOnly(old(store.rows), ids, includeQueued, at)
    {
      hide Of, Dense, Fresh, Noted, RecoverSeen, RunDriver.RecoverAll, Reported, ExhaustedNotes, RecoveredNotes,
          Reachable, RunLeases.RecoveredRight, RunLeases.DueOnly, RecoveryLogged;
      var seen, queued, exhausted;
      seen, queued, exhausted, ids := store.RecoverRuns(max, batch, includeQueued, at);
      SeenIsCurrent(seen, ids, max, at);
      NotifyExhausted(exhausted);
      NotifyRecovered(seen, queued, up);
      NotedConcat(old(store.events), ExhaustedNotes(exhausted), RecoveredNotes(seen, queued));
      RecoveryIsRight(seen, includeQueued, at, batch, max, ids);
      forall id | id in seen
        ensures RecoveryLogged(Of(old(store.events), id), Of(store.events, id), id, seen[id], id in queued,
                               id in exhausted) {
        ReportedApart(seen, store.rows, includeQueued, at, batch, max, queued, exhausted, id);
        RecoveryNotes(old(store.events), seen, queued, exhausted, id);
      }
    }

    /** The API writing to the same table. */
    method Arrive(arrivals: seq<Arrival>)
      modifies store`rows
      ensures RunDriver.Driver(store.rows, None)
                == RunDriver.Run(RunDriver.Driver(old(store.rows), None), Submits(arrivals), max)
    {
      hide RunDriver.Run, Submits;
      ghost var idle := RunDriver.Driver(store.rows, None);
      NoMoves(idle, max);
      assert arrivals[..0] == [];
      var i := 0;
      while i < |arrivals|
        invariant 0 <= i <= |arrivals|
        invariant RunDriver.Driver(store.rows, None) == RunDriver.Run(idle, Submits(arrivals[..i]), max)
      {
        SubmitsSnoc(arrivals[..i], arrivals[i]);
        assert arrivals[..i + 1] == arrivals[..i] + [arrivals[i]];
        DriverSnoc(idle, Submits(arrivals[..i]), RunDriver.Submit(arrivals[i].id, arrivals[i].at), max);
        var created := store.CreateRun(arrivals[i].id, arrivals[i].at);
        i := i + 1;
      }
      assert arrivals[..|arrivals|] == arrivals;
    }

    method TakeTurn(turn: Turn, up: Id -> bool) returns (ghost choice: Choice)
      requires Dense(store.events) && broker.Valid()
      modifies store, queue, broker.Everyone()
      ensures Dense(store.events) && Allowed(turn, choice)
      ensures SweepsDue(RunDriver.Driver(old(store.rows), None), turn, choice, max)
      ensures RunDriver.Driver(store.rows, None)
                == RunDriver.Run(RunDriver.Driver(old(store.rows), None), TurnTrace(turn, choice), max)
    {
      hide Of, Dense, RunDriver.Run, RunDriver.Next, Trace, Journal, Reported, ExhaustedNotes, RecoveredNotes,
           Reachable, Noted,
           IsSelection, Submits, RunLeases.RecoveredRight, RunLeases.DueOnly;
      ghost var idle := RunDriver.Driver(store.rows, None);
      choice := Choice([], None);
      Arrive(turn.arrivals);
      NoMoves(RunDriver.Driver(store.rows, None), max);
      ghost var arrived := RunDriver.Driver(store.rows, None);
      if turn.due {
        ghost var ids := Recover(false, turn.sweepAt, up);
        choice := choice.(swept := ids);
        DriverOne(arrived, RunDriver.Sweep(ids, turn.sweepAt), max);
      }
      DriverConcat(idle, Submits(turn.arrivals), Swept(turn, choice), max);
      var job: Option<Id> := None;
      match turn.delivery {
        case Head => job := queue.Dequeue();
        case Stray(id) => job := Some(id);
        case Silence =>
      }
      choice := choice.(job := job);
      NoMoves(RunDriver.Driver(store.rows, None), max);
      if job.Some? {
        var claimed := Execute(job.value, turn.attempt, turn.up);
      }
      DriverConcat(idle, Submits(turn.arrivals) + Swept(turn, choice), Executed(turn, choice), max);
    }

    /** The serve loop until shutdown: every effect on the runs table is the run of the driver machine that the turns
        describe, so the bounds of that machine hold from whatever sound table the loop started on. */
    method Serve(startAt: Stamp, turns: seq<Turn>, up: Id -> bool)
      returns (ghost first: seq<Id>, ghost choices: seq<Choice>, ghost trace: seq<RunDriver.Event>)
      requires Dense(store.events) && broker.Valid()
      modifies store, queue, broker.Everyone()
      ensures Dense(store.events)
      ensures |choices| == |turns| && (forall i | 0 <= i < |turns| :: Allowed(turns[i], choices[i]))
      ensures trace == LoopTrace(RunDriver.Sweep(first, startAt), turns, choices)
      ensures RunLeases.DueOnly(old(store.rows), first, true, startAt)
      ensures forall i | 0 <= i < |turns| ::
                SweepsDue(RunDriver.Run(RunDriver.Driver(old(store.rows), None),
                                        LoopTrace(RunDriver.Sweep(first, startAt), turns[..i], choices[..i]), max),
                          turns[i], choices[i], max)
      ensures RunDriver.Driver(store.rows, None) == RunDriver.Run(RunDriver.Driver(old(store.rows), None), trace, max)
      ensures var start, end := RunDriver.Driver(old(store.rows), None), RunDriver.Driver(store.rows, None);
              RunDriver.Invariant(start, max) ==>
                && RunDriver.Invariant(end, max)
                && forall id ::
                     && RunDriver.Moves(start, trace, max, id) + RunDriver.Budget(end, max, id)
                          <= RunDriver.Budget(start, max, id)
                     && RunDriver.Attempts(start, id) + RunDriver.Executions(start, trace, max, id) <= Limit(max)
    {
      hide Of, Dense, RunDriver.Run, RunDriver.Next, TurnTrace, Allowed, IsSelection, Noted, Reported, LoopTrace,
          SweepsDue, RunLeases.DueOnly, RunLeases.RecoveredRight, RecoveryLogged;
      ghost var idle := RunDriver.Driver(store.rows, None);
      first := Recover(true, startAt, up);
      DriverOne(idle, RunDriver.Sweep(first, startAt), max);
      choices, trace := [], [RunDriver.Sweep(first, startAt)];
      LoopStart(RunDriver.Sweep(first, startAt));
      assert turns[..0] == [];
      var i := 0;
      while i < |turns|
        invariant 0 <= i <= |turns| && |choices| == i && Dense(store.events)
        invariant forall k | 0 <= k < i :: Allowed(turns[k], choices[k])
        invariant trace == LoopTrace(RunDriver.Sweep(first, startAt), turns[..i], choices)
        invariant RunDriver.Driver(store.rows, None) == RunDriver.Run(idle, trace, max)
        invariant forall k | 0 <= k < i ::
                    SweepsDue(RunDriver.Run(idle, LoopTrace(RunDriver.Sweep(first, startAt), turns[..k], choices[..k]),
                                            max), turns[k], choices[k], max)
      {
        ghost var earlier := choices;
        ghost var choice := TakeTurn(turns[i], up);
        DriverConcat(idle, trace, TurnTrace(turns[i], choice), max);
        LoopSnoc(RunDriver.Sweep(first, startAt), turns[..i], choices, turns[i], choice);
        assert turns[..i + 1] == turns[..i] + [turns[i]];
        trace, choices := trace + TurnTrace(turns[i], choice), choices + [choice];
        assert choices[..i] == earlier && forall k | 0 <= k < i :: choices[..k] == earlier[..k];
        i := i + 1;
      }
      assert turns[..|turns|] == turns;
      LoopIsBounded(idle, trace, max);
    }
  }

  /** The bounds of the driver machine, for every run at once. */
  lemma LoopIsBounded(start: RunDriver.Driver, trace: seq<RunDriver.Event>, max: nat)
    ensures RunDriver.Invariant(start, max) ==>
              && RunDriver.Invariant(RunDriver.Run(start, trace, max), max)
              && forall id ::
                   && RunDriver.Moves(start, trace, max, id)
                        + RunDriver.Budget(RunDriver.Run(start, trace, max), max, id)
                        <= RunDriver.Budget(start, max, id)
                   && RunDriver.Attempts(start, id) + RunDriver.Executions(start, trace, max, id) <= Limit(max)
  {
    hide *;
    if RunDriver.Invariant(start, max) {
      RunDriver.RunInvariant(start, trace, max);
      forall id
        ensures RunDriver.Moves(start, trace, max, id) + RunDriver.Budget(RunDriver.Run(start, trace, max), max, id)
                  <= RunDriver.Budget(start, max, id)
        ensures RunDriver.Attempts(start, id) + RunDriver.Executions(start, trace, max, id) <= Limit(max) {
        RunDriver.RunsTerminate(start, trace, max, id);
        RunDriver.ExecutionsAreBounded(start, trace, max, id);
      }
    }
  }

  lemma NoMoves(s: RunDriver.Driver, max: nat)
    ensures Submits([]) == [] && RunDriver.Run(s, [], max) == s
  {}

  lemma DriverOne(s: RunDriver.Driver, e: RunDriver.Event, max: nat)
    ensures RunDriver.Run(s, [e], max) == RunDriver.Next(s, e, max)
  {
    assert [e][..0] == [];
  }

  lemma SubmitsSnoc(arrivals: seq<Arrival>, arrival: Arrival)
    ensures Submits(arrivals + [arrival]) == Submits(arrivals) + [RunDriver.Submit(arrival.id, arrival.at)]
  {
    assert (arrivals + [arrival])[..|arrivals|] == arrivals;
  }

  lemma LoopStart(first: RunDriver.Event)
    ensures LoopTrace(first, [], []) == [first]
  {}

  lemma LoopSnoc(first: RunDriver.Event, turns: seq<Turn>, choices: seq<Choice>, turn: Turn, choice: Choice)
    requires |turns| == |choices|
    ensures LoopTrace(first, turns + [turn], choices + [choice])
              == LoopTrace(first, turns, choices) + TurnTrace(turn, choice)
  {
    assert (turns + [turn])[..|turns|] == turns && (choices + [choice])[..|choices|] == choices;
  }

  /** The queued ids whose delivery reached the queue. */
  function Reachable(ids: seq<Id>, up: Id -> bool): seq<Id> {
    if ids == [] then []
    else
      var rest := Reachable(ids[..|ids| - 1], up);
      if up(ids[|ids| - 1]) then rest + [ids[|ids| - 1]] else rest
  }

  lemma NoScript(id: Id, s: RunDriver.Driver, events: seq<EventRow>, max: nat)
    ensures Beats([]) == [] && Emissions(id, []) == [] && Noted(events, []) == events && RunDriver.Run(s, [], max) == s
  {}

  lemma ScriptSnoc(id: Id, script: seq<Activity>, activity: Activity)
    ensures Beats(script + [activity]) ==
            if activity.Beat? then Beats(script) + [RunDriver.Heartbeat(activity.expires, activity.at)]
                else Beats(script)
    ensures Emissions(id, script + [activity]) ==
            if activity.Emit? then Emissions(id, script) + [Note(id, activity.entry)] else Emissions(id, script)
  {}

  lemma NoNotes(seen: Rows, events: seq<EventRow>, up: Id -> bool)
    ensures ExhaustedNotes([]) == [] && RecoveredNotes(seen, []) == [] && Reachable([], up) == []
              && Noted(events, []) == events
  {}

  lemma ExhaustedSnoc(ids: seq<Id>, id: Id)
    ensures ExhaustedNotes(ids + [id])
              == ExhaustedNotes(ids) + [Note(id, Entry("run.failed", Text("Run recovery exceeded its retry limit.")))]
  {}

  lemma RecoveredSnoc(seen: Rows, ids: seq<Id>, id: Id, up: Id -> bool)
    ensures RecoveredNotes(seen, ids + [id]) ==
            RecoveredNotes(seen, ids)
              + [Note(id, Entry("run.recovered", Numbered(if id in seen then seen[id].attempts else 0)))]
    ensures Reachable(ids + [id], up) == if up(id) then Reachable(ids, up) + [id] else Reachable(ids, up)
  {}

  /** The steps of a claimed execution: the claim, the heartbeats on the claimed row, the ending. */
  lemma BusyTrace(rows: Rows, id: Id, a: Attempt, max: nat)
    requires id in rows && rows[id].status == Queued
    ensures var working := RunDriver.Driver(Claim(rows, id, a.expires, a.claimAt), Some(id));
            RunDriver.Run(RunDriver.Driver(rows, None), Trace(id, a), max)
              == RunDriver.Next(RunDriver.Run(working, Beats(a.script), max), Ending(a), max)
  {
    hide Beats;
    var s := RunDriver.Driver(rows, None);
    var take := RunDriver.Take(id, a.expires, a.claimAt);
    assert [] + [take] == [take];
    DriverSnoc(s, [], take, max);
    DriverConcat(s, [take], Beats(a.script), max);
    DriverSnoc(s, [take] + Beats(a.script), Ending(a), max);
  }
}
