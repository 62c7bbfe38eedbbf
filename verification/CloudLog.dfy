/**
 Whole runs of the event store: device batches, events recorded by the cloud itself and
 unrelated writes, in any order. The revision ledger, the identity of log rows, and the
 log as the only thing the projection tables depend on.
 */
module CloudLog {
  import opened Prelude
  import opened CloudEvents

  // ---------------------------------------------------------------- the cloud's own writer

  /** The write block of a recorded cloud event. `read` is the revision that the SELECT before the
      block returned; `None` is an exception, which rolls the block back. */
  function RecordWrite(w: Workspace, project: Id, actor: Option<Id>, change: Change, entity: Id, read: nat, eventId: Id,
                       occurredAt: Option<Stamp>, at: Stamp): Option<Workspace> {
    var when := if occurredAt.Some? then occurredAt.value else at;
    if change == GraphitiEpisode(None) || Logged(w.events, project, eventId) then None
    else
      var tables :=
        if change.GraphitiEpisode? then StoreEpisode(w.tables, project, change.envelope.value) else w.tables;
      Some(Append(w.(tables := tables), project, eventId, None, actor, change, entity, read, when, at))
  }

  // ---------------------------------------------------------------- runs

  /** `Elsewhere` is any transaction that writes projection tables and not the log: creating notes, tasks and
      modules in the browser, changing a task's status, re-indexing. */
  datatype Step =
    | Push(project: Id, device: Id, drafts: seq<Draft>, at: Stamp)
    | Record(project: Id, actor: Option<Id>, change: Change, entity: Id, read: nat, eventId: Id,
             occurredAt: Option<Stamp>, at: Stamp)
    | Elsewhere(tables: Tables)

  function After(w: Workspace, step: Step): Workspace {
    match step
    case Push(project, device, drafts, at) =>
      (match Batch(w, project, device, drafts, at)
       case Some(p) => p.workspace
       case None => w)
    case Record(project, actor, change, entity, read, eventId, occurredAt, at) =>
      (match RecordWrite(w, project, actor, change, entity, read, eventId, occurredAt, at)
       case Some(next) => next
       case None => w)
    case Elsewhere(tables) => w.(tables := tables)
  }

  function Run(w: Workspace, steps: seq<Step>): Workspace {
    if steps == [] then w else After(Run(w, steps[..|steps| - 1]), steps[|steps| - 1])
  }

  // ---------------------------------------------------------------- log identity

  /** Row i carries sequence i + 1, and no project holds an event id twice. */
  predicate LogWellFormed(events: seq<Event>) {
    && (forall i | 0 <= i < |events| :: events[i].sequence == i + 1)
    && (forall i, j | 0 <= i < j < |events| ::
        events[i].project == events[j].project ==> events[i].eventId != events[j].eventId)
  }

  lemma AppendWellFormed(w: Workspace, project: Id, eventId: Id, device: Option<Id>, actor: Option<Id>, change: Change,
                         entity: Id, base: nat, occurredAt: Stamp, at: Stamp)
    requires LogWellFormed(w.events) && !Logged(w.events, project, eventId)
    ensures LogWellFormed(Append(w, project, eventId, device, actor, change, entity, base, occurredAt, at).events)
  {}

  lemma {:induction false} BatchWellFormed(w: Workspace, project: Id, device: Id, drafts: seq<Draft>, at: Stamp)
    requires LogWellFormed(w.events) && Batch(w, project, device, drafts, at).Some?
    ensures LogWellFormed(Batch(w, project, device, drafts, at).value.workspace.events)
  {
    hide Project;
    if drafts != [] {
      var last := |drafts| - 1;
      BatchWellFormed(w, project, device, drafts[..last], at);
      var p := Batch(w, project, device, drafts[..last], at).value.workspace;
      var m := drafts[last].mutation;
      match Project(p.tables, project, m, drafts[last].drawn)
      case Applied(tables) =>
        if !Logged(p.events, project, m.eventId) {
          AppendWellFormed(p.(tables := tables), project, m.eventId, Some(device), None, m.change, m.entityId,
                           m.baseRevision, m.occurredAt, at);
        }
      case _ =>
    }
  }

  lemma AfterExtendsLog(w: Workspace, step: Step)
    ensures w.events <= After(w, step).events
    ensures LogWellFormed(w.events) ==> LogWellFormed(After(w, step).events)
  {
    match step
    case Push(project, device, drafts, at) =>
      if Batch(w, project, device, drafts, at).Some? {
        BatchExtendsLog(w, project, device, drafts, at);
        if LogWellFormed(w.events) {
          BatchWellFormed(w, project, device, drafts, at);
        }
      }
    case Record(project, actor, change, entity, read, eventId, occurredAt, at) =>
      if RecordWrite(w, project, actor, change, entity, read, eventId, occurredAt, at).Some?
          && LogWellFormed(w.events) {
        var tables := After(w, step).tables;
        AppendWellFormed(w.(tables := tables), project, eventId, None, actor, change, entity, read,
                         if occurredAt.Some? then occurredAt.value else at, at);
      }
    case Elsewhere(_) =>
  }

  /** In every run the log only grows, its sequences stay dense and no event id is logged twice. */
  lemma {:induction false} RunKeepsLog(w: Workspace, steps: seq<Step>)
    ensures w.events <= Run(w, steps).events
    ensures LogWellFormed(w.events) ==> LogWellFormed(Run(w, steps).events)
  {
    if steps != [] {
      RunKeepsLog(w, steps[..|steps| - 1]);
      AfterExtendsLog(Run(w, steps[..|steps| - 1]), steps[|steps| - 1]);
    }
  }

  // ---------------------------------------------------------------- retry over runs

  /** Whatever happens after a batch was acknowledged, pushing any of its acknowledged mutations again, in any
      order and any number of times and by any device of the project, acknowledges all and changes nothing. */
  lemma AcknowledgedForever(w: Workspace, project: Id, device: Id, drafts: seq<Draft>, at: Stamp, later: seq<Step>,
                            again: Id, retry: seq<Draft>, retryAt: Stamp)
    requires Batch(w, project, device, drafts, at).Some?
    requires forall d | d in retry :: d.mutation.eventId in Batch(w, project, device, drafts, at).value.accepted
    ensures var now := Run(Batch(w, project, device, drafts, at).value.workspace, later);
            Batch(now, project, again, retry, retryAt) == Some(Progress(now, EventIds(retry), []))
  {
    var p := Batch(w, project, device, drafts, at).value;
    var now := Run(p.workspace, later);
    BatchExtendsLog(w, project, device, drafts, at);
    RunKeepsLog(p.workspace, later);
    forall d | d in retry ensures Logged(now.events, project, d.mutation.eventId) {
      LoggedMonotone(p.workspace.events, now.events, project, d.mutation.eventId);
    }
    RetryChangesNothing(now, project, again, retry, retryAt);
  }

  const NO_TABLES := Tables(map[], map[], map[], map[], map[])
  const NO_EVENTS := Workspace(NO_TABLES, map[], [])

  /** Conflicts are not idempotent: the same mutation is refused first and stored later. */
  lemma ConflictMaySucceedLater()
    ensures var m := Mutation(2, GraphitiEpisode(Some(Envelope(9, 1, "n", "c"))), 7, 1, 0);
            var before := Batch(NO_EVENTS, 1, 5, [Draft(m, 0)], 0);
            var now := Run(NO_EVENTS, [Record(1, None, TaskStatusChanged(None), 7, 0, 1, None, 0)]);
            var after := Batch(now, 1, 5, [Draft(m, 0)], 1);
            && before == Some(Progress(NO_EVENTS, [], [Conflict(2, RevisionConflict, 7, 0)]))
            && after.Some? && after.value.accepted == [2] && after.value.conflicts == []
  {
    var d := Draft(Mutation(2, GraphitiEpisode(Some(Envelope(9, 1, "n", "c"))), 7, 1, 0), 0);
    var s := Record(1, None, TaskStatusChanged(None), 7, 0, 1, None, 0);
    assert [d][..0] == [] && [s][..0] == [];
    assert Batch(NO_EVENTS, 1, 5, [], 0) == Some(Progress(NO_EVENTS, [], []));
    assert Judge(NO_EVENTS, 1, 5, d, 0) == Stale(0);
    assert [] + [Conflict(2, RevisionConflict, 7, 0)] == [Conflict(2, RevisionConflict, 7, 0)];
    assert Batch(NO_EVENTS, 1, 5, [d], 0) == Advance(Progress(NO_EVENTS, [], []), 1, 5, d, 0);
    assert Run(NO_EVENTS, [s]) == After(Run(NO_EVENTS, []), s);
    var now := Run(NO_EVENTS, [s]);
    assert now.events == [Event(1, 1, 1, None, None, TaskStatusChanged(None), 7, 0, 1, 0, 0)];
    assert Batch(now, 1, 5, [], 1) == Some(Progress(now, [], []));
  }

  // ---------------------------------------------------------------- revision ledger

  /** The events of one entity in sequence order. */
  function EntityEvents(events: seq<Event>, project: Id, entity: Id): seq<Event> {
    if events == [] then []
    else
      var last := |events| - 1;
      var rest := EntityEvents(events[..last], project, entity);
      if events[last].project == project && events[last].entityId == entity then rest + [events[last]] else rest
  }

  /** An entity's events carry revisions 1..n, each based on the one before it. */
  predicate Numbered(rows: seq<Event>) {
    forall i | 0 <= i < |rows| :: rows[i].entityRevision == i + 1 && rows[i].baseRevision == i
  }

  ghost predicate RowsNumbered(events: seq<Event>) {
    forall project: Id, entity: Id :: Numbered(EntityEvents(events, project, entity))
  }

  /** The ledger: rows numbered, and each stored revision equal to the entity's number of logged events. */
  ghost predicate Ledger(w: Workspace) {
    && RowsNumbered(w.events)
    && forall project: Id, entity: Id ::
         StoredRevision(w.revisions, project, entity) == |EntityEvents(w.events, project, entity)|
  }

  lemma EntityEventsSnoc(events: seq<Event>, row: Event, project: Id, entity: Id)
    ensures EntityEvents(events + [row], project, entity) ==
            EntityEvents(events, project, entity) +
              if row.project == project && row.entityId == entity then [row] else []
  {}

  /** Appending keeps the ledger exactly when the row is based on the stored revision; otherwise the rows are
      misnumbered. */
  lemma AppendLedger(w: Workspace, project: Id, eventId: Id, device: Option<Id>, actor: Option<Id>, change: Change,
                     entity: Id, base: nat, occurredAt: Stamp, at: Stamp)
    requires Ledger(w)
    ensures var next := Append(w, project, eventId, device, actor, change, entity, base, occurredAt, at);
            if base == StoredRevision(w.revisions, project, entity) then Ledger(next) else !RowsNumbered(next.events)
  {
    var next := Append(w, project, eventId, device, actor, change, entity, base, occurredAt, at);
    var row := next.events[|w.events|];
    forall p: Id, e: Id {
      EntityEventsSnoc(w.events, row, p, e);
    }
    var rows := EntityEvents(next.events, project, entity);
    assert rows[|rows| - 1] == row && |rows| - 1 == StoredRevision(w.revisions, project, entity);
    if base != StoredRevision(w.revisions, project, entity) {
      assert !Numbered(rows);
    }
  }

  lemma {:induction false} BatchLedger(w: Workspace, project: Id, device: Id, drafts: seq<Draft>, at: Stamp)
    requires Ledger(w) && Batch(w, project, device, drafts, at).Some?
    ensures Ledger(Batch(w, project, device, drafts, at).value.workspace)
  {
    hide Project;
    if drafts != [] {
      var last := |drafts| - 1;
      BatchLedger(w, project, device, drafts[..last], at);
      var p := Batch(w, project, device, drafts[..last], at).value.workspace;
      var m := drafts[last].mutation;
      match Project(p.tables, project, m, drafts[last].drawn)
      case Applied(tables) =>
        AppendLedger(p.(tables := tables), project, m.eventId, Some(device), None, m.change, m.entityId,
                     m.baseRevision, m.occurredAt, at);
      case _ =>
    }
  }

  /** A recorded cloud event that commits although the entity's revision moved since it was read. */
  predicate StaleRecord(w: Workspace, step: Step) {
    && step.Record?
    && RecordWrite(w, step.project, step.actor, step.change, step.entity, step.read, step.eventId, step.occurredAt,
                   step.at).Some?
    && step.read != StoredRevision(w.revisions, step.project, step.entity)
  }

  lemma AfterLedger(w: Workspace, step: Step)
    requires Ledger(w)
    ensures if StaleRecord(w, step) then !RowsNumbered(After(w, step).events) else Ledger(After(w, step))
  {
    match step
    case Push(project, device, drafts, at) =>
      if Batch(w, project, device, drafts, at).Some? {
        BatchLedger(w, project, device, drafts, at);
      }
    case Record(project, actor, change, entity, read, eventId, occurredAt, at) =>
      if RecordWrite(w, project, actor, change, entity, read, eventId, occurredAt, at).Some? {
        AppendLedger(w.(tables := After(w, step).tables), project, eventId, None, actor, change, entity, read,
                     if occurredAt.Some? then occurredAt.value else at, at);
      }
    case Elsewhere(_) =>
  }

  lemma {:induction false} EntityEventsPrefix(events: seq<Event>, longer: seq<Event>, project: Id, entity: Id)
    requires events <= longer
    ensures EntityEvents(events, project, entity) <= EntityEvents(longer, project, entity)
  {
    if |longer| > |events| {
      EntityEventsPrefix(events, longer[..|longer| - 1], project, entity);
    } else {
      assert longer == events;
    }
  }

  /** A misnumbered log stays misnumbered. */
  lemma MisnumberedForever(events: seq<Event>, longer: seq<Event>)
    requires events <= longer && !RowsNumbered(events)
    ensures !RowsNumbered(longer)
  {
    var p: Id, e: Id :| !Numbered(EntityEvents(events, p, e));
    EntityEventsPrefix(events, longer, p, e);
    var few, many := EntityEvents(events, p, e), EntityEvents(longer, p, e);
    var i :| 0 <= i < |few| && !(few[i].entityRevision == i + 1 && few[i].baseRevision == i);
    assert many[i] == few[i];
  }

  predicate StaleAt(w: Workspace, steps: seq<Step>, i: nat)
    requires i < |steps|
  {
    StaleRecord(Run(w, steps[..i]), steps[i])
  }

  /** The revision ledger, for every run: it holds at the end exactly when no recorded cloud event of the run
      committed on a revision that had moved since it was read. Device batches can never break it. */
  lemma {:induction false} LedgerExactly(w: Workspace, steps: seq<Step>)
    requires Ledger(w)
    ensures Ledger(Run(w, steps)) <==> forall i | 0 <= i < |steps| :: !StaleAt(w, steps, i)
    ensures (exists i | 0 <= i < |steps| :: StaleAt(w, steps, i)) ==> !RowsNumbered(Run(w, steps).events)
  {
    if steps != [] {
      var last := |steps| - 1;
      var before := Run(w, steps[..last]);
      LedgerExactly(w, steps[..last]);
      forall i | 0 <= i < last
        ensures StaleAt(w, steps, i) == StaleAt(w, steps[..last], i)
      {
        assert steps[..last][..i] == steps[..i];
      }
      assert StaleAt(w, steps, last) == StaleRecord(before, steps[last]);
      if Ledger(before) {
        AfterLedger(before, steps[last]);
      } else {
        AfterExtendsLog(before, steps[last]);
        MisnumberedForever(before.events, Run(w, steps).events);
        var i :| 0 <= i < last && StaleAt(w, steps[..last], i);
        assert StaleAt(w, steps, i);
      }
    }
  }

  /** The SELECT of a recorded cloud event runs before its transaction opens, so two writers may read the same
      revision; the run ends with two events of one entity at revision 1. */
  lemma LedgerBreaksUnderRace()
    ensures var first := Record(1, None, TaskStatusChanged(None), 7, 0, 1, None, 0);
            var second := Record(1, None, TaskStatusChanged(None), 7, 0, 2, None, 0);
            && Ledger(NO_EVENTS)
            && first.read == StoredRevision(NO_EVENTS.revisions, 1, 7) == second.read
            && !Ledger(Run(NO_EVENTS, [first, second]))
  {
    var first := Record(1, None, TaskStatusChanged(None), 7, 0, 1, None, 0);
    var second := Record(1, None, TaskStatusChanged(None), 7, 0, 2, None, 0);
    var steps := [first, second];
    assert Ledger(NO_EVENTS);
    assert steps[..1] == [first] && [first][..0] == [];
    var one := Run(NO_EVENTS, [first]);
    assert one == After(Run(NO_EVENTS, []), first);
    assert one.events == [Event(1, 1, 1, None, None, TaskStatusChanged(None), 7, 0, 1, 0, 0)];
    assert StaleAt(NO_EVENTS, steps, 1);
    LedgerExactly(NO_EVENTS, steps);
  }

  // ---------------------------------------------------------------- the log determines the tables

  /** What a run did to the tables: a pushed row with the marker id drawn for it, a recorded row, or a write from
      elsewhere. */
  datatype Entry = Pushed(event: Event, drawn: Id) | Recorded(event: Event) | Rewritten(tables: Tables)

  function MutationOf(e: Event): Mutation {
    Mutation(e.eventId, e.change, e.entityId, e.baseRevision, e.occurredAt)
  }

  function Redo(t: Tables, entry: Entry): Projection {
    match entry
    case Pushed(e, drawn) => Project(t, e.project, MutationOf(e), drawn)
    case Recorded(e) => if e.change.GraphitiEpisode? && e.change.envelope.Some?
        then Applied(StoreEpisode(t, e.project, e.change.envelope.value)) else Applied(t)
    case Rewritten(u) => Applied(u)
  }

  function RedoAll(t: Tables, entries: seq<Entry>): Projection {
    if entries == [] then Applied(t)
    else
      match RedoAll(t, entries[..|entries| - 1])
      case Applied(u) => Redo(u, entries[|entries| - 1])
      case other => other
  }

  function LogOf(entries: seq<Entry>): seq<Event> {
    if entries == [] then []
    else
      var last := entries[|entries| - 1];
      LogOf(entries[..|entries| - 1]) + if last.Rewritten? then [] else [last.event]
  }

  /** The entries of one step, read off the rows it appended. */
  function StepEntries(w: Workspace, step: Step): (entries: seq<Entry>) {
    var grown := After(w, step).events;
    match step
    case Push(project, device, drafts, at) =>
      var stored := StoredPart(w, project, device, drafts, at);
      if Batch(w, project, device, drafts, at).Some? && |grown| == |w.events| + |stored|
      then seq(|stored|, i requires 0 <= i < |stored| => Pushed(grown[|w.events| + i], stored[i].drawn))
      else []
    case Record(_, _, _, _, _, _, _, _) => if |grown| == |w.events| + 1 then [Recorded(grown[|w.events|])] else []
    case Elsewhere(tables) => [Rewritten(tables)]
  }

  function Journal(w: Workspace, steps: seq<Step>): seq<Entry> {
    if steps == [] then []
    else Journal(w, steps[..|steps| - 1]) + StepEntries(Run(w, steps[..|steps| - 1]), steps[|steps| - 1])
  }

  lemma {:induction false} LogOfConcat(a: seq<Entry>, b: seq<Entry>)
    ensures LogOf(a + b) == LogOf(a) + LogOf(b)
  {
    if b == [] {
      assert a + b == a;
    } else {
      LogOfConcat(a, b[..|b| - 1]);
      assert (a + b)[..|a + b| - 1] == a + b[..|b| - 1];
    }
  }

  lemma {:induction false} RedoAllConcat(t: Tables, a: seq<Entry>, b: seq<Entry>)
    requires RedoAll(t, a).Applied?
    ensures RedoAll(t, a + b) == RedoAll(RedoAll(t, a).tables, b)
  {
    if b == [] {
      assert a + b == a;
    } else {
      RedoAllConcat(t, a, b[..|b| - 1]);
      assert (a + b)[..|a + b| - 1] == a + b[..|b| - 1];
    }
  }

  lemma {:induction false} PushedRedo(t: Tables, project: Id, device: Id, stored: seq<Draft>, rows: seq<Event>,
                                      at: Stamp)
    requires |rows| == |stored| && forall i | 0 <= i < |rows| :: RowOf(rows[i], project, device, stored[i].mutation, at)
    ensures var entries := seq(|rows|, i requires 0 <= i < |rows| => Pushed(rows[i], stored[i].drawn));
            RedoAll(t, entries) == Replay(t, project, stored) && LogOf(entries) == rows
  {
    if rows != [] {
      var last := |rows| - 1;
      PushedRedo(t, project, device, stored[..last], rows[..last], at);
      var entries := seq(|rows|, i requires 0 <= i < |rows| => Pushed(rows[i], stored[i].drawn));
      var fewer := seq(last, i requires 0 <= i < last => Pushed(rows[..last][i], stored[..last][i].drawn));
      assert entries[..last] == fewer;
      assert MutationOf(rows[last]) == stored[last].mutation;
    }
  }

  lemma PushIsRedo(w: Workspace, project: Id, device: Id, drafts: seq<Draft>, at: Stamp)
    requires Batch(w, project, device, drafts, at).Some?
    ensures var w' := Batch(w, project, device, drafts, at).value.workspace;
            var entries := StepEntries(w, Push(project, device, drafts, at));
            RedoAll(w.tables, entries) == Applied(w'.tables) && w'.events == w.events + LogOf(entries)
  {
    hide Batch, StoredPart, Replay, RedoAll, LogOf;
    BatchIsRedoLog(w, project, device, drafts, at);
    var stored := StoredPart(w, project, device, drafts, at);
    var rows := Batch(w, project, device, drafts, at).value.workspace.events[|w.events|..];
    forall i | 0 <= i < |rows| ensures RowOf(rows[i], project, device, stored[i].mutation, at) {
    }
    PushedRedo(w.tables, project, device, stored, rows, at);
    assert StepEntries(w, Push(project, device, drafts, at))
        == seq(|rows|, i requires 0 <= i < |rows| => Pushed(rows[i], stored[i].drawn));
  }

  lemma StepIsRedo(w: Workspace, step: Step)
    ensures RedoAll(w.tables, StepEntries(w, step)) == Applied(After(w, step).tables)
    ensures After(w, step).events == w.events + LogOf(StepEntries(w, step))
  {
    hide Batch, StoredPart, Replay;
    match step
    case Push(project, device, drafts, at) =>
      if Batch(w, project, device, drafts, at).Some? {
        PushIsRedo(w, project, device, drafts, at);
      }
    case Record(project, actor, change, entity, read, eventId, occurredAt, at) =>
      if RecordWrite(w, project, actor, change, entity, read, eventId, occurredAt, at).Some? {
        var entry := Recorded(After(w, step).events[|w.events|]);
        assert [entry][..0] == [];
      }
    case Elsewhere(tables) =>
      assert [Rewritten(tables)][..0] == [];
  }

  /** Exactly-once projection, for every run: the journal lists the appended rows in order, one entry each, and
      projecting every entry once, in that order, yields the tables. */
  lemma {:induction false} LogDeterminesTables(w: Workspace, steps: seq<Step>)
    ensures Run(w, steps).events == w.events + LogOf(Journal(w, steps))
    ensures RedoAll(w.tables, Journal(w, steps)) == Applied(Run(w, steps).tables)
  {
    hide After, StepEntries, Redo;
    if steps != [] {
      var last := |steps| - 1;
      var before := Run(w, steps[..last]);
      LogDeterminesTables(w, steps[..last]);
      StepIsRedo(before, steps[last]);
      LogOfConcat(Journal(w, steps[..last]), StepEntries(before, steps[last]));
      RedoAllConcat(w.tables, Journal(w, steps[..last]), StepEntries(before, steps[last]));
    }
  }
}
