/**
 Cloud writers as two steps: the SELECT of a recorded event runs before its transaction opens, so batches and other
 writers may come between it and the write.
 */
module CloudWriters {
  import opened Prelude
  import opened CloudEvents
  import opened CloudLog

  /** What a writer's SELECT returned; `seen` is the history: the entity's number of logged rows at that moment. */
  datatype Reading = Reading(project: Id, entity: Id, read: nat, seen: nat)

  datatype System = System(workspace: Workspace, readings: map<Id, Reading>)

  datatype Label =
    | Other(step: Step)
    | Select(writer: Id, project: Id, entity: Id)
    | Write(writer: Id, actor: Option<Id>, change: Change, eventId: Id, occurredAt: Option<Stamp>, at: Stamp)

  function Logs(w: Workspace, project: Id, entity: Id): nat {
    |EntityEvents(w.events, project, entity)|
  }

  function RecordOf(r: Reading, l: Label): Step
    requires l.Write?
  {
    Record(r.project, l.actor, l.change, r.entity, r.read, l.eventId, l.occurredAt, l.at)
  }

  /** Cloud events are recorded through `Select` and `Write` only. */
  function Next(s: System, l: Label): System {
    match l
    case Other(step) => if step.Record? then s else s.(workspace := After(s.workspace, step))
    case Select(writer, project, entity) =>
      var w := s.workspace;
      s.(readings := s.readings[writer :=
                                Reading(project, entity, StoredRevision(w.revisions, project, entity),
                                        Logs(w, project, entity))])
    case Write(writer, _, _, _, _, _) =>
      if writer !in s.readings then s
      else System(After(s.workspace, RecordOf(s.readings[writer], l)), s.readings - {writer})
  }

  function Run(w: Workspace, labels: seq<Label>): System {
    if labels == [] then System(w, map[]) else Next(Run(w, labels[..|labels| - 1]), labels[|labels| - 1])
  }

  /** A write commits although its entity gained a row after the writer's SELECT. */
  predicate Overtaken(s: System, l: Label) {
    && l.Write? && l.writer in s.readings
    && var r := s.readings[l.writer];
    && RecordWrite(s.workspace, r.project, l.actor, l.change, r.entity, r.read, l.eventId, l.occurredAt, l.at).Some?
    && Logs(s.workspace, r.project, r.entity) != r.seen
  }

  predicate OvertakenAt(w: Workspace, labels: seq<Label>, i: nat)
    requires i < |labels|
  {
    Overtaken(Run(w, labels[..i]), labels[i])
  }

  /** While the ledger holds, a reading is the number of rows it saw. */
  predicate ReadingsCount(s: System) {
    forall writer | writer in s.readings :: s.readings[writer].read == s.readings[writer].seen
  }

  lemma NextLedger(s: System, l: Label)
    requires Ledger(s.workspace) && ReadingsCount(s)
    ensures if Overtaken(s, l) then !RowsNumbered(Next(s, l).workspace.events)
            else Ledger(Next(s, l).workspace) && ReadingsCount(Next(s, l))
  {
    hide RowsNumbered, EntityEvents, After, RecordWrite;
    match l
    case Other(step) => AfterLedger(s.workspace, step);
    case Select(_, _, _) =>
    case Write(writer, _, _, _, _, _) =>
      if writer in s.readings {
        AfterLedger(s.workspace, RecordOf(s.readings[writer], l));
      }
  }

  lemma NextExtendsLog(s: System, l: Label)
    ensures s.workspace.events <= Next(s, l).workspace.events
  {
    hide After;
    match l
    case Other(step) => AfterExtendsLog(s.workspace, step);
    case Select(_, _, _) =>
    case Write(writer, _, _, _, _, _) =>
      if writer in s.readings {
        AfterExtendsLog(s.workspace, RecordOf(s.readings[writer], l));
      }
  }

  lemma {:induction false} LedgerOrOvertaken(w: Workspace, labels: seq<Label>)
    requires Ledger(w)
    ensures if exists i | 0 <= i < |labels| :: OvertakenAt(w, labels, i)
            then !RowsNumbered(Run(w, labels).workspace.events)
            else Ledger(Run(w, labels).workspace) && ReadingsCount(Run(w, labels))
  {
    hide Ledger, RowsNumbered, Next, Overtaken, ReadingsCount;
    if labels == [] {
      NoReadings(w);
    } else {
      var last := |labels| - 1;
      var few := labels[..last];
      LedgerOrOvertaken(w, few);
      forall i | 0 <= i < last ensures OvertakenAt(w, labels, i) == OvertakenAt(w, few, i) {
        assert few[..i] == labels[..i];
      }
      var s := Run(w, few);
      assert OvertakenAt(w, labels, last) == Overtaken(s, labels[last]);
      if exists i | 0 <= i < last :: OvertakenAt(w, few, i) {
        var i :| 0 <= i < last && OvertakenAt(w, few, i);
        assert OvertakenAt(w, labels, i);
        NextExtendsLog(s, labels[last]);
        MisnumberedForever(s.workspace.events, Run(w, labels).workspace.events);
      } else {
        NextLedger(s, labels[last]);
      }
    }
  }

  lemma NoReadings(w: Workspace)
    ensures ReadingsCount(Run(w, [])) && Run(w, []).workspace == w
  {}

  lemma LedgerNumbers(w: Workspace)
    requires Ledger(w)
    ensures RowsNumbered(w.events)
  {}

  /** The revision ledger over every interleaving of SELECTs, writes, device batches and other transactions: it holds
      at the end if and only if no writer's event committed after its entity had gained a row since the writer's
      SELECT. */
  lemma LedgerHoldsExactly(w: Workspace, labels: seq<Label>)
    requires Ledger(w)
    ensures Ledger(Run(w, labels).workspace) <==> forall i | 0 <= i < |labels| :: !OvertakenAt(w, labels, i)
  {
    hide Ledger, RowsNumbered, OvertakenAt, Run, ReadingsCount;
    LedgerOrOvertaken(w, labels);
    if Ledger(Run(w, labels).workspace) {
      LedgerNumbers(Run(w, labels).workspace);
    }
  }
}
