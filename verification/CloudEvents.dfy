/**
 The cloud half of device synchronisation as values: the workspace tables, the
 projection of one event onto them, the judgement of one pushed mutation, the fold of
 a whole batch, and the second writer of the log, the cloud itself.

 A UUID that a transaction draws is an argument, and a draw that is already taken
 fails the way the INSERT would.
 */
module CloudEvents {
  import opened Prelude

  // ---------------------------------------------------------------- tables

  datatype Note = Note(project: Id, moduleId: Id, title: string, content: string, kind: string, author: string,
                       createdAt: Stamp)

  datatype Task = Task(project: Id, moduleId: Id, title: string, description: string, priority: string,
                       status: string, createdAt: Stamp, updatedAt: Stamp)

  datatype Marker = Marker(project: Id, moduleId: Id, kind: string, title: string, state: string,
                           sourceKind: string, sourceId: Id, createdAt: Stamp)

  datatype Envelope = Envelope(episodeId: Id, groupId: Id, name: string, content: string)

  /** The tables that events are projected onto; `modules` maps a module to its project. */
  datatype Tables = Tables(modules: map<Id, Id>, notes: map<Id, Note>, tasks: map<Id, Task>,
                           markers: map<Id, Marker>, episodes: map<(Id, Id), Envelope>)

  // ---------------------------------------------------------------- events

  datatype NoteRequest = NoteRequest(moduleId: Id, title: string, content: string, kind: string, author: string)
  datatype TaskRequest = TaskRequest(moduleId: Id, title: string, description: string, priority: string)
  /** `id` is the key a payload may carry, which then replaces the event's entity id. */
  datatype MarkerRequest = MarkerRequest(id: Option<Id>, moduleId: Id, kind: string, title: string, state: string,
                                         sourceKind: string, sourceId: Id)

  /** An event type with its payload; `None` is a payload that fails validation. */
  datatype Change =
    | NoteCreated(note: Option<NoteRequest>)
    | TaskCreated(task: Option<TaskRequest>)
    | TaskStatusChanged(status: Option<string>)
    | MarkerCreated(marker: Option<MarkerRequest>)
    | GraphitiEpisode(envelope: Option<Envelope>)

  /** What a device pushes. */
  datatype Mutation = Mutation(eventId: Id, change: Change, entityId: Id, baseRevision: nat, occurredAt: Stamp)

  /** A row of project_events; `sequence` is the AUTOINCREMENT key shared by all projects. */
  datatype Event = Event(sequence: nat, project: Id, eventId: Id, device: Option<Id>, actor: Option<Id>, change: Change,
                         entityId: Id, baseRevision: nat, entityRevision: nat, occurredAt: Stamp, createdAt: Stamp)

  /** The event store: projection tables, stored revisions, and the log in sequence order. */
  datatype Workspace = Workspace(tables: Tables, revisions: map<(Id, Id), nat>, events: seq<Event>)

  // ---------------------------------------------------------------- projection

  /** `Refused` is a LookupError or ValueError; `Failed` is a violated key, which aborts the transaction. */
  datatype Projection = Applied(tables: Tables) | Refused | Failed

  predicate Owns(t: Tables, project: Id, moduleId: Id) {
    moduleId in t.modules && t.modules[moduleId] == project
  }

  function Project(t: Tables, project: Id, m: Mutation, drawn: Id): Projection {
    match m.change
    case NoteCreated(Some(r)) =>
      if !Owns(t, project, r.moduleId) then Refused
      else if m.entityId in t.notes || drawn in t.markers then Failed
      else Applied(t.(
                   notes := t.notes[m.entityId :=
                                    Note(project, r.moduleId, r.title, r.content, r.kind, r.author, m.occurredAt)],
                   markers := t.markers[drawn := Marker(project, r.moduleId, r.kind, r.title, "open", "note",
                                                        m.entityId, m.occurredAt)]))
    case TaskCreated(Some(r)) =>
      if !Owns(t, project, r.moduleId) then Refused
      else if m.entityId in t.tasks || drawn in t.markers then Failed
      else Applied(t.(
                   tasks := t.tasks[m.entityId :=
                                    Task(project, r.moduleId, r.title, r.description, r.priority, "todo", m.occurredAt,
                                         m.occurredAt)],
                   markers := t.markers[drawn := Marker(project, r.moduleId, "task", r.title, "open", "task",
                                                        m.entityId, m.occurredAt)]))
    case TaskStatusChanged(Some(status)) =>
      if m.entityId !in t.tasks || t.tasks[m.entityId].project != project then Refused
      else Applied(t.(tasks := t.tasks[m.entityId :=
                                       t.tasks[m.entityId].(status := status, updatedAt := m.occurredAt)]))
    case MarkerCreated(Some(r)) =>
      var key := if r.id.Some? then r.id.value else m.entityId;
      if !Owns(t, project, r.moduleId) then Refused
      else if key in t.markers then Failed
      else Applied(t.(markers := t.markers[key :=
                                           Marker(project, r.moduleId, r.kind, r.title, r.state, r.sourceKind,
                                                  r.sourceId, m.occurredAt)]))
    case GraphitiEpisode(Some(envelope)) => Applied(StoreEpisode(t, project, envelope))
    case _ => Refused
  }

  /** INSERT .. ON CONFLICT(project_id, episode_id) DO NOTHING. */
  function StoreEpisode(t: Tables, project: Id, envelope: Envelope): Tables {
    if (project, envelope.episodeId) in t.episodes then t
    else t.(episodes := t.episodes[(project, envelope.episodeId) := envelope])
  }

  // ---------------------------------------------------------------- one mutation

  predicate Logged(events: seq<Event>, project: Id, eventId: Id) {
    exists e | e in events :: e.project == project && e.eventId == eventId
  }

  function StoredRevision(revisions: map<(Id, Id), nat>, project: Id, entity: Id): nat {
    if (project, entity) in revisions then revisions[(project, entity)] else 0
  }

  function Append(w: Workspace, project: Id, eventId: Id, device: Option<Id>, actor: Option<Id>, change: Change,
                  entity: Id, base: nat, occurredAt: Stamp, at: Stamp): Workspace {
    w.(revisions := w.revisions[(project, entity) := base + 1],
    events := w.events + [Event(|w.events| + 1, project, eventId, device, actor, change, entity, base, base + 1,
                                occurredAt, at)])
  }

  /** A pushed mutation with the marker id the server draws while projecting it. */
  datatype Draft = Draft(mutation: Mutation, drawn: Id)

  datatype Verdict = Duplicate | Stale(current: nat) | Rejected(current: nat) | Stored(next: Workspace) | Broken

  /** What one pass of the sync loop decides about one mutation. */
  function Judge(w: Workspace, project: Id, device: Id, draft: Draft, at: Stamp): Verdict {
    var m := draft.mutation;
    var current := StoredRevision(w.revisions, project, m.entityId);
    if Logged(w.events, project, m.eventId) then Duplicate
    else if m.baseRevision != current then Stale(current)
    else match Project(w.tables, project, m, draft.drawn)
      case Refused => Rejected(current)
      case Failed => Broken
      case Applied(tables) =>
        Stored(Append(w.(tables := tables), project, m.eventId, Some(device), None, m.change, m.entityId,
                      m.baseRevision, m.occurredAt, at))
  }

  // ---------------------------------------------------------------- a batch

  datatype ConflictCode = RevisionConflict | ProjectionRejected
  datatype Conflict = Conflict(eventId: Id, code: ConflictCode, entityId: Id, currentRevision: nat)

  datatype Progress = Progress(workspace: Workspace, accepted: seq<Id>, conflicts: seq<Conflict>)

  /** One pass of the loop: the state after it, or `None` when an exception leaves the transaction. */
  function Advance(p: Progress, project: Id, device: Id, draft: Draft, at: Stamp): Option<Progress> {
    var m := draft.mutation;
    match Judge(p.workspace, project, device, draft, at)
    case Duplicate => Some(p.(accepted := p.accepted + [m.eventId]))
    case Stale(current) => Some(p.(conflicts := p.conflicts
                                   + [Conflict(m.eventId, RevisionConflict, m.entityId, current)]))
    case Rejected(current) => Some(p.(conflicts := p.conflicts
                                      + [Conflict(m.eventId, ProjectionRejected, m.entityId, current)]))
    case Stored(next) => Some(p.(workspace := next, accepted := p.accepted + [m.eventId]))
    case Broken => None
  }

  function Batch(w: Workspace, project: Id, device: Id, drafts: seq<Draft>, at: Stamp): Option<Progress> {
    if drafts == [] then Some(Progress(w, [], []))
    else
      var last := |drafts| - 1;
      match Batch(w, project, device, drafts[..last], at)
      case None => None
      case Some(p) => Advance(p, project, device, drafts[last], at)
  }

  function EventIds(drafts: seq<Draft>): seq<Id> {
    if drafts == [] then [] else EventIds(drafts[..|drafts| - 1]) + [drafts[|drafts| - 1].mutation.eventId]
  }

  /** The mutations of a batch that the server acknowledges, in order. */
  function AcceptedPart(w: Workspace, project: Id, device: Id, drafts: seq<Draft>, at: Stamp): seq<Draft> {
    if drafts == [] then []
    else
      var last := |drafts| - 1;
      var rest := AcceptedPart(w, project, device, drafts[..last], at);
      match Batch(w, project, device, drafts[..last], at)
      case None => rest
      case Some(p) =>
        var v := Judge(p.workspace, project, device, drafts[last], at);
        if v.Duplicate? || v.Stored? then rest + [drafts[last]] else rest
  }

  /** The mutations of a batch that enter the log, in order. */
  function StoredPart(w: Workspace, project: Id, device: Id, drafts: seq<Draft>, at: Stamp): seq<Draft> {
    if drafts == [] then []
    else
      var last := |drafts| - 1;
      var rest := StoredPart(w, project, device, drafts[..last], at);
      match Batch(w, project, device, drafts[..last], at)
      case None => rest
      case Some(p) =>
        if Judge(p.workspace, project, device, drafts[last], at).Stored? then rest + [drafts[last]] else rest
  }

  lemma BatchNil(w: Workspace, project: Id, device: Id, at: Stamp)
    ensures Batch(w, project, device, [], at) == Some(Progress(w, [], [])) && EventIds([]) == []
    ensures AcceptedPart(w, project, device, [], at) == [] && StoredPart(w, project, device, [], at) == []
  {}

  /** The last mutation of a batch, unfolded. */
  lemma BatchStep(w: Workspace, project: Id, device: Id, drafts: seq<Draft>, at: Stamp)
    requires drafts != []
    ensures var rest := drafts[..|drafts| - 1];
            var draft := drafts[|drafts| - 1];
            match Batch(w, project, device, rest, at)
            case None =>
              && Batch(w, project, device, drafts, at) == None
            case Some(p) =>
              var v := Judge(p.workspace, project, device, draft, at);
              && Batch(w, project, device, drafts, at) == Advance(p, project, device, draft, at)
              && var accepted := AcceptedPart(w, project, device, rest, at);
              && AcceptedPart(w, project, device, drafts, at)
                   == (if v.Duplicate? || v.Stored? then accepted + [draft] else accepted)
              && var stored := StoredPart(w, project, device, rest, at);
              && StoredPart(w, project, device, drafts, at) == (if v.Stored? then stored + [draft] else stored)
  {}

  /** The same with the last mutation named. */
  lemma BatchSnoc(w: Workspace, project: Id, device: Id, rest: seq<Draft>, draft: Draft, at: Stamp)
    requires Batch(w, project, device, rest, at).Some?
    ensures Batch(w, project, device, rest + [draft], at) ==
            Advance(Batch(w, project, device, rest, at).value, project, device, draft, at)
  {}

  /** Batch filtering: conflicts and rejections leave no trace, so the acknowledged mutations alone,
      in the same order, reach the same workspace and are all acknowledged. */
  lemma {:induction false} ConflictsLeaveNoTrace(w: Workspace, project: Id, device: Id, drafts: seq<Draft>, at: Stamp)
    requires Batch(w, project, device, drafts, at).Some?
    ensures var p := Batch(w, project, device, drafts, at).value;
            Batch(w, project, device, AcceptedPart(w, project, device, drafts, at), at)
                == Some(Progress(p.workspace, p.accepted, []))
  {
    hide Batch, AcceptedPart, StoredPart, Judge;
    if drafts == [] {
      BatchNil(w, project, device, at);
    } else {
      var last := |drafts| - 1;
      BatchStep(w, project, device, drafts, at);
      ConflictsLeaveNoTrace(w, project, device, drafts[..last], at);
      BatchSnoc(w, project, device, AcceptedPart(w, project, device, drafts[..last], at), drafts[last], at);
    }
  }

  /** Repeats leave no trace either: the mutations that enter the log reach the same workspace alone. */
  lemma {:induction false} RepeatsLeaveNoTrace(w: Workspace, project: Id, device: Id, drafts: seq<Draft>, at: Stamp)
    requires Batch(w, project, device, drafts, at).Some?
    ensures var p := Batch(w, project, device, drafts, at).value;
            var stored := StoredPart(w, project, device, drafts, at);
            Batch(w, project, device, stored, at) == Some(Progress(p.workspace, EventIds(stored), []))
  {
    hide Batch, AcceptedPart, StoredPart, Judge, EventIds;
    if drafts == [] {
      BatchNil(w, project, device, at);
      assert EventIds(StoredPart(w, project, device, drafts, at)) == [];
    } else {
      var last := |drafts| - 1;
      BatchStep(w, project, device, drafts, at);
      RepeatsLeaveNoTrace(w, project, device, drafts[..last], at);
      var s := StoredPart(w, project, device, drafts[..last], at);
      BatchSnoc(w, project, device, s, drafts[last], at);
      EventIdsSnoc(s, drafts[last]);
    }
  }

  lemma EventIdsSnoc(drafts: seq<Draft>, draft: Draft)
    ensures EventIds(drafts + [draft]) == EventIds(drafts) + [draft.mutation.eventId]
  {}

  /** A batch only extends the log, and exactly the acknowledged ids are logged in addition. */
  lemma {:induction false} BatchExtendsLog(w: Workspace, project: Id, device: Id, drafts: seq<Draft>, at: Stamp)
    requires Batch(w, project, device, drafts, at).Some?
    ensures var p := Batch(w, project, device, drafts, at).value;
            && w.events <= p.workspace.events
            && (forall e | e in p.workspace.events[|w.events|..] :: e.project == project && e.device == Some(device))
            && forall id ::
                 Logged(p.workspace.events, project, id) <==> Logged(w.events, project, id) || id in p.accepted
  {
    hide Batch, AcceptedPart, StoredPart, Project, Logged;
    if drafts == [] {
      BatchNil(w, project, device, at);
    } else {
      var last := |drafts| - 1;
      BatchStep(w, project, device, drafts, at);
      BatchExtendsLog(w, project, device, drafts[..last], at);
      var p := Batch(w, project, device, drafts[..last], at).value;
      var v := Judge(p.workspace, project, device, drafts[last], at);
      if v.Stored? {
        var row := v.next.events[|p.workspace.events|];
        assert v.next.events == p.workspace.events + [row];
        assert v.next.events[|w.events|..] == p.workspace.events[|w.events|..] + [row];
        LoggedAppend(p.workspace.events, row, project);
      }
    }
  }

  lemma LoggedAppend(events: seq<Event>, row: Event, project: Id)
    ensures forall id :: Logged(events + [row], project, id) <==>
                         Logged(events, project, id) || (row.project == project && row.eventId == id)
  {}

  lemma LoggedMonotone(events: seq<Event>, longer: seq<Event>, project: Id, id: Id)
    requires events <= longer && Logged(events, project, id)
    ensures Logged(longer, project, id)
  {}

  /** Retry idempotence: a batch of ids that are all logged is acknowledged whole and changes nothing. */
  lemma {:induction false} RetryChangesNothing(w: Workspace, project: Id, device: Id, drafts: seq<Draft>, at: Stamp)
    requires forall d | d in drafts :: Logged(w.events, project, d.mutation.eventId)
    ensures Batch(w, project, device, drafts, at) == Some(Progress(w, EventIds(drafts), []))
  {
    if drafts != [] {
      hide Batch, AcceptedPart, StoredPart, Project;
      var last := |drafts| - 1;
      assert drafts[last] in drafts;
      BatchStep(w, project, device, drafts, at);
      RetryChangesNothing(w, project, device, drafts[..last], at);
    }
  }

  // ---------------------------------------------------------------- redo log

  /** The tables that projecting the given mutations one after another produces. */
  function Replay(t: Tables, project: Id, drafts: seq<Draft>): Projection {
    if drafts == [] then Applied(t)
    else
      var last := |drafts| - 1;
      match Replay(t, project, drafts[..last])
      case Applied(u) => Project(u, project, drafts[last].mutation, drafts[last].drawn)
      case other => other
  }

  /** A stored mutation is projected once and appended as one row. */
  lemma StoredOnce(w: Workspace, project: Id, device: Id, draft: Draft, at: Stamp)
    requires Judge(w, project, device, draft, at).Stored?
    ensures var next := Judge(w, project, device, draft, at).next;
            && Project(w.tables, project, draft.mutation, draft.drawn) == Applied(next.tables)
            && |next.events| == |w.events| + 1 && next.events == w.events + [next.events[|w.events|]]
            && RowOf(next.events[|w.events|], project, device, draft.mutation, at)
  {}

  /** The rows past `from` are the given mutations, one row each, in order. */
  predicate RowsOf(events: seq<Event>, from: nat, project: Id, device: Id, drafts: seq<Draft>, at: Stamp) {
    |events| == from + |drafts| && forall i | 0 <= i < |drafts| ::
        RowOf(events[from + i], project, device, drafts[i].mutation, at)
  }

  lemma RowsOfSnoc(events: seq<Event>, from: nat, project: Id, device: Id, drafts: seq<Draft>, at: Stamp, row: Event,
                   draft: Draft)
    requires RowsOf(events, from, project, device, drafts, at) && RowOf(row, project, device, draft.mutation, at)
    ensures RowsOf(events + [row], from, project, device, drafts + [draft], at)
  {}

  lemma NothingReplayed(w: Workspace, project: Id, device: Id, at: Stamp)
    ensures Replay(w.tables, project, []) == Applied(w.tables) && RowsOf(w.events, |w.events|, project, device, [], at)
  {}

  lemma ReplaySnoc(t: Tables, project: Id, drafts: seq<Draft>, draft: Draft)
    requires Replay(t, project, drafts).Applied?
    ensures Replay(t, project, drafts + [draft])
              == Project(Replay(t, project, drafts).tables, project, draft.mutation, draft.drawn)
  {}

  /** The log is an exact redo log: the rows a batch appends are its stored mutations in order,
      one row each, and the tables moved by the projection of exactly those, once each. */
  lemma {:induction false} BatchIsRedoLog(w: Workspace, project: Id, device: Id, drafts: seq<Draft>, at: Stamp)
    requires Batch(w, project, device, drafts, at).Some?
    ensures var w' := Batch(w, project, device, drafts, at).value.workspace;
            var stored := StoredPart(w, project, device, drafts, at);
            && Replay(w.tables, project, stored) == Applied(w'.tables)
            && w.events <= w'.events && RowsOf(w'.events, |w.events|, project, device, stored, at)
  {
    hide Batch, AcceptedPart, StoredPart, Judge, Project, RowOf, RowsOf, Replay;
    if drafts == [] {
      BatchNil(w, project, device, at);
      NothingReplayed(w, project, device, at);
    } else {
      var last := |drafts| - 1;
      BatchStep(w, project, device, drafts, at);
      BatchIsRedoLog(w, project, device, drafts[..last], at);
      var p := Batch(w, project, device, drafts[..last], at).value.workspace;
      if Judge(p, project, device, drafts[last], at).Stored? {
        var s := StoredPart(w, project, device, drafts[..last], at);
        StoredOnce(p, project, device, drafts[last], at);
        ReplaySnoc(w.tables, project, s, drafts[last]);
        var row := Judge(p, project, device, drafts[last], at).next.events[|p.events|];
        RowsOfSnoc(p.events, |w.events|, project, device, s, at, row, drafts[last]);
      }
    }
  }

  predicate RowOf(e: Event, project: Id, device: Id, m: Mutation, at: Stamp) {
    e.project == project && e.eventId == m.eventId && e.device == Some(device) && e.actor == None
        && e.change == m.change
    && e.entityId == m.entityId && e.baseRevision == m.baseRevision && e.entityRevision == m.baseRevision + 1
    && e.occurredAt == m.occurredAt && e.createdAt == at
  }
}
