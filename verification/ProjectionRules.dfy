/** What projecting pushed events can and cannot do to the workspace tables, for one event, a batch and a whole run. */
module ProjectionRules {
  import opened Prelude
  import opened CloudEvents
  import CloudLog

  // ---------------------------------------------------------------- rows stay inside their project

  /** Every note, task and marker belongs to a module of its own project. */
  predicate TenantSafe(t: Tables) {
    && (forall id | id in t.notes :: Owns(t, t.notes[id].project, t.notes[id].moduleId))
    && (forall id | id in t.tasks :: Owns(t, t.tasks[id].project, t.tasks[id].moduleId))
    && (forall id | id in t.markers :: Owns(t, t.markers[id].project, t.markers[id].moduleId))
  }

  /** Every row of `t` that is not the project's is in `u` unchanged. */
  predicate Keeps(t: Tables, u: Tables, project: Id) {
    && (forall id | id in t.notes && t.notes[id].project != project :: id in u.notes && u.notes[id] == t.notes[id])
    && (forall id | id in t.tasks && t.tasks[id].project != project :: id in u.tasks && u.tasks[id] == t.tasks[id])
    && (forall id | id in t.markers && t.markers[id].project != project ::
        id in u.markers && u.markers[id] == t.markers[id])
    && (forall key | key in t.episodes && key.0 != project :: key in u.episodes && u.episodes[key] == t.episodes[key])
  }

  /** The tables agree on everything that is not the given project's. */
  predicate SameElsewhere(t: Tables, u: Tables, project: Id) {
    t.modules == u.modules && Keeps(t, u, project) && Keeps(u, t, project)
  }

  /** Nothing is deleted or overwritten; an existing task changes at most its status and its update time. */
  predicate OnlyAdds(t: Tables, u: Tables) {
    && (forall id | id in t.notes :: id in u.notes && u.notes[id] == t.notes[id])
    && (forall id | id in t.markers :: id in u.markers && u.markers[id] == t.markers[id])
    && (forall key | key in t.episodes :: key in u.episodes && u.episodes[key] == t.episodes[key])
    && forall id | id in t.tasks ::
         id in u.tasks && t.tasks[id].(status := u.tasks[id].status, updatedAt := u.tasks[id].updatedAt) == u.tasks[id]
  }

  // ---------------------------------------------------------------- what one event adds

  /** The table gained exactly one row. */
  predicate Gained<K, V(==)>(before: map<K, V>, after: map<K, V>, key: K, row: V) {
    key !in before && after == before[key := row]
  }

  /** A created note carries the request's fields, and one open marker points back at it. */
  predicate NoteMirrored(t: Tables, u: Tables, project: Id, m: Mutation, drawn: Id, r: NoteRequest) {
    && u == t.(notes := u.notes, markers := u.markers) && m.entityId in u.notes && drawn in u.markers
    && var n, k := u.notes[m.entityId], u.markers[drawn];
    && Gained(t.notes, u.notes, m.entityId, n) && Gained(t.markers, u.markers, drawn, k)
    && Owns(t, project, r.moduleId) && n.moduleId == r.moduleId && n.title == r.title && n.content == r.content
         && n.kind == r.kind && n.author == r.author
    && k.sourceKind == "note" && k.sourceId == m.entityId && k.kind == n.kind && k.state == "open"
    && k.project == n.project == project && k.moduleId == n.moduleId && k.title == n.title
         && k.createdAt == n.createdAt == m.occurredAt
  }

  predicate TaskMirrored(t: Tables, u: Tables, project: Id, m: Mutation, drawn: Id, r: TaskRequest) {
    && u == t.(tasks := u.tasks, markers := u.markers) && m.entityId in u.tasks && drawn in u.markers
    && var n, k := u.tasks[m.entityId], u.markers[drawn];
    && Gained(t.tasks, u.tasks, m.entityId, n) && Gained(t.markers, u.markers, drawn, k)
    && Owns(t, project, r.moduleId) && n.moduleId == r.moduleId && n.title == r.title && n.description == r.description
         && n.priority == r.priority && n.status == "todo"
    && k.sourceKind == "task" && k.sourceId == m.entityId && k.kind == "task" && k.state == "open"
    && k.project == n.project == project && k.moduleId == n.moduleId && k.title == n.title
    && k.createdAt == n.createdAt == n.updatedAt == m.occurredAt
  }

  predicate StatusMirrored(t: Tables, u: Tables, project: Id, m: Mutation, status: string) {
    && u == t.(tasks := u.tasks) && m.entityId in t.tasks && t.tasks[m.entityId].project == project
    && u.tasks == t.tasks[m.entityId := t.tasks[m.entityId].(status := status, updatedAt := m.occurredAt)]
  }

  predicate MarkerMirrored(t: Tables, u: Tables, project: Id, m: Mutation, r: MarkerRequest) {
    && u == t.(markers := u.markers) && Owns(t, project, r.moduleId)
    && exists key | key in u.markers :: (r.id == Some(key) || (r.id == None && key == m.entityId))
         && Gained(t.markers, u.markers, key,
                   Marker(project, r.moduleId, r.kind, r.title, r.state, r.sourceKind, r.sourceId, m.occurredAt))
  }

  predicate EpisodeMirrored(t: Tables, u: Tables, project: Id, envelope: Envelope) {
    && u == t.(episodes := u.episodes) && (project, envelope.episodeId) in u.episodes
    && (t.episodes == u.episodes || Gained(t.episodes, u.episodes, (project, envelope.episodeId), envelope))
  }

  /** What an applied event leaves behind. */
  predicate Mirrors(t: Tables, u: Tables, project: Id, m: Mutation, drawn: Id) {
    match m.change
    case NoteCreated(Some(r)) => NoteMirrored(t, u, project, m, drawn, r)
    case TaskCreated(Some(r)) => TaskMirrored(t, u, project, m, drawn, r)
    case TaskStatusChanged(Some(status)) => StatusMirrored(t, u, project, m, status)
    case MarkerCreated(Some(r)) => MarkerMirrored(t, u, project, m, r)
    case GraphitiEpisode(Some(envelope)) => EpisodeMirrored(t, u, project, envelope)
    case _ => false
  }

  lemma MarkerIsMirrored(t: Tables, project: Id, m: Mutation, drawn: Id)
    requires m.change.MarkerCreated? && Project(t, project, m, drawn).Applied?
    ensures MarkerMirrored(t, Project(t, project, m, drawn).tables, project, m, m.change.marker.value)
  {
    var r := m.change.marker.value;
    var u := Project(t, project, m, drawn).tables;
    var key := if r.id.Some? then r.id.value else m.entityId;
    assert key in u.markers;
    assert Gained(t.markers, u.markers, key,
                  Marker(project, r.moduleId, r.kind, r.title, r.state, r.sourceKind, r.sourceId, m.occurredAt));
  }

  /** Every applied event leaves exactly the rows its request describes. */
  lemma ProjectionMirrors(t: Tables, project: Id, m: Mutation, drawn: Id)
    requires Project(t, project, m, drawn).Applied?
    ensures Mirrors(t, Project(t, project, m, drawn).tables, project, m, drawn)
  {
    hide MarkerMirrored;
    if m.change.MarkerCreated? {
      MarkerIsMirrored(t, project, m, drawn);
    }
  }

  /** A projection stays inside its project, overwrites nothing and keeps rows in their project. */
  lemma ProjectionRespects(t: Tables, project: Id, m: Mutation, drawn: Id)
    requires Project(t, project, m, drawn).Applied?
    ensures var u := Project(t, project, m, drawn).tables;
            SameElsewhere(t, u, project) && OnlyAdds(t, u) && (TenantSafe(t) ==> TenantSafe(u))
  {
    hide Project, SameElsewhere, OnlyAdds, TenantSafe, NoteMirrored, TaskMirrored, StatusMirrored, MarkerMirrored,
        EpisodeMirrored;
    ProjectionMirrors(t, project, m, drawn);
    var u := Project(t, project, m, drawn).tables;
    match m.change
    case NoteCreated(Some(r)) => NoteRespects(t, u, project, m, drawn, r);
    case TaskCreated(Some(r)) => TaskRespects(t, u, project, m, drawn, r);
    case TaskStatusChanged(Some(status)) => StatusRespects(t, u, project, m, status);
    case MarkerCreated(Some(r)) => MarkerRespects(t, u, project, m, r);
    case GraphitiEpisode(Some(envelope)) => EpisodeRespects(t, u, project, envelope);
  }

  lemma NoteStaysInside(t: Tables, u: Tables, project: Id, m: Mutation, drawn: Id, r: NoteRequest)
    requires NoteMirrored(t, u, project, m, drawn, r) && TenantSafe(t)
    ensures TenantSafe(u)
  {}

  lemma NoteRespects(t: Tables, u: Tables, project: Id, m: Mutation, drawn: Id, r: NoteRequest)
    requires NoteMirrored(t, u, project, m, drawn, r)
    ensures SameElsewhere(t, u, project) && OnlyAdds(t, u) && (TenantSafe(t) ==> TenantSafe(u))
  {
    hide TenantSafe;
    if TenantSafe(t) {
      NoteStaysInside(t, u, project, m, drawn, r);
    }
  }

  lemma TaskStaysInside(t: Tables, u: Tables, project: Id, m: Mutation, drawn: Id, r: TaskRequest)
    requires TaskMirrored(t, u, project, m, drawn, r) && TenantSafe(t)
    ensures TenantSafe(u)
  {}

  lemma TaskRespects(t: Tables, u: Tables, project: Id, m: Mutation, drawn: Id, r: TaskRequest)
    requires TaskMirrored(t, u, project, m, drawn, r)
    ensures SameElsewhere(t, u, project) && OnlyAdds(t, u) && (TenantSafe(t) ==> TenantSafe(u))
  {
    hide TenantSafe;
    if TenantSafe(t) {
      TaskStaysInside(t, u, project, m, drawn, r);
    }
  }

  lemma StatusStaysInside(t: Tables, u: Tables, project: Id, m: Mutation, status: string)
    requires StatusMirrored(t, u, project, m, status) && TenantSafe(t)
    ensures TenantSafe(u)
  {}

  lemma StatusRespects(t: Tables, u: Tables, project: Id, m: Mutation, status: string)
    requires StatusMirrored(t, u, project, m, status)
    ensures SameElsewhere(t, u, project) && OnlyAdds(t, u) && (TenantSafe(t) ==> TenantSafe(u))
  {
    hide TenantSafe;
    if TenantSafe(t) {
      StatusStaysInside(t, u, project, m, status);
    }
  }

  lemma MarkerStaysInside(t: Tables, u: Tables, project: Id, m: Mutation, r: MarkerRequest)
    requires MarkerMirrored(t, u, project, m, r) && TenantSafe(t)
    ensures TenantSafe(u)
  {}

  lemma MarkerRespects(t: Tables, u: Tables, project: Id, m: Mutation, r: MarkerRequest)
    requires MarkerMirrored(t, u, project, m, r)
    ensures SameElsewhere(t, u, project) && OnlyAdds(t, u) && (TenantSafe(t) ==> TenantSafe(u))
  {
    hide TenantSafe;
    if TenantSafe(t) {
      MarkerStaysInside(t, u, project, m, r);
    }
  }

  lemma EpisodeStaysInside(t: Tables, u: Tables, project: Id, envelope: Envelope)
    requires EpisodeMirrored(t, u, project, envelope) && TenantSafe(t)
    ensures TenantSafe(u)
  {}

  lemma EpisodeRespects(t: Tables, u: Tables, project: Id, envelope: Envelope)
    requires EpisodeMirrored(t, u, project, envelope)
    ensures SameElsewhere(t, u, project) && OnlyAdds(t, u) && (TenantSafe(t) ==> TenantSafe(u))
  {
    hide TenantSafe;
    if TenantSafe(t) {
      EpisodeStaysInside(t, u, project, envelope);
    }
  }

  // ---------------------------------------------------------------- batches and runs

  lemma SameElsewhereTransitive(a: Tables, b: Tables, c: Tables, project: Id)
    requires SameElsewhere(a, b, project) && SameElsewhere(b, c, project)
    ensures SameElsewhere(a, c, project)
  {}

  lemma OnlyAddsTransitive(a: Tables, b: Tables, c: Tables)
    requires OnlyAdds(a, b) && OnlyAdds(b, c)
    ensures OnlyAdds(a, c)
  {}

  lemma Reflexive(t: Tables, project: Id)
    ensures SameElsewhere(t, t, project) && OnlyAdds(t, t)
  {}

  /** Replaying any list of pushed events keeps other projects' rows, overwrites nothing and keeps rows in their
      project. */
  lemma {:induction false} ReplayRespects(t: Tables, project: Id, drafts: seq<Draft>)
    requires Replay(t, project, drafts).Applied?
    ensures var u := Replay(t, project, drafts).tables;
            SameElsewhere(t, u, project) && OnlyAdds(t, u) && (TenantSafe(t) ==> TenantSafe(u))
  {
    hide SameElsewhere, OnlyAdds, TenantSafe, Project;
    if drafts == [] {
      Reflexive(t, project);
    } else {
      var last := |drafts| - 1;
      ReplayRespects(t, project, drafts[..last]);
      var u := Replay(t, project, drafts[..last]).tables;
      var m, drawn := drafts[last].mutation, drafts[last].drawn;
      ProjectionRespects(u, project, m, drawn);
      SameElsewhereTransitive(t, u, Replay(t, project, drafts).tables, project);
      OnlyAddsTransitive(t, u, Replay(t, project, drafts).tables);
    }
  }

  /** A device's batch never reads on to or changes another project: not its rows, not its revisions, not its events. */
  lemma BatchStaysInProject(w: Workspace, project: Id, device: Id, drafts: seq<Draft>, at: Stamp, other: Id, entity: Id)
    requires Batch(w, project, device, drafts, at).Some? && other != project
    ensures var w' := Batch(w, project, device, drafts, at).value.workspace;
            && SameElsewhere(w.tables, w'.tables, project) && OnlyAdds(w.tables, w'.tables)
            && (TenantSafe(w.tables) ==> TenantSafe(w'.tables))
            && StoredRevision(w'.revisions, other, entity) == StoredRevision(w.revisions, other, entity)
            && CloudLog.EntityEvents(w'.events, other, entity) == CloudLog.EntityEvents(w.events, other, entity)
  {
    hide SameElsewhere, OnlyAdds, TenantSafe, Project, Batch, StoredPart, CloudLog.EntityEvents;
    BatchIsRedoLog(w, project, device, drafts, at);
    ReplayRespects(w.tables, project, StoredPart(w, project, device, drafts, at));
    BatchLeavesRevisions(w, project, device, drafts, at, other, entity);
    var events := Batch(w, project, device, drafts, at).value.workspace.events;
    BatchExtendsLog(w, project, device, drafts, at);
    assert events == w.events + events[|w.events|..];
    ForeignRows(w.events, events[|w.events|..], other, entity);
  }

  lemma {:induction false} BatchLeavesRevisions(w: Workspace, project: Id, device: Id, drafts: seq<Draft>, at: Stamp,
                                                other: Id, entity: Id)
    requires Batch(w, project, device, drafts, at).Some? && other != project
    ensures StoredRevision(Batch(w, project, device, drafts, at).value.workspace.revisions, other, entity)
              == StoredRevision(w.revisions, other, entity)
  {
    hide Project;
    if drafts != [] {
      BatchLeavesRevisions(w, project, device, drafts[..|drafts| - 1], at, other, entity);
    }
  }

  lemma {:induction false} ForeignRows(events: seq<Event>, more: seq<Event>, other: Id, entity: Id)
    requires forall e | e in more :: e.project != other
    ensures CloudLog.EntityEvents(events + more, other, entity) == CloudLog.EntityEvents(events, other, entity)
  {
    if more == [] {
      assert events + more == events;
    } else {
      ForeignRows(events, more[..|more| - 1], other, entity);
      assert (events + more)[..|events + more| - 1] == events + more[..|more| - 1];
    }
  }
}
