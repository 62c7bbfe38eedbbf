/** What a device is told about every mutation it pushes, read off the tables: which are stored, which are refused
    and why, and which requests are served at all. */
module BatchAnswers {
  import opened Prelude
  import opened CloudEvents
  import opened DeviceSync
  import opened BatchAborts
  import ProjectionRules
  import CloudLog

  // ---------------------------------------------------------------- one event

  /** The payload is valid, and what it refers to belongs to the project. */
  predicate Admissible(t: Tables, project: Id, m: Mutation) {
    match m.change
    case NoteCreated(note) => note.Some? && note.value.moduleId in t.modules
        && t.modules[note.value.moduleId] == project
    case TaskCreated(task) => task.Some? && task.value.moduleId in t.modules
        && t.modules[task.value.moduleId] == project
    case TaskStatusChanged(status) => status.Some? && m.entityId in t.tasks && t.tasks[m.entityId].project == project
    case MarkerCreated(marker) => marker.Some? && marker.value.moduleId in t.modules
        && t.modules[marker.value.moduleId] == project
    case GraphitiEpisode(envelope) => envelope.Some?
  }

  /** An event is applied if and only if it is admissible and no row takes its key, refused if and only if it is not
      admissible, and an abort otherwise. */
  lemma ProjectedExactly(t: Tables, project: Id, m: Mutation, drawn: Id)
    ensures Project(t, project, m, drawn).Applied? <==> Admissible(t, project, m) && !TakesKey(t, project, m, drawn)
    ensures Project(t, project, m, drawn).Refused? <==> !Admissible(t, project, m)
  {}

  // ---------------------------------------------------------------- one mutation of a batch

  /** The mutation is logged already. */
  predicate Known(w: Workspace, project: Id, m: Mutation) {
    exists e | e in w.events :: e.project == project && e.eventId == m.eventId
  }

  predicate UpToDate(w: Workspace, project: Id, m: Mutation) {
    m.baseRevision == (if (project, m.entityId) in w.revisions then w.revisions[(project, m.entityId)] else 0)
  }

  /** New, based on the stored revision, admissible, and its key is free. */
  predicate Welcome(w: Workspace, project: Id, draft: Draft) {
    && !Known(w, project, draft.mutation) && UpToDate(w, project, draft.mutation)
    && Admissible(w.tables, project, draft.mutation) && !TakesKey(w.tables, project, draft.mutation, draft.drawn)
  }

  /** What the device is told about a mutation that does not enter the log; `None` is an acknowledgement. */
  function Objection(w: Workspace, project: Id, m: Mutation): Option<Conflict> {
    var stored := if (project, m.entityId) in w.revisions then w.revisions[(project, m.entityId)] else 0;
    if Known(w, project, m) then None
    else if !UpToDate(w, project, m) then Some(Conflict(m.eventId, RevisionConflict, m.entityId, stored))
    else Some(Conflict(m.eventId, ProjectionRejected, m.entityId, stored))
  }

  /** The workspace after one stored mutation: one row at the end of the log, one revision more for its entity, and the
      rows the event describes. */
  predicate Entered(w: Workspace, u: Workspace, project: Id, device: Id, draft: Draft, at: Stamp) {
    var m := draft.mutation;
    && ProjectionRules.Mirrors(w.tables, u.tables, project, m, draft.drawn)
    && u.revisions == w.revisions[(project, m.entityId) := m.baseRevision + 1]
    && u.events == w.events + [Event(|w.events| + 1, project, m.eventId, Some(device), None, m.change, m.entityId,
                                     m.baseRevision, m.baseRevision + 1, m.occurredAt, at)]
  }

  /** The progress of a batch over one mutation. */
  predicate Answered(p: Progress, q: Progress, project: Id, device: Id, draft: Draft, at: Stamp) {
    var m := draft.mutation;
    if Welcome(p.workspace, project, draft) then
      && Entered(p.workspace, q.workspace, project, device, draft, at)
      && q.accepted == p.accepted + [m.eventId] && q.conflicts == p.conflicts
    else
      && q.workspace == p.workspace
      && match Objection(p.workspace, project, m)
         case None => q.accepted == p.accepted + [m.eventId] && q.conflicts == p.conflicts
         case Some(c) => q.accepted == p.accepted && q.conflicts == p.conflicts + [c]
  }

  lemma JudgedExactly(w: Workspace, project: Id, device: Id, draft: Draft, at: Stamp)
    ensures var v := Judge(w, project, device, draft, at);
            var stored := StoredRevision(w.revisions, project, draft.mutation.entityId);
            && (v.Stored? <==> Welcome(w, project, draft))
            && (v.Duplicate? <==> Known(w, project, draft.mutation))
            && (v.Stale? <==> !Known(w, project, draft.mutation) && !UpToDate(w, project, draft.mutation))
            && (v.Stale? ==> v.current == stored) && (v.Rejected? ==> v.current == stored)
  {
    hide Project;
    ProjectedExactly(w.tables, project, draft.mutation, draft.drawn);
  }

  lemma StoredEnters(w: Workspace, project: Id, device: Id, draft: Draft, at: Stamp)
    requires Judge(w, project, device, draft, at).Stored?
    ensures Entered(w, Judge(w, project, device, draft, at).next, project, device, draft, at)
  {
    hide Project, ProjectionRules.Mirrors;
    ProjectionRules.ProjectionMirrors(w.tables, project, draft.mutation, draft.drawn);
  }

  lemma AdvanceAnswers(p: Progress, project: Id, device: Id, draft: Draft, at: Stamp)
    requires Advance(p, project, device, draft, at).Some?
    ensures Answered(p, Advance(p, project, device, draft, at).value, project, device, draft, at)
  {
    hide Judge, Welcome, Entered;
    JudgedExactly(p.workspace, project, device, draft, at);
    if Welcome(p.workspace, project, draft) {
      StoredEnters(p.workspace, project, device, draft, at);
    }
  }

  lemma {:induction false} PrefixCommits(w: Workspace, project: Id, device: Id, drafts: seq<Draft>, at: Stamp, n: nat)
    requires n <= |drafts| && Batch(w, project, device, drafts, at).Some?
    ensures Batch(w, project, device, drafts[..n], at).Some?
  {
    hide Advance;
    if n < |drafts| {
      PrefixCommits(w, project, device, drafts[..|drafts| - 1], at, n);
      assert drafts[..|drafts| - 1][..n] == drafts[..n];
    } else {
      assert drafts[..n] == drafts;
    }
  }

  /** Every mutation of a batch that commits is answered as the workspace left by the earlier ones demands: a
      welcome one enters the log, a known one is acknowledged again, any other is refused with the code and the
      revision that apply to it and leaves nothing behind. */
  lemma BatchAnswered(w: Workspace, project: Id, device: Id, drafts: seq<Draft>, at: Stamp, i: nat)
    requires i < |drafts| && Batch(w, project, device, drafts, at).Some?
    ensures var before := Batch(w, project, device, drafts[..i], at);
            var after := Batch(w, project, device, drafts[..i + 1], at);
            && before.Some? && after.Some?
            && Answered(before.value, after.value, project, device, drafts[i], at)
  {
    hide Batch, Advance, Answered;
    PrefixCommits(w, project, device, drafts, at, i);
    PrefixCommits(w, project, device, drafts, at, i + 1);
    assert drafts[..i + 1] == drafts[..i] + [drafts[i]];
    BatchSnoc(w, project, device, drafts[..i], drafts[i], at);
    AdvanceAnswers(Batch(w, project, device, drafts[..i], at).value, project, device, drafts[i], at);
  }

  // ---------------------------------------------------------------- one request

  /** The device is registered in the project and not revoked. */
  predicate MaySync(devices: map<Id, DeviceRow>, project: Id, device: Id) {
    device in devices && devices[device].project == project && !devices[device].status.Revoked?
  }

  /** The device's row after a call. */
  predicate Seen(before: DeviceRow, after: DeviceRow, inventory: Option<string>, at: Stamp) {
    && after == DeviceRow(before.project, Online, after.inventory, at, at)
    && after.inventory == match inventory case Some(text) => text case None => before.inventory
  }

  /** Which requests are served: exactly those of a registered device that is not revoked, whose batch meets no taken
      key. The reply holds the answers of the batch, and no other device's row changes. */
  lemma ServedExactly(c: Cloud, project: Id, device: Id, cursor: nat, drafts: seq<Draft>, inventory: Option<string>,
                      at: Stamp)
    ensures var served := Sync(c, project, device, cursor, drafts, inventory, at);
            && (served.Denied? <==> !MaySync(c.devices, project, device))
            && (served.Aborted? <==>
                  && MaySync(c.devices, project, device)
                  && exists i | 0 <= i < |drafts| :: ClashesAt(c.workspace, project, device, drafts, at, i))
            && (served.Served? ==>
                  && Batch(c.workspace, project, device, drafts, at)
                       == Some(Progress(served.cloud.workspace, served.reply.accepted, served.reply.conflicts))
                  && served.cloud.devices.Keys == c.devices.Keys
                  && Seen(c.devices[device], served.cloud.devices[device], inventory, at)
                  && forall d | d in c.devices && d != device :: served.cloud.devices[d] == c.devices[d])
  {
    hide Batch, RowsAfter, MaxSequence, ClashesAt;
    BatchAbortsExactly(c.workspace, project, device, drafts, at);
  }

  // ---------------------------------------------------------------- a revoked device

  /** No row of the log from `since` on comes from the device, and none of its requests was answered since. */
  predicate ShutOut(s: System, project: Id, device: Id, rows: nat, answers: nat) {
    && (forall i | rows <= i < |s.cloud.workspace.events| ::
          !(s.cloud.workspace.events[i].project == project && s.cloud.workspace.events[i].device == Some(device)))
    && (forall j | answers <= j < |s.answers| && s.answers[j].request < |s.sent| ::
          !(s.sent[s.answers[j].request].project == project && s.sent[s.answers[j].request].device == device))
    && (forall j | 0 <= j < |s.answers| :: s.answers[j].request < |s.sent|)
  }

  lemma ServeShutOut(s: System, l: Label, project: Id, device: Id, rows: nat, answers: nat)
    requires ShutOut(s, project, device, rows, answers) && !MaySync(s.cloud.devices, project, device) && l.Serve?
    ensures ShutOut(Next(s, l), project, device, rows, answers)
  {
    hide RowsAfter, MaxSequence, Batch;
    if Enabled(s, l) {
      var r := s.sent[l.request];
      if Batch(s.cloud.workspace, r.project, r.device, l.drafts, l.at).Some? {
        BatchExtendsLog(s.cloud.workspace, r.project, r.device, l.drafts, l.at);
        var longer := Batch(s.cloud.workspace, r.project, r.device, l.drafts, l.at).value.workspace.events;
        assert forall i | |s.cloud.workspace.events| <= i < |longer| ::
            longer[i] == longer[|s.cloud.workspace.events|..][i - |s.cloud.workspace.events|];
      }
    }
  }

  lemma CloudStepShutOut(s: System, l: Label, project: Id, device: Id, rows: nat, answers: nat)
    requires ShutOut(s, project, device, rows, answers) && l.CloudStep?
    ensures ShutOut(Next(s, l), project, device, rows, answers)
  {
    hide StoreEpisode;
  }

  lemma OtherShutOut(s: System, l: Label, project: Id, device: Id, rows: nat, answers: nat)
    requires ShutOut(s, project, device, rows, answers) && !l.Serve? && !l.CloudStep?
    ensures ShutOut(Next(s, l), project, device, rows, answers)
  {}

  /** While a device is not registered in the project or revoked, nothing it ever sent enters the project's log and none
      of its requests is answered, whatever else happens. */
  lemma {:induction false} RevokedIsShutOut(s: System, labels: seq<Label>, more: seq<Label>, project: Id, device: Id)
    requires Start(s)
    requires forall i | 0 <= i < |more| ::
               !MaySync(Run(Run(s, labels), more[..i]).cloud.devices, project, device)
    ensures var before := Run(s, labels);
            ShutOut(Run(before, more), project, device, |before.cloud.workspace.events|, |before.answers|)
  {
    hide Next, ShutOut, MaySync;
    var before := Run(s, labels);
    if more == [] {
      NothingSince(s, labels, project, device);
    } else {
      var few := more[..|more| - 1];
      forall i | 0 <= i < |few| ensures few[..i] == more[..i] {}
      RevokedIsShutOut(s, labels, few, project, device);
      var t := Run(before, few);
      assert !MaySync(Run(before, more[..|few|]).cloud.devices, project, device);
      var rows, answers := |before.cloud.workspace.events|, |before.answers|;
      match more[|few|]
      case Serve(_, _, _) => ServeShutOut(t, more[|few|], project, device, rows, answers);
      case CloudStep(_) => CloudStepShutOut(t, more[|few|], project, device, rows, answers);
      case _ => OtherShutOut(t, more[|few|], project, device, rows, answers);
    }
  }

  lemma NothingSince(s: System, labels: seq<Label>, project: Id, device: Id)
    requires Start(s)
    ensures var t := Run(s, labels);
            ShutOut(Run(t, []), project, device, |t.cloud.workspace.events|, |t.answers|)
  {
    hide Run, Start;
    AnswersAreSent(s, labels);
    RunNothing(Run(s, labels));
  }

  lemma RunNothing(s: System)
    ensures Run(s, []) == s
  {}

  lemma AnswersAreSent(s: System, labels: seq<Label>)
    requires Start(s)
    ensures forall j | 0 <= j < |Run(s, labels).answers| ::
              Run(s, labels).answers[j].request < |Run(s, labels).sent|
  {
    hide Run;
    RunKeeps(s, labels);
    var t := Run(s, labels);
    forall j | 0 <= j < |t.answers| ensures t.answers[j].request < |t.sent| {
      assert AnswerOk(t.cloud.workspace.events, t.sent, t.answers[j]);
    }
  }
}
