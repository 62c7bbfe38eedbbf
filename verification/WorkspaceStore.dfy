/**
 The cloud store: its tables are fields that the transactions update in place. Every method is proved against the
 functions of modules CloudEvents, CloudLog, DeviceSync and DeviceJobs; an exception restores what its transaction
 wrote.
 */
module CloudStore {
  import opened Prelude
  import opened CloudEvents
  import opened DeviceSync
  import DeviceJobs
  import CloudLog

  /** How the projection of one event ends. */
  datatype Ended = Done | LookupOrValueError | IntegrityError

  datatype SyncOutcome = PermissionError | IntegrityFailure | Synced(reply: Reply)

  /** What a claim hands to the device. */
  datatype Delivery = Delivery(job: Id, lease: Id, leaseExpiresAt: Stamp, expiresAt: Stamp)

  /** A delivery states the lease that its job's row holds. */
  predicate Delivers(jobs: DeviceJobs.Jobs, d: Delivery) {
    && d.job in jobs && jobs[d.job].status == DeviceJobs.Leased && jobs[d.job].leaseId == Some(d.lease)
    && jobs[d.job].leaseExpiresAt == Some(d.leaseExpiresAt) && jobs[d.job].expiresAt == d.expiresAt
  }

  /** The lease token and the clock reading a claim draws for one row. */
  datatype Draw = Draw(lease: Id, reading: Stamp)

  class WorkspaceStore {
    var devices: map<Id, DeviceRow>
    var modules: map<Id, Id>
    var notes: map<Id, Note>
    var tasks: map<Id, Task>
    var markers: map<Id, Marker>
    var episodes: map<(Id, Id), Envelope>
    var revisions: map<(Id, Id), nat>
    var events: seq<Event>
    var jobs: DeviceJobs.Jobs

    constructor ()
      ensures State() == CloudLog.NO_EVENTS && devices == map[] && jobs == map[]
    {
      devices, modules, notes, tasks, markers := map[], map[], map[], map[], map[];
      episodes, revisions, events, jobs := map[], map[], [], map[];
    }

    function TablesNow(): Tables
      reads this
    {
      Tables(modules, notes, tasks, markers, episodes)
    }

    function State(): Workspace
      reads this
    {
      Workspace(TablesNow(), revisions, events)
    }

    /** What a rollback writes back. */
    method Restore(w: Workspace)
      modifies this
      ensures State() == w && devices == old(devices) && jobs == old(jobs)
    {
      modules, notes, tasks, markers := w.tables.modules, w.tables.notes, w.tables.tasks, w.tables.markers;
      episodes, revisions, events := w.tables.episodes, w.revisions, w.events;
    }

    // ------------------------------------------------------------ events

    method ApplyRemoteProjection(project: Id, m: Mutation, drawn: Id) returns (r: Ended)
      modifies this
      ensures devices == old(devices) && jobs == old(jobs) && revisions == old(revisions) && events == old(events)
      ensures match Project(old(TablesNow()), project, m, drawn)
              case Applied(t) => r == Done && TablesNow() == t
              case Refused => r == LookupOrValueError && TablesNow() == old(TablesNow())
              case Failed => r == IntegrityError
    {
      match m.change {
      case NoteCreated(Some(n)) =>
        if n.moduleId !in modules || modules[n.moduleId] != project { return LookupOrValueError; }
        if m.entityId in notes { return IntegrityError; }
        notes := notes[m.entityId := Note(project, n.moduleId, n.title, n.content, n.kind, n.author, m.occurredAt)];
        if drawn in markers { return IntegrityError; }
        markers := markers[drawn := Marker(project, n.moduleId, n.kind, n.title, "open", "note", m.entityId,
                                           m.occurredAt)];
      case TaskCreated(Some(k)) =>
        if k.moduleId !in modules || modules[k.moduleId] != project { return LookupOrValueError; }
        if m.entityId in tasks { return IntegrityError; }
        tasks := tasks[m.entityId := Task(project, k.moduleId, k.title, k.description, k.priority, "todo",
                                          m.occurredAt, m.occurredAt)];
        if drawn in markers { return IntegrityError; }
        markers := markers[drawn := Marker(project, k.moduleId, "task", k.title, "open", "task", m.entityId,
                                           m.occurredAt)];
      case TaskStatusChanged(Some(status)) =>
        if m.entityId !in tasks || tasks[m.entityId].project != project { return LookupOrValueError; }
        tasks := tasks[m.entityId := tasks[m.entityId].(status := status, updatedAt := m.occurredAt)];
      case MarkerCreated(Some(k)) =>
        if k.moduleId !in modules || modules[k.moduleId] != project { return LookupOrValueError; }
        var key := if k.id.Some? then k.id.value else m.entityId;
        if key in markers { return IntegrityError; }
        markers := markers[key := Marker(project, k.moduleId, k.kind, k.title, k.state, k.sourceKind, k.sourceId,
                                         m.occurredAt)];
      case GraphitiEpisode(Some(e)) =>
        if (project, e.episodeId) !in episodes {
          episodes := episodes[(project, e.episodeId) := e];
        }
      case _ => return LookupOrValueError;
      }
      r := Done;
    }

    /** One pass of the sync loop over one mutation. */
    method PushOne(project: Id, device: Id, draft: Draft, at: Stamp, accepted: seq<Id>, conflicts: seq<Conflict>)
      returns (failed: bool, accepted': seq<Id>, conflicts': seq<Conflict>)
      modifies this
      ensures devices == old(devices) && jobs == old(jobs)
      ensures match Advance(Progress(old(State()), accepted, conflicts), project, device, draft, at)
              case None => failed
              case Some(p) => !failed && State() == p.workspace && accepted' == p.accepted && conflicts' == p.conflicts
    {
      hide Project;
      var m := draft.mutation;
      failed, accepted', conflicts' := false, accepted, conflicts;
      if Logged(events, project, m.eventId) {
        accepted' := accepted + [m.eventId];
        return;
      }
      var current := if (project, m.entityId) in revisions then revisions[(project, m.entityId)] else 0;
      if m.baseRevision != current {
        conflicts' := conflicts + [Conflict(m.eventId, RevisionConflict, m.entityId, current)];
        return;
      }
      var ended := ApplyRemoteProjection(project, m, draft.drawn);
      if ended == IntegrityError {
        failed := true;
        return;
      }
      if ended == LookupOrValueError {
        conflicts' := conflicts + [Conflict(m.eventId, ProjectionRejected, m.entityId, current)];
        return;
      }
      var next := current + 1;
      revisions := revisions[(project, m.entityId) := next];
      events := events + [Event(|events| + 1, project, m.eventId, Some(device), None, m.change, m.entityId,
                                m.baseRevision, next, m.occurredAt, at)];
      accepted' := accepted + [m.eventId];
    }

    /** The loop over the pushed mutations; `failed` is the exception that leaves it. */
    method PushAll(project: Id, device: Id, drafts: seq<Draft>, at: Stamp)
      returns (failed: bool, accepted: seq<Id>, conflicts: seq<Conflict>)
      modifies this
      ensures devices == old(devices) && jobs == old(jobs)
      ensures failed == Batch(old(State()), project, device, drafts, at).None?
      ensures !failed ==>
                Batch(old(State()), project, device, drafts, at) == Some(Progress(State(), accepted, conflicts))
    {
      hide Batch, Advance;
      ghost var start := State();
      BatchNil(start, project, device, at);
      failed, accepted, conflicts := false, [], [];
      assert drafts[..0] == [];
      var i := 0;
      while i < |drafts|
        invariant 0 <= i <= |drafts| && devices == old(devices) && jobs == old(jobs)
        invariant Batch(start, project, device, drafts[..i], at) == Some(Progress(State(), accepted, conflicts))
      {
        assert drafts[..i + 1] == drafts[..i] + [drafts[i]];
        BatchSnoc(start, project, device, drafts[..i], drafts[i], at);
        failed, accepted, conflicts := PushOne(project, device, drafts[i], at, accepted, conflicts);
        if failed {
          BrokenBatch(start, project, device, drafts, at, i + 1);
          return;
        }
        i := i + 1;
      }
      assert drafts[..|drafts|] == drafts;
    }

    /** The event transaction of a sync call. */
    method SyncEvents(project: Id, device: Id, cursor: nat, drafts: seq<Draft>, inventory: Option<string>, at: Stamp)
      returns (r: SyncOutcome)
      modifies this
      ensures jobs == old(jobs)
      ensures match Sync(Cloud(old(devices), old(State())), project, device, cursor, drafts, inventory, at)
              case Denied => r == PermissionError && State() == old(State()) && devices == old(devices)
              case Aborted => r == IntegrityFailure && State() == old(State()) && devices == old(devices)
              case Served(c, reply) => r == Synced(reply) && State() == c.workspace && devices == c.devices
    {
      hide Batch;
      if device !in devices || devices[device].project != project || devices[device].status == Revoked {
        return PermissionError;
      }
      var saved, savedDevices := State(), devices;
      devices := devices[device := devices[device].(status := Online, lastSeenAt := at,
                 inventory := if inventory.Some? then inventory.value else devices[device].inventory)];
      var failed, accepted, conflicts := PushAll(project, device, drafts, at);
      if failed {
        Restore(saved);
        devices := savedDevices;
        return IntegrityFailure;
      }
      var page := FirstPage(RowsAfter(events, project, cursor));
      var serverCursor := MaxSequence(events, project);
      devices := devices[device := devices[device].(lastSyncedAt := at)];
      r := Synced(Reply(accepted, conflicts, page, serverCursor));
    }

    /** The SELECT of a recorded cloud event; it runs before the transaction opens. */
    method ReadRevision(project: Id, entity: Id) returns (read: nat)
      ensures read == StoredRevision(revisions, project, entity)
    {
      read := if (project, entity) in revisions then revisions[(project, entity)] else 0;
    }

    /** The write block of a recorded cloud event, with the revision that was read for it. */
    method WriteCloudEvent(project: Id, actor: Option<Id>, change: Change, entity: Id, read: nat, eventId: Id,
                           occurredAt: Option<Stamp>, at: Stamp) returns (raised: bool)
      modifies this
      ensures devices == old(devices) && jobs == old(jobs)
      ensures match CloudLog.RecordWrite(old(State()), project, actor, change, entity, read, eventId, occurredAt, at)
              case None => raised && State() == old(State())
              case Some(w) => !raised && State() == w
    {
      var saved := State();
      revisions := revisions[(project, entity) := read + 1];
      var when := if occurredAt.Some? then occurredAt.value else at;
      if change.GraphitiEpisode? {
        if change.envelope.None? {
          Restore(saved);
          return true;
        }
        var e := change.envelope.value;
        if (project, e.episodeId) !in episodes {
          episodes := episodes[(project, e.episodeId) := e];
        }
      }
      if Logged(events, project, eventId) {
        Restore(saved);
        return true;
      }
      events := events + [Event(|events| + 1, project, eventId, None, actor, change, entity, read, read + 1, when, at)];
      raised := false;
    }

    // ------------------------------------------------------------ jobs

    method ExpireAndRecoverDeviceJobs(at: Stamp)
      modifies this`jobs
      ensures jobs == DeviceJobs.Sweep(old(jobs), at)
    {
      jobs := map id | id in jobs :: DeviceJobs.Recovered(jobs[id], at);
      jobs := map id | id in jobs :: DeviceJobs.Lapsed(jobs[id], at);
    }

    /** A cloud event that nothing interleaves: read and write together number the entity's next row and keep the
        ledger. */
    method RecordCloudEvent(project: Id, actor: Option<Id>, change: Change, entity: Id, eventId: Id,
                            occurredAt: Option<Stamp>, at: Stamp) returns (raised: bool)
      modifies this
      ensures devices == old(devices) && jobs == old(jobs)
      ensures raised <==> change == GraphitiEpisode(None) || Logged(old(events), project, eventId)
      ensures raised ==> State() == old(State())
      ensures !raised ==>
                var base := StoredRevision(old(revisions), project, entity);
                var when := if occurredAt.Some? then occurredAt.value else at;
                && events == old(events)
                   + [Event(|old(events)| + 1, project, eventId, None, actor, change, entity, base, base + 1, when, at)]
                && StoredRevision(revisions, project, entity) == base + 1
      ensures CloudLog.Ledger(old(State())) ==> CloudLog.Ledger(State())
    {
      hide CloudLog.Ledger;
      var read := ReadRevision(project, entity);
      ghost var before := State();
      raised := WriteCloudEvent(project, actor, change, entity, read, eventId, occurredAt, at);
      if CloudLog.Ledger(before) {
        CloudLog.AfterLedger(before, CloudLog.Record(project, actor, change, entity, read, eventId, occurredAt, at));
      }
    }

    /** `workspaceKnown` is the lookup of the workspace that the payload may name. */
    method CreateDeviceJob(id: Id, project: Id, device: Id, workspaceKnown: bool, seconds: nat, at: Stamp,
                           reading: Stamp)
      returns (raised: bool)
      modifies this`jobs
      ensures var registered := Authorised(devices, project, device) && workspaceKnown;
              match DeviceJobs.Create(old(jobs), id, project, device, registered, seconds, at, reading)
              case None => raised && jobs == old(jobs)
              case Some(next) => !raised && jobs == next
    {
      var saved := jobs;
      ExpireAndRecoverDeviceJobs(at);
      if device !in devices || devices[device].project != project || devices[device].status == Revoked {
        jobs := saved;
        return true;
      }
      if !workspaceKnown || id in jobs {
        jobs := saved;
        return true;
      }
      jobs := jobs[id := DeviceJobs.Job(project, device, DeviceJobs.PendingApproval,
                                        reading + seconds * DeviceJobs.SECOND, at,
                                        None, None, None, None, None, None, None)];
      raised := false;
    }

    method ApproveDeviceJob(project: Id, id: Id, approver: Id, approved: bool, at: Stamp) returns (updated: bool)
      modifies this`jobs
      ensures jobs == DeviceJobs.Approve(old(jobs), project, id, approver, approved, at)
      ensures updated == DeviceJobs.Approvable(DeviceJobs.Sweep(old(jobs), at), project, id)
    {
      ExpireAndRecoverDeviceJobs(at);
      updated := id in jobs && jobs[id].project == project && jobs[id].status == DeviceJobs.PendingApproval;
      if updated {
        var status := if approved then DeviceJobs.Queued else DeviceJobs.Cancelled;
        jobs := jobs[id := jobs[id].(status := status, approvedAt := Some(at), approvedBy := Some(approver))];
      }
    }

    /** SELECT of the claimable jobs, oldest first. */
    method SelectClaimable(project: Id, device: Id, at: Stamp, limit: nat) returns (ids: seq<Id>)
      ensures DeviceJobs.IsSelection(jobs, project, device, at, limit, ids)
    {
      ids := [];
      var left := set id | id in jobs && DeviceJobs.Claimable(jobs, project, device, at, id);
      while |ids| < limit && left != {}
        invariant |ids| <= limit
        invariant forall id :: id in left <==>
                    id in jobs && DeviceJobs.Claimable(jobs, project, device, at, id) && id !in ids
        invariant forall i | 0 <= i < |ids| :: DeviceJobs.Claimable(jobs, project, device, at, ids[i])
        invariant forall i, j | 0 <= i < j < |ids| ::
                    ids[i] != ids[j] && jobs[ids[i]].createdAt <= jobs[ids[j]].createdAt
        invariant forall i, id | 0 <= i < |ids| && id in left :: jobs[ids[i]].createdAt <= jobs[id].createdAt
        decreases limit - |ids|
      {
        ghost var oldest := DeviceJobs.OldestExists(jobs, left);
        var id :| id in left && forall k | k in left :: jobs[id].createdAt <= jobs[k].createdAt;
        ids := ids + [id];
        left := left - {id};
      }
    }

    /** UPDATE .. WHERE id = ? AND status = 'queued', and the delivery read back when it hit the row. */
    method LeaseJob(id: Id, draw: Draw) returns (leased: bool, delivery: Delivery)
      requires id in jobs
      modifies this`jobs
      ensures jobs == DeviceJobs.LeaseOne(old(jobs), DeviceJobs.Pick(id, draw.lease, draw.reading))
                && jobs.Keys == old(jobs).Keys
      ensures leased == (old(jobs)[id].status == DeviceJobs.Queued)
      ensures forall k | k in jobs && k != id :: jobs[k] == old(jobs)[k]
      ensures leased ==> delivery.job == id && Delivers(jobs, delivery) && delivery.lease == draw.lease
    {
      var expiry := Min(jobs[id].expiresAt, draw.reading + DeviceJobs.LEASE);
      leased := jobs[id].status == DeviceJobs.Queued;
      if leased {
        jobs := jobs[id := jobs[id].(status := DeviceJobs.Leased, leaseId := Some(draw.lease),
                                     leaseExpiresAt := Some(expiry))];
      }
      delivery := Delivery(id, draw.lease, expiry, jobs[id].expiresAt);
    }

    /** The loop over the selected rows; each is still queued when its turn comes. */
    method LeaseSelected(ids: seq<Id>, draws: seq<Draw>)
      returns (deliveries: seq<Delivery>, ghost picks: seq<DeviceJobs.Pick>)
      requires |ids| <= |draws| && QueuedOnce(jobs, ids)
      modifies this`jobs
      ensures jobs == DeviceJobs.LeaseAll(old(jobs), picks)
      ensures |picks| == |ids| && DrawnFor(picks, ids, draws)
      ensures |deliveries| == |ids| && DeliveredFor(jobs, deliveries, ids, draws)
    {
      hide DeviceJobs.LeaseOne, DeviceJobs.LeaseAll, Delivers, DeliveredFor, QueuedOnce;
      deliveries, picks := [], [];
      NothingLeased(jobs, ids, draws);
      assert ids[0..] == ids;
      var i := 0;
      while i < |ids|
        invariant 0 <= i <= |ids| && |picks| == i == |deliveries|
        invariant jobs == DeviceJobs.LeaseAll(old(jobs), picks) && QueuedOnce(jobs, ids[i..])
        invariant DrawnFor(picks, ids, draws) && DeliveredFor(jobs, deliveries, ids, draws)
        invariant forall k, l | 0 <= k < i <= l < |ids| :: ids[k] != ids[l]
      {
        ghost var pick := DeviceJobs.Pick(ids[i], draws[i].lease, draws[i].reading);
        ghost var before := jobs;
        NextQueued(jobs, ids[i..]);
        LeaseAllSnoc(old(jobs), picks, pick);
        var leased, delivery := LeaseJob(ids[i], draws[i]);
        if leased {
          deliveries := deliveries + [delivery];
        }
        StillQueued(before, jobs, ids[i..]);
        DeliveredSnoc(before, jobs, deliveries[..i], delivery, ids, draws);
        assert ids[i..][1..] == ids[i + 1..];
        picks := picks + [pick];
        i := i + 1;
      }
    }

    /** The claim transaction; `draws` are the tokens and clock readings it would take, row by row. */
    method ClaimDeviceJobs(project: Id, device: Id, limit: nat, at: Stamp, draws: seq<Draw>)
      returns (deliveries: seq<Delivery>, ghost picks: seq<DeviceJobs.Pick>)
      requires limit <= |draws|
      modifies this`jobs
      ensures DeviceJobs.IsSelection(DeviceJobs.Sweep(old(jobs), at), project, device, at, limit,
                                     DeviceJobs.PickedJobs(picks))
      ensures jobs == DeviceJobs.Claim(old(jobs), at, picks)
      ensures forall i | 0 <= i < |picks| :: picks[i].lease == draws[i].lease && picks[i].reading == draws[i].reading
      ensures |deliveries| == |picks|
      ensures forall i | 0 <= i < |picks| ::
                deliveries[i].job == picks[i].job && deliveries[i].lease == picks[i].lease
                    && Delivers(jobs, deliveries[i])
    {
      hide DeviceJobs.Sweep, DeviceJobs.LeaseAll, Delivers, QueuedOnce, DeviceJobs.IsSelection;
      ExpireAndRecoverDeviceJobs(at);
      var ids := SelectClaimable(project, device, at, limit);
      SelectedQueuedOnce(jobs, project, device, at, limit, ids);
      deliveries, picks := LeaseSelected(ids, draws);
      assert DeviceJobs.PickedJobs(picks) == ids;
    }

    method CompleteDeviceJobResults(project: Id, device: Id, submissions: seq<DeviceJobs.Submission>, at: Stamp)
      returns (accepted: seq<Id>, rejected: seq<(Id, DeviceJobs.ResultVerdict)>)
      modifies this`jobs
      ensures jobs == DeviceJobs.Complete(old(jobs), project, device, submissions, at)
      ensures (accepted, rejected) == DeviceJobs.Answers(DeviceJobs.Sweep(old(jobs), at), project, device, submissions,
                                                         at)
    {
      ExpireAndRecoverDeviceJobs(at);
      var swept := jobs;
      accepted, rejected := [], [];
      var i := 0;
      while i < |submissions|
        invariant 0 <= i <= |submissions|
        invariant jobs == DeviceJobs.SubmitAll(swept, project, device, submissions[..i], at)
        invariant (accepted, rejected) == DeviceJobs.Answers(swept, project, device, submissions[..i], at)
      {
        assert submissions[..i + 1][..i] == submissions[..i];
        var s := submissions[i];
        if |s.result| > DeviceJobs.RESULT_LIMIT {
          rejected := rejected + [(s.job, DeviceJobs.TooLarge)];
        } else if s.job !in jobs || jobs[s.job].project != project || jobs[s.job].device != device
                  || jobs[s.job].status != DeviceJobs.Leased || jobs[s.job].leaseId != Some(s.lease)
                  || jobs[s.job].leaseExpiresAt.None? || jobs[s.job].leaseExpiresAt.value <= at {
          rejected := rejected + [(s.job, DeviceJobs.LeaseInvalid)];
        } else if s.status != DeviceJobs.Completed && s.status != DeviceJobs.Failed {
          rejected := rejected + [(s.job, DeviceJobs.StatusRejected)];
        } else {
          jobs := jobs[s.job := jobs[s.job].(status := s.status, result := Some(s.result), error := s.error,
                                             completedAt := Some(at),
                  leaseId := None, leaseExpiresAt := None)];
          accepted := accepted + [s.job];
        }
        i := i + 1;
      }
      assert submissions[..|submissions|] == submissions;
    }
  }

  /** The ids are distinct queued jobs. */
  predicate QueuedOnce(jobs: DeviceJobs.Jobs, ids: seq<Id>) {
    && (forall i | 0 <= i < |ids| :: ids[i] in jobs && jobs[ids[i]].status == DeviceJobs.Queued)
    && forall i, j | 0 <= i < j < |ids| :: ids[i] != ids[j]
  }

  predicate DrawnFor(picks: seq<DeviceJobs.Pick>, ids: seq<Id>, draws: seq<Draw>) {
    && |picks| <= |ids| && |picks| <= |draws|
    && forall k | 0 <= k < |picks| :: picks[k] == DeviceJobs.Pick(ids[k], draws[k].lease, draws[k].reading)
  }

  predicate DeliveredFor(jobs: DeviceJobs.Jobs, deliveries: seq<Delivery>, ids: seq<Id>, draws: seq<Draw>) {
    && |deliveries| <= |ids| && |deliveries| <= |draws|
    && forall k | 0 <= k < |deliveries| ::
         deliveries[k].job == ids[k] && deliveries[k].lease == draws[k].lease && Delivers(jobs, deliveries[k])
  }

  lemma NothingLeased(jobs: DeviceJobs.Jobs, ids: seq<Id>, draws: seq<Draw>)
    ensures DeviceJobs.LeaseAll(jobs, []) == jobs && DeliveredFor(jobs, [], ids, draws)
  {}

  lemma LeaseAllSnoc(jobs: DeviceJobs.Jobs, picks: seq<DeviceJobs.Pick>, pick: DeviceJobs.Pick)
    ensures DeviceJobs.LeaseAll(jobs, picks + [pick]) == DeviceJobs.LeaseOne(DeviceJobs.LeaseAll(jobs, picks), pick)
  {
    assert (picks + [pick])[..|picks|] == picks;
  }

  lemma NextQueued(jobs: DeviceJobs.Jobs, ids: seq<Id>)
    requires QueuedOnce(jobs, ids) && ids != []
    ensures ids[0] in jobs && jobs[ids[0]].status == DeviceJobs.Queued && forall k | 1 <= k < |ids| :: ids[k] != ids[0]
  {}

  lemma StillQueued(jobs: DeviceJobs.Jobs, after: DeviceJobs.Jobs, ids: seq<Id>)
    requires QueuedOnce(jobs, ids) && ids != [] && after.Keys == jobs.Keys
    requires forall k | k in after && k != ids[0] :: after[k] == jobs[k]
    ensures QueuedOnce(after, ids[1..])
  {
    assert forall k | 0 <= k < |ids| - 1 :: ids[1..][k] == ids[k + 1];
  }

  lemma DeliveredSnoc(jobs: DeviceJobs.Jobs, after: DeviceJobs.Jobs, deliveries: seq<Delivery>, d: Delivery,
                      ids: seq<Id>, draws: seq<Draw>)
    requires DeliveredFor(jobs, deliveries, ids, draws) && |deliveries| < |ids| && |deliveries| < |draws|
    requires d.job == ids[|deliveries|] && d.lease == draws[|deliveries|].lease && Delivers(after, d)
    requires after.Keys == jobs.Keys && forall k | k in after && k != d.job :: after[k] == jobs[k]
    requires forall k | 0 <= k < |deliveries| :: ids[k] != d.job
    ensures DeliveredFor(after, deliveries + [d], ids, draws)
  {
    forall k | 0 <= k < |deliveries| ensures Delivers(after, deliveries[k]) {
      assert Delivers(jobs, deliveries[k]);
    }
  }

  lemma SelectedQueuedOnce(jobs: DeviceJobs.Jobs, project: Id, device: Id, at: Stamp, limit: nat, ids: seq<Id>)
    requires DeviceJobs.IsSelection(jobs, project, device, at, limit, ids)
    ensures QueuedOnce(jobs, ids) && |ids| <= limit
  {
    forall i | 0 <= i < |ids| ensures ids[i] in jobs && jobs[ids[i]].status == DeviceJobs.Queued {
      assert DeviceJobs.Claimable(jobs, project, device, at, ids[i]);
    }
  }

  /** A batch that fails early fails. */
  lemma {:induction false} BrokenBatch(w: Workspace, project: Id, device: Id, drafts: seq<Draft>, at: Stamp, n: nat)
    requires n <= |drafts| && Batch(w, project, device, drafts[..n], at).None?
    ensures Batch(w, project, device, drafts, at).None?
  {
    if n < |drafts| {
      var few := drafts[..|drafts| - 1];
      assert few[..n] == drafts[..n];
      BrokenBatch(w, project, device, few, at, n);
    } else {
      assert drafts[..n] == drafts;
    }
  }
}
