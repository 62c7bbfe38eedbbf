/** Which jobs can still finish: for every state of every run, and continuations whose requests are stamped at a given
    time or later. */
module FinishableJobs {
  import opened Prelude
  import opened DurableQueue
  import opened DeviceJobs
  import opened JobResults
  import opened StrandedJobs
  import JobRuns
  import JobMoves

  predicate Finished(jobs: Jobs, id: Id) {
    id in jobs && (jobs[id].status == Completed || jobs[id].status == Failed)
  }

  predicate StampedFrom(labels: seq<Label>, from: Stamp) {
    forall i | 0 <= i < |labels| && labels[i].Cloud? :: from <= labels[i].step.at
  }

  ghost predicate CanFinish(s: System, id: Id, from: Stamp) {
    exists more: seq<Label> :: StampedFrom(more, from) && Finished(Run(s, more).machine.jobs, id)
  }

  predicate LeasedPast(j: Job, from: Stamp) {
    j.status == Leased && j.leaseExpiresAt.Some? && from < j.leaseExpiresAt.value
  }

  /** The job is live at the time, and its device holds no result for it, or an acceptable one under a lease that is
      live as well. */
  predicate Open(s: System, id: Id, from: Stamp)
    requires id in s.machine.jobs
  {
    var j := s.machine.jobs[id];
    var rows := StoreOf(s, j.device);
    && !Settled(j.status) && from < j.expiresAt
    && (id in rows ==>
          LeasedPast(j, from) && j.leaseId == Some(rows[id].item.lease) && Acceptable(rows[id].item))
  }

  predicate Issued(grants: seq<JobRuns.Grant>, lease: Id) {
    exists g | g in grants :: g.lease == lease
  }

  /** A device stores results of delivered jobs only, so the lease it files one under was issued. */
  predicate FiledUnderGrant(s: System, id: Id)
    requires id in s.machine.jobs
  {
    var rows := StoreOf(s, s.machine.jobs[id].device);
    id in rows ==> Issued(s.machine.grants, rows[id].item.lease)
  }

  // ---------------------------------------------------------------- steps

  predicate Sound(s: System, id: Id) {
    && JobRuns.Invariant(s.machine) && id in s.machine.jobs
    && var rows := StoreOf(s, s.machine.jobs[id].device);
    id in rows ==> rows[id].item.job == id
  }

  lemma CanFinishLater(s: System, l: Label, id: Id, from: Stamp)
    requires CanFinish(Next(s, l), id, from) && (l.Cloud? ==> from <= l.step.at)
    ensures CanFinish(s, id, from)
  {
    hide Next, Run;
    var more :| StampedFrom(more, from) && Finished(Run(Next(s, l), more).machine.jobs, id);
    RunConcat(s, [l], more);
    assert Run(s, [l]) == Next(s, l) by { RunOne(s, l); }
    assert StampedFrom([l] + more, from);
  }

  lemma FinishedCan(s: System, id: Id, from: Stamp)
    requires Finished(s.machine.jobs, id)
    ensures CanFinish(s, id, from)
  {
    assert Run(s, []) == s && StampedFrom([], from);
  }

  /** A transaction keeps the job's identity and leaves the devices' tables alone. */
  lemma CloudStep(s: System, l: JobRuns.Label, id: Id)
    requires Sound(s, id)
    ensures var t := Next(s, Cloud(l));
            && Sound(t, id) && t.stores == s.stores && RowOk(t.machine.jobs[id])
            && Moves(s.machine.jobs[id], t.machine.jobs[id])
  {
    hide JobRuns.Invariant, JobRuns.Next, FromStore, RowOk;
    JobRuns.NextKeeps(s.machine, l);
    JobRuns.NextEvolves(s.machine, l);
    JobRuns.RowsFine(s.machine);
    JobRuns.RowsFine(Next(s, Cloud(l)).machine);
    JobRuns.SelfEvolves(s.machine.jobs);
  }

  // ---------------------------------------------------------------- an open job finishes

  lemma SubmissionSettles(m: JobRuns.Machine, b: Submission, from: Stamp)
    requires b.job in m.jobs && RowOk(m.jobs[b.job]) && LeasedPast(m.jobs[b.job], from)
    requires m.jobs[b.job].leaseId == Some(b.lease) && Acceptable(b)
    ensures var j := m.jobs[b.job];
            Finished(JobRuns.Next(m, JobRuns.SubmitResults(j.project, j.device, [b], from)).jobs, b.job)
  {
    var swept := JobRuns.Swept(m, from);
    assert swept.jobs[b.job] == m.jobs[b.job];
    assert [b][..0] == [];
    assert JobRuns.RecordAll(swept, m.jobs[b.job].project, m.jobs[b.job].device, [], from) == swept;
  }

  lemma HeldResultFinishes(s: System, id: Id, from: Stamp)
    requires Sound(s, id) && Open(s, id, from) && id in StoreOf(s, s.machine.jobs[id].device)
    ensures CanFinish(s, id, from)
  {
    hide JobRuns.Next, JobRuns.Invariant, RowOk, Acceptable;
    JobRuns.RowsFine(s.machine);
    var j := s.machine.jobs[id];
    var b := StoreOf(s, j.device)[id].item;
    var l := Cloud(JobRuns.SubmitResults(j.project, j.device, [b], from));
    SubmissionSettles(s.machine, b, from);
    FinishedCan(Next(s, l), id, from);
    CanFinishLater(s, l, id, from);
  }

  lemma LeasedFinishes(s: System, id: Id, from: Stamp)
    requires Sound(s, id) && Open(s, id, from) && LeasedPast(s.machine.jobs[id], from)
               && s.machine.jobs[id].leaseId.Some?
    ensures CanFinish(s, id, from)
  {
    hide JobRuns.Invariant;
    var j := s.machine.jobs[id];
    if id in StoreOf(s, j.device) {
      HeldResultFinishes(s, id, from);
    } else {
      var l := Store(j.device, Submission(id, j.leaseId.value, Completed, "", None), from);
      HeldResultFinishes(Next(s, l), id, from);
      CanFinishLater(s, l, id, from);
    }
  }

  function NextLease(grants: seq<JobRuns.Grant>): (lease: Id)
    ensures forall g | g in grants :: g.lease < lease
  {
    if grants == [] then 0
    else Max(NextLease(grants[..|grants| - 1]), grants[|grants| - 1].lease + 1)
  }

  function Waiting(jobs: Jobs, project: Id, device: Id, at: Stamp): set<Id> {
    set k | k in jobs && Claimable(Sweep(jobs, at), project, device, at, k)
  }

  function LeasedRow(j: Job, lease: Id, reading: Stamp): Job {
    j.(status := Leased, leaseId := Some(lease), leaseExpiresAt := Some(Min(j.expiresAt, reading + LEASE)))
  }

  function ClaimOldest(m: JobRuns.Machine, project: Id, device: Id, at: Stamp, oldest: Id): JobRuns.Label {
    JobRuns.ClaimJobs(project, device, 1, at, [Pick(oldest, NextLease(m.grants), Max(m.clock, at))])
  }

  /** A claim of one job leases the oldest one that waits. */
  lemma ClaimOne(m: JobRuns.Machine, project: Id, device: Id, at: Stamp, oldest: Id)
    requires oldest in Waiting(m.jobs, project, device, at)
    requires var swept := Sweep(m.jobs, at);
             forall k | k in Waiting(m.jobs, project, device, at) :: swept[oldest].createdAt <= swept[k].createdAt
    ensures var swept := Sweep(m.jobs, at);
            JobRuns.Next(m, ClaimOldest(m, project, device, at, oldest)).jobs
              == swept[oldest := LeasedRow(swept[oldest], NextLease(m.grants), Max(m.clock, at))]
  {
    hide Sweep;
    var swept := JobRuns.Swept(m, at);
    var pick := Pick(oldest, NextLease(m.grants), Max(m.clock, at));
    assert PickedJobs([pick]) == [oldest];
    assert IsSelection(swept.jobs, project, device, at, 1, [oldest]) by {
      forall k | k in swept.jobs && Claimable(swept.jobs, project, device, at, k)
        ensures swept.jobs[oldest].createdAt <= swept.jobs[k].createdAt {
        JobMoves.SweepKeys(m.jobs, at);
        assert k in Waiting(m.jobs, project, device, at);
      }
    }
    assert [pick][..0] == [] && JobRuns.GrantAll(swept, at, []) == swept;
  }

  lemma LeasedRowStays(j: Job, lease: Id, reading: Stamp, at: Stamp)
    requires j.status == Queued && at < j.expiresAt && at <= reading
    ensures var k := LeasedRow(j, lease, reading); Lapsed(Recovered(k, at), at) == k && LeasedPast(k, at)
  {}

  /** The job just leased waits no more. */
  lemma WaitingShrinks(jobs: Jobs, project: Id, device: Id, at: Stamp, x: Id, lease: Id, reading: Stamp)
    requires x in Waiting(jobs, project, device, at) && at <= reading
    ensures var swept := Sweep(jobs, at);
            Waiting(swept[x := LeasedRow(swept[x], lease, reading)], project, device, at)
              == Waiting(jobs, project, device, at) - {x}
  {
    hide Lapsed, Recovered;
    var swept := Sweep(jobs, at);
    var after := swept[x := LeasedRow(swept[x], lease, reading)];
    JobMoves.SweepTwice(jobs, at);
    LeasedRowStays(swept[x], lease, reading, at);
    forall k | k in after && k != x ensures Sweep(after, at)[k] == swept[k] {
      assert Sweep(swept, at)[k] == swept[k];
    }
  }

  /** A queued job without a result is claimed after the jobs created before it, and then finishes. */
  lemma {:induction false} QueuedFinishes(s: System, id: Id, from: Stamp)
    requires Sound(s, id) && Open(s, id, from) && s.machine.jobs[id].status == Queued
    ensures CanFinish(s, id, from)
    decreases |Waiting(s.machine.jobs, s.machine.jobs[id].project, s.machine.jobs[id].device, from)|
  {
    hide JobRuns.Next, JobRuns.Invariant, Waiting, RowOk;
    var j := s.machine.jobs[id];
    var swept := Sweep(s.machine.jobs, from);
    var waiting := Waiting(s.machine.jobs, j.project, j.device, from);
    WaitingMeaning(s.machine.jobs, j.project, j.device, from, id);
    var oldest := OldestExists(swept, waiting);
    var l := ClaimOldest(s.machine, j.project, j.device, from, oldest);
    ClaimOne(s.machine, j.project, j.device, from, oldest);
    CloudStep(s, l, id);
    var t := Next(s, Cloud(l));
    assert t.machine == JobRuns.Next(s.machine, l);
    if oldest == id {
      LeasedRowStays(j, NextLease(s.machine.grants), Max(s.machine.clock, from), from);
      LeasedFinishes(t, id, from);
    } else {
      WaitingShrinks(s.machine.jobs, j.project, j.device, from, oldest, NextLease(s.machine.grants),
                     Max(s.machine.clock, from));
      QueuedFinishes(t, id, from);
    }
    CanFinishLater(s, Cloud(l), id, from);
  }

  lemma WaitingMeaning(jobs: Jobs, project: Id, device: Id, at: Stamp, id: Id)
    ensures Waiting(jobs, project, device, at) <= Sweep(jobs, at).Keys
    ensures Claimable(jobs, project, device, at, id) ==>
              id in Waiting(jobs, project, device, at) && Sweep(jobs, at)[id] == jobs[id]
  {}

  /** Approval, or the recovery of an overdue lease, queues a live job. */
  lemma LiveJobQueues(m: JobRuns.Machine, id: Id, from: Stamp)
    requires id in m.jobs && from < m.jobs[id].expiresAt && RowOk(m.jobs[id])
    ensures m.jobs[id].status == PendingApproval ==>
              JobRuns.Next(m, JobRuns.ApproveJob(m.jobs[id].project, id, 0, true, from)).jobs[id].status == Queued
    ensures m.jobs[id].status == Leased && !LeasedPast(m.jobs[id], from) ==>
              JobRuns.Next(m, JobRuns.ListJobs(from)).jobs[id].status == Queued
  {}

  lemma OpenFinishes(s: System, id: Id, from: Stamp)
    requires Sound(s, id) && Open(s, id, from)
    ensures CanFinish(s, id, from)
  {
    hide JobRuns.Next, JobRuns.Invariant;
    JobRuns.RowsFine(s.machine);
    var j := s.machine.jobs[id];
    LiveJobQueues(s.machine, id, from);
    if LeasedPast(j, from) {
      LeasedFinishes(s, id, from);
    } else if j.status == Queued {
      QueuedFinishes(s, id, from);
    } else {
      var l := if j.status == PendingApproval then JobRuns.ApproveJob(j.project, id, 0, true, from)
               else JobRuns.ListJobs(from);
      CloudStep(s, l, id);
      QueuedFinishes(Next(s, Cloud(l)), id, from);
      CanFinishLater(s, Cloud(l), id, from);
    }
  }

  // ---------------------------------------------------------------- any other job never does

  /** Cancelled, expired, or about to expire. */
  predicate Over(s: System, id: Id, from: Stamp) {
    && JobRuns.Invariant(s.machine) && id in s.machine.jobs && !Finished(s.machine.jobs, id)
    && (Settled(s.machine.jobs[id].status) || s.machine.jobs[id].expiresAt <= from)
  }

  lemma OverSwept(m: JobRuns.Machine, id: Id, from: Stamp, at: Stamp)
    requires id in m.jobs && !Finished(m.jobs, id) && from <= at
    requires Settled(m.jobs[id].status) || m.jobs[id].expiresAt <= from
    ensures var jobs := Sweep(m.jobs, at); Settled(jobs[id].status) && !Finished(jobs, id)
  {}

  lemma NextOver(s: System, l: Label, id: Id, from: Stamp)
    requires Over(s, id, from) && (l.Cloud? ==> from <= l.step.at)
    ensures Over(Next(s, l), id, from)
  {
    hide JobRuns.Next, JobRuns.Invariant, FromStore, Sweep;
    if l.Cloud? {
      JobMoves.SweepFirst(s.machine, l.step);
      JobRuns.SweepKeeps(s.machine, l.step.at);
      JobRuns.NextEvolves(JobRuns.Swept(s.machine, l.step.at), l.step);
      JobRuns.NextKeeps(s.machine, l.step);
      OverSwept(s.machine, id, from, l.step.at);
      JobMoves.SweepKeys(s.machine.jobs, l.step.at);
    }
  }

  lemma {:induction false} OverForever(s: System, labels: seq<Label>, id: Id, from: Stamp)
    requires Over(s, id, from) && StampedFrom(labels, from)
    ensures Over(Run(s, labels), id, from)
  {
    hide Next, Over;
    if labels != [] {
      var few := labels[..|labels| - 1];
      assert forall i | 0 <= i < |few| :: few[i] == labels[i];
      OverForever(s, few, id, from);
      NextOver(Run(s, few), labels[|labels| - 1], id, from);
    }
  }

  /** The device holds a result under the present lease, which is overdue. */
  predicate Overdue(s: System, id: Id, lease: Id, from: Stamp) {
    && id in s.machine.jobs && s.machine.jobs[id].status == Leased && s.machine.jobs[id].leaseId == Some(lease)
    && s.machine.jobs[id].leaseExpiresAt.Some? && s.machine.jobs[id].leaseExpiresAt.value <= from
    && (exists g | g in s.machine.grants :: g.lease == lease)
    && var rows := StoreOf(s, s.machine.jobs[id].device);
    && id in rows && rows[id].item.lease == lease
  }

  lemma OverdueSwept(s: System, id: Id, lease: Id, from: Stamp, at: Stamp)
    requires Overdue(s, id, lease, from) && from <= at
    ensures Stranded(s.(machine := JobRuns.Swept(s.machine, at)), id, lease)
  {}

  lemma NextOverdue(s: System, l: Label, id: Id, lease: Id, from: Stamp)
    requires Overdue(s, id, lease, from) && (l.Cloud? ==> from <= l.step.at)
    ensures Overdue(Next(s, l), id, lease, from) || Stranded(Next(s, l), id, lease)
  {
    if l.Cloud? {
      hide JobRuns.Next, Overdue, Stranded, JobRuns.Swept;
      JobMoves.SweepFirst(s.machine, l.step);
      OverdueSwept(s, id, lease, from, l.step.at);
      var swept := s.(machine := JobRuns.Swept(s.machine, l.step.at));
      NextStranded(swept, l, id, lease);
      assert Enabled(s, l) == Enabled(swept, l);
      assert Next(s, l) == s || Next(s, l) == Next(swept, l);
    }
  }

  lemma {:induction false} OverdueForever(s: System, labels: seq<Label>, id: Id, lease: Id, from: Stamp)
    requires Overdue(s, id, lease, from) && StampedFrom(labels, from)
    ensures Overdue(Run(s, labels), id, lease, from) || Stranded(Run(s, labels), id, lease)
  {
    hide Next, Overdue, Stranded;
    if labels != [] {
      var few := labels[..|labels| - 1];
      assert forall i | 0 <= i < |few| :: few[i] == labels[i];
      OverdueForever(s, few, id, lease, from);
      if Stranded(Run(s, few), id, lease) {
        NextStranded(Run(s, few), labels[|labels| - 1], id, lease);
      } else {
        NextOverdue(Run(s, few), labels[|labels| - 1], id, lease, from);
      }
    }
  }

  lemma ClosedNeverFinishes(s: System, id: Id, from: Stamp, more: seq<Label>)
    requires Sound(s, id) && FiledUnderGrant(s, id) && !Open(s, id, from) && !Finished(s.machine.jobs, id)
    requires StampedFrom(more, from)
    ensures !Finished(Run(s, more).machine.jobs, id)
  {
    hide Run, JobRuns.Invariant, Acceptable;
    JobRuns.RowsFine(s.machine);
    var j := s.machine.jobs[id];
    if Settled(j.status) || j.expiresAt <= from {
      OverForever(s, more, id, from);
    } else {
      var item := StoreOf(s, j.device)[id].item;
      if !Acceptable(item) {
        UnfitForever(s, more, id);
      } else if j.leaseId != Some(item.lease) {
        StrandedForever(s, more, id, item.lease);
      } else {
        OverdueForever(s, more, id, item.lease, from);
      }
    }
  }

  /** Which jobs can still finish, for every job of every run: through transactions stamped at a time or later, a job
      that is not finished yet can finish if and only if it is live at that time, and its device holds no result for it
      or an acceptable one under a lease that is live at that time. */
  lemma FinishesExactly(labels: seq<Label>, id: Id, from: Stamp)
    requires id in Run(NO_RESULTS, labels).machine.jobs && FiledUnderGrant(Run(NO_RESULTS, labels), id)
    ensures var s := Run(NO_RESULTS, labels);
            CanFinish(s, id, from) <==> Finished(s.machine.jobs, id) || Open(s, id, from)
  {
    hide Run, JobRuns.Invariant, Open, Finished, FiledUnderGrant;
    RunMatches(labels);
    var s := Run(NO_RESULTS, labels);
    StoreKeepsFirst(labels, s.machine.jobs[id].device, id);
    if Finished(s.machine.jobs, id) {
      FinishedCan(s, id, from);
    } else if Open(s, id, from) {
      OpenFinishes(s, id, from);
    } else if CanFinish(s, id, from) {
      var more :| StampedFrom(more, from) && Finished(Run(s, more).machine.jobs, id);
      ClosedNeverFinishes(s, id, from, more);
    }
  }
}
