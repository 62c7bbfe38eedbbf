/** Jobs that can never finish: a result stored under a lease that ended, or one the cloud will not take, blocks its
    job. */
module StrandedJobs {
  import opened Prelude
  import opened DurableQueue
  import opened DeviceJobs
  import opened JobResults
  import JobRuns

  // ---------------------------------------------------------------- a stored result that outlives its lease

  /** The job's device holds a result under a lease that was issued once and is not the job's lease any more. */
  predicate Stranded(s: System, id: Id, lease: Id) {
    && id in s.machine.jobs && s.machine.jobs[id].status != Completed && s.machine.jobs[id].status != Failed
    && s.machine.jobs[id].leaseId != Some(lease)
    && (exists g | g in s.machine.grants :: g.lease == lease)
    && var rows := StoreOf(s, s.machine.jobs[id].device);
    && id in rows && rows[id].item.lease == lease
  }

  predicate NotHeld(jobs: Jobs, id: Id, lease: Id) {
    id in jobs && jobs[id].status != Completed && jobs[id].status != Failed && jobs[id].leaseId != Some(lease)
  }

  lemma {:induction false} ClaimsDrawOther(m: JobRuns.Machine, at: Stamp, picks: seq<Pick>, id: Id, lease: Id)
    requires NotHeld(m.jobs, id, lease) && forall i | 0 <= i < |picks| :: picks[i].lease != lease
    ensures var t := JobRuns.GrantAll(m, at, picks);
            NotHeld(t.jobs, id, lease) && t.jobs[id].device == m.jobs[id].device && m.grants <= t.grants
  {
    if picks != [] {
      ClaimsDrawOther(m, at, picks[..|picks| - 1], id, lease);
    }
  }

  lemma {:induction false} SubmissionsMiss(m: JobRuns.Machine, project: Id, device: Id, submissions: seq<Submission>,
                                           at: Stamp, id: Id, lease: Id)
    requires NotHeld(m.jobs, id, lease)
    requires m.jobs[id].device == device ==> forall b | b in submissions && b.job == id :: b.lease == lease
    ensures var t := JobRuns.RecordAll(m, project, device, submissions, at);
            NotHeld(t.jobs, id, lease) && t.jobs[id].device == m.jobs[id].device && t.grants == m.grants
  {
    if submissions != [] {
      SubmissionsMiss(m, project, device, submissions[..|submissions| - 1], at, id, lease);
      assert submissions[|submissions| - 1] in submissions;
    }
  }

  lemma ClaimLeavesStranded(s: System, l: JobRuns.Label, id: Id, lease: Id)
    requires Stranded(s, id, lease) && l.ClaimJobs? && JobRuns.Enabled(s.machine, l)
    ensures Stranded(s.(machine := JobRuns.Next(s.machine, l)), id, lease)
  {
    hide JobRuns.GrantAll, JobRuns.RecordAll, LeaseAll, SubmitAll, IsSelection;
    var g :| g in s.machine.grants && g.lease == lease;
    ClaimsDrawOther(JobRuns.Swept(s.machine, l.at), l.at, l.picks, id, lease);
  }

  lemma SubmissionLeavesStranded(s: System, l: JobRuns.Label, id: Id, lease: Id)
    requires Stranded(s, id, lease) && l.SubmitResults? && JobRuns.Enabled(s.machine, l)
               && FromStore(s, l.device, l.submissions)
    ensures Stranded(s.(machine := JobRuns.Next(s.machine, l)), id, lease)
  {
    hide JobRuns.GrantAll, JobRuns.RecordAll, LeaseAll, SubmitAll;
    SubmissionsMiss(JobRuns.Swept(s.machine, l.at), l.project, l.device, l.submissions,
                    l.at, id, lease);
  }

  /** What creation, approval and listing can do to a row. */
  predicate Calm(jobs: Jobs, later: Jobs, id: Id)
    requires id in jobs
  {
    && id in later && later[id].device == jobs[id].device
    && (later[id].status == jobs[id].status || (later[id].status != Completed && later[id].status != Failed))
    && (later[id].leaseId.None? || later[id].leaseId == jobs[id].leaseId)
  }

  lemma SweepCalm(jobs: Jobs, at: Stamp, id: Id)
    requires id in jobs
    ensures Calm(jobs, Sweep(jobs, at), id)
  {}

  lemma TableStepCalm(m: JobRuns.Machine, l: JobRuns.Label, id: Id)
    requires id in m.jobs && !l.ClaimJobs? && !l.SubmitResults?
    ensures Calm(m.jobs, JobRuns.Next(m, l).jobs, id) && JobRuns.Next(m, l).grants == m.grants
  {
    hide Sweep, JobRuns.GrantAll, JobRuns.RecordAll, JobRuns.ClaimOk;
    SweepCalm(m.jobs, l.at, id);
  }

  lemma TableStepLeavesStranded(s: System, l: JobRuns.Label, id: Id, lease: Id)
    requires Stranded(s, id, lease) && !l.ClaimJobs? && !l.SubmitResults?
    ensures Stranded(s.(machine := JobRuns.Next(s.machine, l)), id, lease)
  {
    hide JobRuns.Next;
    TableStepCalm(s.machine, l, id);
  }

  lemma StoreStepLeavesStranded(s: System, l: Label, id: Id, lease: Id)
    requires Stranded(s, id, lease) && !l.Cloud?
    ensures Stranded(Next(s, l), id, lease)
  {}

  lemma NextStranded(s: System, l: Label, id: Id, lease: Id)
    requires Stranded(s, id, lease)
    ensures Stranded(Next(s, l), id, lease)
  {
    hide Stranded, FromStore;
    if !l.Cloud? {
      StoreStepLeavesStranded(s, l, id, lease);
    } else if Enabled(s, l) {
      hide JobRuns.Enabled;
      if !JobRuns.Enabled(s.machine, l.step) {
        assert s.(machine := s.machine) == s;
      } else {
        hide JobRuns.Next;
        match l.step
        case ClaimJobs(_, _, _, _, _) => ClaimLeavesStranded(s, l.step, id, lease);
        case SubmitResults(_, _, _, _) => SubmissionLeavesStranded(s, l.step, id, lease);
        case _ => TableStepLeavesStranded(s, l.step, id, lease);
      }
    }
  }

  /** A job whose device stored its only result under a lease that has since ended can never complete: the local table
      drops every later result for the job, whatever leases follow. */
  lemma {:induction false} StrandedForever(s: System, labels: seq<Label>, id: Id, lease: Id)
    requires Stranded(s, id, lease)
    ensures Stranded(Run(s, labels), id, lease)
  {
    hide Next, Stranded;
    if labels != [] {
      StrandedForever(s, labels[..|labels| - 1], id, lease);
      NextStranded(Run(s, labels[..|labels| - 1]), labels[|labels| - 1], id, lease);
    }
  }

  lemma LeaseWasGranted(m: JobRuns.Machine, id: Id)
    requires JobRuns.Invariant(m) && id in m.jobs && m.jobs[id].status == Leased
    ensures exists g | g in m.grants :: Some(g.lease) == m.jobs[id].leaseId
  {
    hide JobRuns.Spaced, JobRuns.Recorded, RowOk, JobRuns.GrantsFor, JobRuns.RecordsFor;
    assert JobRuns.JobOk(m, id);
    var gs := JobRuns.GrantsFor(m.grants, id);
    JobRuns.GrantsForMembers(m.grants, id);
    assert gs[|gs| - 1] in m.grants;
  }

  /** How a job comes to be stranded: its device stores its first result for the job under the current lease, and the
      lease is overdue when the cloud next looks at it. */
  lemma LateResultStrands(labels: seq<Label>, b: Submission, storedAt: Stamp, at: Stamp)
    requires var m := Run(NO_RESULTS, labels).machine;
             && b.job in m.jobs && m.jobs[b.job].status == Leased && m.jobs[b.job].leaseId == Some(b.lease)
             && m.jobs[b.job].leaseExpiresAt.Some? && m.jobs[b.job].leaseExpiresAt.value <= at
             && b.job !in StoreOf(Run(NO_RESULTS, labels), m.jobs[b.job].device)
    ensures var s := Run(NO_RESULTS, labels);
            Stranded(Next(Next(s, Store(s.machine.jobs[b.job].device, b, storedAt)), Cloud(JobRuns.ListJobs(at))),
                     b.job, b.lease)
  {
    hide Run, JobRuns.Invariant;
    RunMatches(labels);
    var s := Run(NO_RESULTS, labels);
    LeaseWasGranted(s.machine, b.job);
  }

  // ---------------------------------------------------------------- results the cloud never takes

  predicate Acceptable(b: Submission) {
    |b.result| <= RESULT_LIMIT && (b.status == Completed || b.status == Failed)
  }

  predicate Unfinished(jobs: Jobs, id: Id) {
    id in jobs && jobs[id].status != Completed && jobs[id].status != Failed
  }

  /** The job's device holds a result that fails the size or the status test of every submission. */
  predicate Unfit(s: System, id: Id) {
    && Unfinished(s.machine.jobs, id)
    && var rows := StoreOf(s, s.machine.jobs[id].device);
    && id in rows && rows[id].item.job == id && !Acceptable(rows[id].item)
  }

  lemma {:induction false} UnfitSubmissions(m: JobRuns.Machine, project: Id, device: Id, submissions: seq<Submission>,
                                            at: Stamp, id: Id)
    requires Unfinished(m.jobs, id)
    requires m.jobs[id].device == device ==> forall b | b in submissions && b.job == id :: !Acceptable(b)
    ensures var t := JobRuns.RecordAll(m, project, device, submissions, at);
            Unfinished(t.jobs, id) && t.jobs[id].device == m.jobs[id].device
  {
    if submissions != [] {
      UnfitSubmissions(m, project, device, submissions[..|submissions| - 1], at, id);
      assert submissions[|submissions| - 1] in submissions;
    }
  }

  lemma {:induction false} GrantsFinishNothing(m: JobRuns.Machine, at: Stamp, picks: seq<Pick>, id: Id)
    requires Unfinished(m.jobs, id)
    ensures var t := JobRuns.GrantAll(m, at, picks); Unfinished(t.jobs, id) && t.jobs[id].device == m.jobs[id].device
  {
    if picks != [] {
      GrantsFinishNothing(m, at, picks[..|picks| - 1], id);
    }
  }

  lemma SubmissionLeavesUnfit(s: System, l: JobRuns.Label, id: Id)
    requires Unfit(s, id) && l.SubmitResults? && FromStore(s, l.device, l.submissions)
    ensures Unfit(s.(machine := JobRuns.Next(s.machine, l)), id)
  {
    hide JobRuns.GrantAll, JobRuns.RecordAll, LeaseAll, SubmitAll;
    UnfitSubmissions(JobRuns.Swept(s.machine, l.at), l.project, l.device,
                     l.submissions, l.at, id);
  }

  lemma ClaimLeavesUnfit(s: System, l: JobRuns.Label, id: Id)
    requires Unfit(s, id) && l.ClaimJobs?
    ensures Unfit(s.(machine := JobRuns.Next(s.machine, l)), id)
  {
    hide JobRuns.GrantAll, JobRuns.ClaimOk, Acceptable;
    GrantsFinishNothing(JobRuns.Swept(s.machine, l.at), l.at, l.picks, id);
  }

  lemma TableStepLeavesUnfit(s: System, l: JobRuns.Label, id: Id)
    requires Unfit(s, id) && !l.ClaimJobs? && !l.SubmitResults?
    ensures Unfit(s.(machine := JobRuns.Next(s.machine, l)), id)
  {
    hide JobRuns.Next, Acceptable;
    TableStepCalm(s.machine, l, id);
  }

  lemma NextUnfit(s: System, l: Label, id: Id)
    requires Unfit(s, id)
    ensures Unfit(Next(s, l), id)
  {
    hide JobRuns.Next, FromStore;
    if l.Cloud? && Enabled(s, l) {
      hide Unfit;
      match l.step
      case SubmitResults(_, _, _, _) => SubmissionLeavesUnfit(s, l.step, id);
      case ClaimJobs(_, _, _, _, _) => ClaimLeavesUnfit(s, l.step, id);
      case _ => TableStepLeavesUnfit(s, l.step, id);
    }
  }

  lemma {:induction false} UnfitForever(s: System, labels: seq<Label>, id: Id)
    requires Unfit(s, id)
    ensures Unfit(Run(s, labels), id)
  {
    hide Next, Unfit;
    if labels != [] {
      UnfitForever(s, labels[..|labels| - 1], id);
      NextUnfit(Run(s, labels[..|labels| - 1]), labels[|labels| - 1], id);
    }
  }

  // ---------------------------------------------------------------- a stranded job, from the start

  const RESULT := Submission(1, 70, Completed, "ok", None)

  /** One job is created, approved and claimed, its device files a result, and the cloud looks at it after the lease
      ended. */
  const STRANDING: seq<Label> := [
    Cloud(JobRuns.CreateJob(1, 3, 5, true, 600, 0, 0)), Cloud(JobRuns.ApproveJob(3, 1, 9, true, 0)),
    Cloud(JobRuns.ClaimJobs(3, 5, 5, 0, [Pick(1, 70, 0)])), Store(5, RESULT, 1), Cloud(JobRuns.ListJobs(LEASE))]

  const NEW_JOB := Job(3, 5, PendingApproval, 600 * SECOND, 0, None, None, None, None, None, None, None)
  const APPROVED_JOB := NEW_JOB.(status := Queued, approvedAt := Some(0), approvedBy := Some(9))
  const LEASED_JOB := APPROVED_JOB.(status := Leased, leaseId := Some(70), leaseExpiresAt := Some(LEASE))
  const BIRTHS := map[1 := JobRuns.Birth(0, 600)]

  lemma CreatedAndApproved()
    ensures var one := JobRuns.Next(JobRuns.NO_JOBS, STRANDING[0].step);
            JobRuns.Next(one, STRANDING[1].step) == JobRuns.Machine(map[1 := APPROVED_JOB], 0, BIRTHS, [], [])
  {
    var one := JobRuns.Next(JobRuns.NO_JOBS, STRANDING[0].step);
    assert Sweep(map[], 0) == map[];
    assert one.jobs == map[1 := NEW_JOB];
    assert Sweep(one.jobs, 0) == one.jobs;
  }

  lemma Claimed()
    ensures var approved := JobRuns.Machine(map[1 := APPROVED_JOB], 0, BIRTHS, [], []);
            JobRuns.Next(approved, STRANDING[2].step)
              == JobRuns.Machine(map[1 := LEASED_JOB], 0, BIRTHS, [JobRuns.Grant(1, 70, 0, 0, LEASE)], [])
  {
    var approved := JobRuns.Machine(map[1 := APPROVED_JOB], 0, BIRTHS, [], []);
    var picks := [Pick(1, 70, 0)];
    assert Sweep(approved.jobs, 0) == approved.jobs;
    assert PickedJobs(picks) == [1];
    assert IsSelection(approved.jobs, 3, 5, 0, 5, [1]);
    assert picks[..0] == [];
    assert JobRuns.GrantAll(approved, 0, []) == approved;
    assert approved.jobs[1 := LEASED_JOB] == map[1 := LEASED_JOB];
  }

  lemma {:induction false} RunFirst(n: nat)
    requires n < |STRANDING|
    ensures Run(NO_RESULTS, STRANDING[..n + 1]) == Next(Run(NO_RESULTS, STRANDING[..n]), STRANDING[n])
  {
    assert STRANDING[..n + 1][..n] == STRANDING[..n];
  }

  /** A job can be stranded from the start: after these five steps no continuation finishes it. */
  lemma StrandedRun(more: seq<Label>)
    ensures Stranded(Run(NO_RESULTS, STRANDING), 1, 70)
    ensures Unfinished(Run(Run(NO_RESULTS, STRANDING), more).machine.jobs, 1)
  {
    hide Run, Next, Stranded;
    assert STRANDING[..5] == STRANDING && STRANDING[..0] == [];
    LeasedStart();
    RunFirst(3);
    RunFirst(4);
    LateResultStrands(STRANDING[..3], RESULT, 1, LEASE);
    StrandedForever(Run(NO_RESULTS, STRANDING), more, 1, 70);
    StrandedUnfinished(Run(Run(NO_RESULTS, STRANDING), more), 1, 70);
  }

  lemma StrandedUnfinished(s: System, id: Id, lease: Id)
    requires Stranded(s, id, lease)
    ensures Unfinished(s.machine.jobs, id)
  {}

  lemma LeasedStart()
    ensures var s := Run(NO_RESULTS, STRANDING[..3]);
            s == System(JobRuns.Machine(map[1 := LEASED_JOB], 0, BIRTHS, [JobRuns.Grant(1, 70, 0, 0, LEASE)], []),
                        map[])
  {
    hide Run, JobRuns.Next;
    assert STRANDING[..0] == [];
    NothingRun();
    RunFirst(0);
    RunFirst(1);
    RunFirst(2);
    CreatedAndApproved();
    Claimed();
  }

  lemma NothingRun()
    ensures Run(NO_RESULTS, []) == NO_RESULTS
  {}
}
