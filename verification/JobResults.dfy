/**
 Jobs end to end: the cloud's job machine together with every device's job_results table. A device submits rows of its
 own table, as often as it likes; the table keeps the first result stored for a job.
 */
module JobResults {
  import opened Prelude
  import opened DurableQueue
  import opened DeviceJobs
  import JobRuns

  type Results = map<Id, QueueRow<Submission>>

  datatype System = System(machine: JobRuns.Machine, stores: map<Id, Results>)

  /** `Store` is the local INSERT .. ON CONFLICT(job_id) DO NOTHING, `Settle` the local acknowledgement. */
  datatype Label =
    | Cloud(step: JobRuns.Label)
    | Store(device: Id, submission: Submission, at: Stamp)
    | Settle(device: Id, jobs: seq<Id>, at: Stamp)

  function StoreOf(s: System, device: Id): Results {
    if device in s.stores then s.stores[device] else map[]
  }

  /** Everything a submission batch carries is a row of the submitting device, now or on an earlier attempt. */
  predicate FromStore(s: System, device: Id, submissions: seq<Submission>) {
    forall b | b in submissions :: b.job in StoreOf(s, device) && StoreOf(s, device)[b.job].item == b
  }

  predicate Enabled(s: System, l: Label) {
    match l
    case Cloud(SubmitResults(_, device, submissions, _)) => FromStore(s, device, submissions)
    case _ => true
  }

  function Next(s: System, l: Label): System {
    if !Enabled(s, l) then s
    else
      match l
      case Cloud(k) => s.(machine := JobRuns.Next(s.machine, k))
      case Store(d, b, at) => s.(stores := s.stores[d := Put(StoreOf(s, d), b.job, b, at)])
      case Settle(d, jobs, at) => s.(stores := s.stores[d := Mark(StoreOf(s, d), jobs, at)])
  }

  function Run(s: System, labels: seq<Label>): System {
    if labels == [] then s else Next(Run(s, labels[..|labels| - 1]), labels[|labels| - 1])
  }

  lemma {:induction false} RunConcat(s: System, a: seq<Label>, b: seq<Label>)
    ensures Run(s, a + b) == Run(Run(s, a), b)
  {
    hide Next;
    if b == [] {
      assert a + b == a;
    } else {
      RunConcat(s, a, b[..|b| - 1]);
      assert (a + b)[..|a + b| - 1] == a + b[..|b| - 1];
    }
  }

  lemma RunOne(s: System, l: Label)
    ensures Run(s, [l]) == Next(s, l)
  {
    hide Next;
    assert [l][..0] == [];
  }

  const NO_RESULTS := System(JobRuns.NO_JOBS, map[])

  /** The first result that a run stores on a device for a job. */
  function FirstStored(labels: seq<Label>, device: Id, job: Id): Option<Submission> {
    if labels == [] then None
    else
      var earlier := FirstStored(labels[..|labels| - 1], device, job);
      var last := labels[|labels| - 1];
      if earlier.None? && last.Store? && last.device == device && last.submission.job == job then Some(last.submission)
          else earlier
  }

  /** What a device holds for a job is the first result it stored. */
  lemma {:induction false} StoreKeepsFirst(labels: seq<Label>, device: Id, job: Id)
    ensures var rows := StoreOf(Run(NO_RESULTS, labels), device);
            match FirstStored(labels, device, job)
            case None => job !in rows
            case Some(b) => job in rows && rows[job].item == b && b.job == job
  {
    if labels != [] {
      hide JobRuns.Next, FromStore;
      StoreKeepsFirst(labels[..|labels| - 1], device, job);
    }
  }

  /** The cloud machine of a run is a run of the job machine. */
  function CloudLabels(labels: seq<Label>): seq<JobRuns.Label> {
    if labels == [] then []
    else
      var rest := CloudLabels(labels[..|labels| - 1]);
      var last := labels[|labels| - 1];
      if last.Cloud? && Enabled(Run(NO_RESULTS, labels[..|labels| - 1]), last) then rest + [last.step] else rest
  }

  lemma {:induction false} MachineRuns(labels: seq<Label>)
    ensures Run(NO_RESULTS, labels).machine == JobRuns.Run(JobRuns.NO_JOBS, CloudLabels(labels))
  {
    hide JobRuns.Next, FromStore;
    if labels != [] {
      MachineRuns(labels[..|labels| - 1]);
      var rest := CloudLabels(labels[..|labels| - 1]);
      var all := CloudLabels(labels);
      if all != rest {
        assert all[..|all| - 1] == rest;
      }
    }
  }

  /** An accepted result is the row that the job's device holds for it. */
  predicate Matches(s: System, r: JobRuns.Record) {
    && r.job in s.machine.jobs
    && var rows := StoreOf(s, s.machine.jobs[r.job].device);
    && r.job in rows && rows[r.job].item.lease == r.lease && rows[r.job].item.status == r.status
         && rows[r.job].item.result == r.result && rows[r.job].item.error == r.error
  }

  predicate AllMatch(s: System) {
    forall r | r in s.machine.records :: Matches(s, r)
  }

  /** The record comes from one of the submissions, made by the job's own device. */
  predicate FromBatch(m: JobRuns.Machine, r: JobRuns.Record, device: Id, submissions: seq<Submission>, at: Stamp) {
    exists b | b in submissions ::
      && r == JobRuns.Record(b.job, b.lease, at, b.status, b.result, b.error)
      && b.job in m.jobs && m.jobs[b.job].device == device
  }

  lemma {:induction false} RecordsFromStore(m: JobRuns.Machine, project: Id, device: Id, submissions: seq<Submission>,
                                            at: Stamp)
    ensures var t := JobRuns.RecordAll(m, project, device, submissions, at);
            && t.jobs.Keys == m.jobs.Keys && (forall id | id in m.jobs :: t.jobs[id].device == m.jobs[id].device)
            && forall r | r in t.records :: r in m.records || FromBatch(m, r, device, submissions, at)
  {
    if submissions != [] {
      RecordsFromStore(m, project, device, submissions[..|submissions| - 1], at);
    }
  }

  /** A label of the job machine keeps every job's device, and accepts only what it submits. */
  lemma MachineStep(m: JobRuns.Machine, l: JobRuns.Label)
    requires JobRuns.Invariant(m)
    ensures var t := JobRuns.Next(m, l);
            && (forall id | id in m.jobs :: id in t.jobs && t.jobs[id].device == m.jobs[id].device)
            && (!l.SubmitResults? ==> t.records == m.records)
            && (l.SubmitResults? ==> forall r | r in t.records ::
                r in m.records || FromBatch(m, r, l.device, l.submissions, l.at))
  {
    hide JobRuns.Invariant, JobRuns.GrantAll, JobRuns.RecordAll, Sweep, LeaseAll, SubmitAll;
    JobRuns.NextEvolves(m, l);
    if JobRuns.Enabled(m, l) {
      match l
      case SubmitResults(project, device, submissions, at) =>
        JobRuns.RowsFine(m);
        SweepLeavesNothingOverdue(m.jobs, at);
        RecordsFromStore(JobRuns.Swept(m, at), project, device, submissions, at);
      case ClaimJobs(_, _, _, at, picks) => GrantsKeepRecords(JobRuns.Swept(m, at), at, picks);
      case _ =>
    }
  }

  lemma {:induction false} GrantsKeepRecords(m: JobRuns.Machine, at: Stamp, picks: seq<Pick>)
    ensures JobRuns.GrantAll(m, at, picks).records == m.records
  {
    if picks != [] {
      GrantsKeepRecords(m, at, picks[..|picks| - 1]);
    }
  }

  lemma NextMatches(s: System, l: Label)
    requires JobRuns.Invariant(s.machine) && AllMatch(s)
    ensures AllMatch(Next(s, l))
  {
    hide JobRuns.Invariant, JobRuns.Next;
    if Enabled(s, l) && l.Cloud? {
      MachineStep(s.machine, l.step);
      var t := Next(s, l);
      forall r | r in t.machine.records ensures Matches(t, r) {
        if r in s.machine.records {
          assert Matches(s, r);
        } else {
          var b :| b in l.step.submissions
                   && r == JobRuns.Record(b.job, b.lease, l.step.at, b.status, b.result, b.error)
                   && b.job in s.machine.jobs && s.machine.jobs[b.job].device == l.step.device;
        }
      }
    } else {
      forall r | r in Next(s, l).machine.records ensures Matches(Next(s, l), r) {
        assert Matches(s, r);
      }
    }
  }

  lemma {:induction false} RunMatches(labels: seq<Label>)
    ensures JobRuns.Invariant(Run(NO_RESULTS, labels).machine) && AllMatch(Run(NO_RESULTS, labels))
  {
    hide JobRuns.Invariant, Next, Matches;
    MachineRuns(labels);
    JobRuns.StartOk();
    JobRuns.RunKeeps(JobRuns.NO_JOBS, CloudLabels(labels));
    if labels != [] {
      RunMatches(labels[..|labels| - 1]);
      NextMatches(Run(NO_RESULTS, labels[..|labels| - 1]), labels[|labels| - 1]);
    }
  }

  lemma {:induction false} RecordsForMembers(records: seq<JobRuns.Record>, id: Id)
    ensures forall r | r in JobRuns.RecordsFor(records, id) :: r in records && r.job == id
  {
    if records != [] {
      RecordsForMembers(records[..|records| - 1], id);
    }
  }

  /** The result that a completed or failed job records is the first one its device ever stored for it. */
  lemma RecordedIsFirstStored(labels: seq<Label>, id: Id)
    requires id in Run(NO_RESULTS, labels).machine.jobs
    requires var j := Run(NO_RESULTS, labels).machine.jobs[id]; j.status == Completed || j.status == Failed
    ensures var j := Run(NO_RESULTS, labels).machine.jobs[id];
            var first := FirstStored(labels, j.device, id);
            first.Some? && j.result == Some(first.value.result) && j.error == first.value.error
            && j.status == first.value.status
  {
    hide JobRuns.Next, FromStore, Put, Mark;
    RunMatches(labels);
    MachineRuns(labels);
    var s := Run(NO_RESULTS, labels);
    var rs := JobRuns.RecordsFor(s.machine.records, id);
    JobRuns.ResultAtMostOnce(CloudLabels(labels), id);
    RecordsForMembers(s.machine.records, id);
    assert rs[0] in s.machine.records;
    assert Matches(s, rs[0]);
    StoreKeepsFirst(labels, s.machine.jobs[id].device, id);
  }
}
