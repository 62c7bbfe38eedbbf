/** What a batch of results does to each job and what the device is told about each result, read off the table that the
    batch found. */
module JobAnswers {
  import opened Prelude
  import opened DeviceJobs
  import opened JobMoves

  /** The i-th submission fits its job as the batch found it. */
  predicate FitsAt(jobs: Jobs, project: Id, device: Id, batch: seq<Submission>, at: Stamp, i: nat)
    requires i < |batch|
  {
    batch[i].job in jobs && Fits(jobs[batch[i].job], project, device, batch[i], at)
  }

  /** The i-th submission is the first of the batch that fits the job. */
  predicate FirstFit(jobs: Jobs, project: Id, device: Id, batch: seq<Submission>, at: Stamp, i: nat, id: Id)
    requires i < |batch|
  {
    && batch[i].job == id && FitsAt(jobs, project, device, batch, at, i)
    && forall k | 0 <= k < i && batch[k].job == id :: !FitsAt(jobs, project, device, batch, at, k)
  }

  /** The job's row after a batch: the first result that fits, or the row as it was. */
  predicate Settlement(jobs: Jobs, after: Jobs, project: Id, device: Id, batch: seq<Submission>, at: Stamp, id: Id)
    requires id in jobs && id in after
  {
    && (forall i | 0 <= i < |batch| && FirstFit(jobs, project, device, batch, at, i, id) ::
          after[id] == Shown(jobs[id], batch[i], at))
    && ((forall i | 0 <= i < |batch| && batch[i].job == id :: !FitsAt(jobs, project, device, batch, at, i)) ==>
          after[id] == jobs[id])
  }

  /** Some submission before the n-th fits the job. */
  predicate FittedBefore(jobs: Jobs, project: Id, device: Id, batch: seq<Submission>, at: Stamp, n: nat, id: Id)
    requires n <= |batch|
  {
    exists k | 0 <= k < n :: batch[k].job == id && FitsAt(jobs, project, device, batch, at, k)
  }

  /** The job is leased to the submitter under the lease that the submission names, and the lease is not over. */
  predicate HeldBySubmitter(jobs: Jobs, project: Id, device: Id, s: Submission, at: Stamp) {
    && s.job in jobs && jobs[s.job].project == project && jobs[s.job].device == device
    && jobs[s.job].status == Leased && jobs[s.job].leaseId == Some(s.lease)
    && jobs[s.job].leaseExpiresAt.Some? && at < jobs[s.job].leaseExpiresAt.value
  }

  /** What the device is told about the i-th submission. */
  function Told(jobs: Jobs, project: Id, device: Id, batch: seq<Submission>, at: Stamp, i: nat): ResultVerdict
    requires i < |batch|
  {
    if |batch[i].result| > 24000 then TooLarge
    else if !HeldBySubmitter(jobs, project, device, batch[i], at)
            || FittedBefore(jobs, project, device, batch, at, i, batch[i].job) then LeaseInvalid
    else if batch[i].status != Completed && batch[i].status != Failed then StatusRejected
    else Accepted
  }

  lemma FirstFitSnoc(jobs: Jobs, project: Id, device: Id, few: seq<Submission>, s: Submission, at: Stamp, i: nat,
                     id: Id)
    requires i < |few|
    ensures FirstFit(jobs, project, device, few, at, i, id) == FirstFit(jobs, project, device, few + [s], at, i, id)
    ensures FitsAt(jobs, project, device, few, at, i) == FitsAt(jobs, project, device, few + [s], at, i)
  {
    assert forall k | 0 <= k < |few| :: (few + [s])[k] == few[k];
  }

  /** Before its first fitting result a job is as the batch found it, afterwards it is settled. */
  predicate Untouched(jobs: Jobs, after: Jobs, project: Id, device: Id, batch: seq<Submission>, at: Stamp, id: Id)
    requires id in jobs && id in after
  {
    if FittedBefore(jobs, project, device, batch, at, |batch|, id)
    then Settled(after[id].status) && after[id].project == jobs[id].project else after[id] == jobs[id]
  }

  lemma {:induction false} BatchSettles(jobs: Jobs, project: Id, device: Id, batch: seq<Submission>, at: Stamp, id: Id)
    requires id in jobs
    ensures var after := SubmitAll(jobs, project, device, batch, at);
            && id in after && Settlement(jobs, after, project, device, batch, at, id)
            && Untouched(jobs, after, project, device, batch, at, id)
  {
    if batch != [] {
      var few, s := batch[..|batch| - 1], batch[|batch| - 1];
      assert batch == few + [s];
      BatchSettles(jobs, project, device, few, at, id);
      forall i | 0 <= i < |few| {
        FirstFitSnoc(jobs, project, device, few, s, at, i, id);
      }
      StepSettles(jobs, project, device, few, s, at, id);
    }
  }

  lemma StepSettles(jobs: Jobs, project: Id, device: Id, few: seq<Submission>, s: Submission, at: Stamp, id: Id)
    requires id in jobs
    requires var before := SubmitAll(jobs, project, device, few, at);
             && id in before && Settlement(jobs, before, project, device, few, at, id)
             && Untouched(jobs, before, project, device, few, at, id)
    ensures var after := SubmitAll(jobs, project, device, few + [s], at);
            && id in after && Settlement(jobs, after, project, device, few + [s], at, id)
            && Untouched(jobs, after, project, device, few + [s], at, id)
  {
    hide SubmitAll, Settled;
    var all := few + [s];
    var before := SubmitAll(jobs, project, device, few, at);
    assert SubmitAll(jobs, project, device, all, at) == SubmitOne(before, project, device, s, at) by {
      SubmitLast(jobs, project, device, few, s, at);
    }
    assert all[|few|] == s;
    FittedSnoc(jobs, project, device, few, s, at, id);
    forall i | 0 <= i < |few| {
      FirstFitSnoc(jobs, project, device, few, s, at, i, id);
    }
    if s.job == id {
      SubmissionTaken(before, project, device, s, at);
    }
    if FittedBefore(jobs, project, device, few, at, |few|, id) {
      SomeFirst(jobs, project, device, few, at, |few|, id);
    }
  }

  lemma SubmitLast(jobs: Jobs, project: Id, device: Id, few: seq<Submission>, s: Submission, at: Stamp)
    ensures SubmitAll(jobs, project, device, few + [s], at)
              == SubmitOne(SubmitAll(jobs, project, device, few, at), project, device, s, at)
  {
    assert (few + [s])[..|few|] == few;
  }

  lemma FittedSnoc(jobs: Jobs, project: Id, device: Id, few: seq<Submission>, s: Submission, at: Stamp, id: Id)
    ensures FittedBefore(jobs, project, device, few + [s], at, |few|, id)
              == FittedBefore(jobs, project, device, few, at, |few|, id)
    ensures FittedBefore(jobs, project, device, few + [s], at, |few| + 1, id) <==>
            || FittedBefore(jobs, project, device, few, at, |few|, id)
            || (s.job == id && id in jobs && Fits(jobs[id], project, device, s, at))
  {
    var all := few + [s];
    assert all[|few|] == s && forall k | 0 <= k < |few| :: all[k] == few[k];
    forall k | 0 <= k < |few|
      ensures FitsAt(jobs, project, device, all, at, k) == FitsAt(jobs, project, device, few, at, k) {}
    if FittedBefore(jobs, project, device, few, at, |few|, id) {
      var k :| 0 <= k < |few| && few[k].job == id && FitsAt(jobs, project, device, few, at, k);
      assert all[k].job == id && FitsAt(jobs, project, device, all, at, k);
    }
    if s.job == id && id in jobs && Fits(jobs[id], project, device, s, at) {
      assert all[|few|].job == id && FitsAt(jobs, project, device, all, at, |few|);
    }
  }

  lemma SubmissionTaken(jobs: Jobs, project: Id, device: Id, s: Submission, at: Stamp)
    ensures Examine(jobs, project, device, s, at).Accepted? <==>
            s.job in jobs && Fits(jobs[s.job], project, device, s, at)
    ensures SubmitOne(jobs, project, device, s, at) ==
            if s.job in jobs && Fits(jobs[s.job], project, device, s, at)
            then jobs[s.job := Shown(jobs[s.job], s, at)] else jobs
    ensures s.job in jobs && Fits(jobs[s.job], project, device, s, at) ==>
              Settled(Shown(jobs[s.job], s, at).status)
  {}

  /** Where some submission fits, one is the first. */
  lemma {:induction false} SomeFirst(jobs: Jobs, project: Id, device: Id, batch: seq<Submission>, at: Stamp, n: nat,
                                     id: Id)
    requires n <= |batch| && FittedBefore(jobs, project, device, batch, at, n, id)
    ensures exists i | 0 <= i < n :: FirstFit(jobs, project, device, batch, at, i, id)
  {
    var k :| 0 <= k < n && batch[k].job == id && FitsAt(jobs, project, device, batch, at, k);
    if FittedBefore(jobs, project, device, batch, at, k, id) {
      SomeFirst(jobs, project, device, batch, at, k, id);
    } else {
      assert FirstFit(jobs, project, device, batch, at, k, id);
    }
  }

  /** Every job after a batch of results: the first submission of the batch that fits it, with its outcome, its text and
      its error, and otherwise the row that the batch found. */
  lemma ResultsSettle(jobs: Jobs, project: Id, device: Id, batch: seq<Submission>, at: Stamp, id: Id)
    requires id in jobs
    ensures var after := SubmitAll(jobs, project, device, batch, at);
            id in after && Settlement(jobs, after, project, device, batch, at, id)
    ensures (exists i | 0 <= i < |batch| :: batch[i].job == id && FitsAt(jobs, project, device, batch, at, i)) ==>
              exists i | 0 <= i < |batch| :: FirstFit(jobs, project, device, batch, at, i, id)
  {
    BatchSettles(jobs, project, device, batch, at, id);
    if FittedBefore(jobs, project, device, batch, at, |batch|, id) {
      SomeFirst(jobs, project, device, batch, at, |batch|, id);
    }
  }

  lemma {:induction false} BatchKeys(jobs: Jobs, project: Id, device: Id, batch: seq<Submission>, at: Stamp)
    ensures SubmitAll(jobs, project, device, batch, at).Keys == jobs.Keys
  {
    SubmitAllKeys(jobs, project, device, batch, at);
  }

  lemma ExaminedExactly(jobs: Jobs, project: Id, device: Id, batch: seq<Submission>, at: Stamp, i: nat)
    requires i < |batch|
    ensures Examine(SubmitAll(jobs, project, device, batch[..i], at), project, device, batch[i], at)
              == Told(jobs, project, device, batch, at, i)
  {
    hide SubmitAll;
    var before := SubmitAll(jobs, project, device, batch[..i], at);
    BatchKeys(jobs, project, device, batch[..i], at);
    var id := batch[i].job;
    if id in jobs {
      BatchSettles(jobs, project, device, batch[..i], at, id);
      assert FittedBefore(jobs, project, device, batch[..i], at, i, id)
          == FittedBefore(jobs, project, device, batch, at, i, id) by {
        forall k | 0 <= k < i ensures FitsAt(jobs, project, device, batch[..i], at, k)
                                      == FitsAt(jobs, project, device, batch, at, k) {}
        PrefixFitted(jobs, project, device, batch, at, i, id);
      }
    }
  }

  lemma PrefixFitted(jobs: Jobs, project: Id, device: Id, batch: seq<Submission>, at: Stamp, i: nat, id: Id)
    requires i <= |batch|
    ensures FittedBefore(jobs, project, device, batch[..i], at, i, id)
              == FittedBefore(jobs, project, device, batch, at, i, id)
  {
    forall k | 0 <= k < i
      ensures batch[..i][k] == batch[k]
      ensures FitsAt(jobs, project, device, batch[..i], at, k) == FitsAt(jobs, project, device, batch, at, k) {}
  }

  /** Every submission is answered once, in order: accepted, or rejected for the first reason that applies to it in the
      table the batch found; a job that an earlier submission settled has no valid lease any more. */
  lemma ResultsAnswered(jobs: Jobs, project: Id, device: Id, batch: seq<Submission>, at: Stamp, i: nat)
    requires i < |batch|
    ensures var before := Answers(jobs, project, device, batch[..i], at);
            var after := Answers(jobs, project, device, batch[..i + 1], at);
            var told := Told(jobs, project, device, batch, at, i);
            if told == Accepted then after == (before.0 + [batch[i].job], before.1)
            else after == (before.0, before.1 + [(batch[i].job, told)])
  {
    hide Told, Examine;
    ExaminedExactly(jobs, project, device, batch, at, i);
    assert batch[..i + 1][..i] == batch[..i];
  }

  /** No submission goes unanswered. */
  lemma {:induction false} EveryResultAnswered(jobs: Jobs, project: Id, device: Id, batch: seq<Submission>, at: Stamp,
                                               i: nat)
    requires i < |batch|
    ensures var answers := Answers(jobs, project, device, batch, at);
            batch[i].job in answers.0 || exists k | 0 <= k < |answers.1| :: answers.1[k].0 == batch[i].job
  {
    hide Examine;
    var few := batch[..|batch| - 1];
    if i < |few| {
      EveryResultAnswered(jobs, project, device, few, at, i);
      var before, after := Answers(jobs, project, device, few, at), Answers(jobs, project, device, batch, at);
      assert before.0 <= after.0 && before.1 <= after.1;
      if batch[i].job !in before.0 {
        var k :| 0 <= k < |before.1| && before.1[k].0 == batch[i].job;
        assert after.1[k] == before.1[k];
      }
    } else {
      var after := Answers(jobs, project, device, batch, at);
      assert batch[i].job !in after.0 ==> after.1[|after.1| - 1].0 == batch[i].job;
    }
  }

  /** The batch holds a result for the job. */
  predicate Submits(batch: seq<Submission>, id: Id) {
    exists i | 0 <= i < |batch| :: batch[i].job == id
  }

  lemma SubmitsSnoc(few: seq<Submission>, s: Submission, id: Id)
    ensures Submits(few + [s], id) <==> Submits(few, id) || s.job == id
  {
    if Submits(few, id) {
      var i :| 0 <= i < |few| && few[i].job == id;
      assert (few + [s])[i].job == id;
    }
    assert (few + [s])[|few|].job == s.job;
  }

  /** Only submitted jobs are answered. */
  lemma {:induction false} OnlyResultsAnswered(jobs: Jobs, project: Id, device: Id, batch: seq<Submission>, at: Stamp)
    ensures var answers := Answers(jobs, project, device, batch, at);
            && (forall id | id in answers.0 :: Submits(batch, id))
            && (forall k | 0 <= k < |answers.1| :: Submits(batch, answers.1[k].0))
  {
    hide Examine, Submits;
    if batch != [] {
      var few, s := batch[..|batch| - 1], batch[|batch| - 1];
      assert batch == few + [s];
      OnlyResultsAnswered(jobs, project, device, few, at);
      forall id: Id {
        SubmitsSnoc(few, s, id);
      }
    }
  }
}
