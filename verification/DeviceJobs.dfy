/**
 Device jobs: approval, queue, a 90-second lease, result, recovery and expiry, as functions on the device_jobs table.
 */
module DeviceJobs {
  import opened Prelude

  const SECOND := 1_000_000
  const LEASE := 90 * SECOND
  const RESULT_LIMIT := 24000

  datatype JobStatus = PendingApproval | Queued | Leased | Completed | Failed | Expired | Cancelled

  /** A row of device_jobs; `result` is the serialised result. */
  datatype Job = Job(project: Id, device: Id, status: JobStatus, expiresAt: Stamp, createdAt: Stamp,
                     approvedAt: Option<Stamp>, approvedBy: Option<Id>, leaseId: Option<Id>,
                     leaseExpiresAt: Option<Stamp>,
                     result: Option<string>, error: Option<string>, completedAt: Option<Stamp>)

  type Jobs = map<Id, Job>

  /** A result as a device submits it. */
  datatype Submission = Submission(job: Id, lease: Id, status: JobStatus, result: string, error: Option<string>)

  // ---------------------------------------------------------------- expiry and recovery

  /** First UPDATE: an overdue lease of a live job returns the job to the queue. */
  function Recovered(j: Job, at: Stamp): Job {
    if j.status == Leased && j.leaseExpiresAt.Some? && j.leaseExpiresAt.value <= at && j.expiresAt > at
    then j.(status := Queued, leaseId := None, leaseExpiresAt := None) else j
  }

  /** Second UPDATE: an overdue job that is not settled expires. */
  function Lapsed(j: Job, at: Stamp): Job {
    if (j.status == PendingApproval || j.status == Queued || j.status == Leased) && j.expiresAt <= at
    then j.(status := Expired, leaseId := None, leaseExpiresAt := None) else j
  }

  function Sweep(jobs: Jobs, at: Stamp): Jobs {
    map id | id in jobs :: Lapsed(Recovered(jobs[id], at), at)
  }

  // ---------------------------------------------------------------- operations

  /** `registered` is the outcome of the device and workspace lookups. `None` is an exception, which also rolls the
      sweep back. The expiry comes from a second, later clock reading. */
  function Create(jobs: Jobs, id: Id, project: Id, device: Id, registered: bool, seconds: nat, at: Stamp,
                  reading: Stamp): Option<Jobs> {
    if !registered || id in jobs then None
    else Some(Sweep(jobs, at)[id := Job(project, device, PendingApproval, reading + seconds * SECOND, at,
                                        None, None, None, None, None, None, None)])
  }

  predicate Approvable(jobs: Jobs, project: Id, id: Id) {
    id in jobs && jobs[id].project == project && jobs[id].status == PendingApproval
  }

  function Approve(jobs: Jobs, project: Id, id: Id, approver: Id, approved: bool, at: Stamp): Jobs {
    var swept := Sweep(jobs, at);
    if Approvable(swept, project, id)
    then swept[id := swept[id].(status := if approved then Queued else Cancelled, approvedAt := Some(at),
                                approvedBy := Some(approver))]
    else swept
  }

  /** One row of a claim: the fresh lease id and the clock reading taken for it. */
  datatype Pick = Pick(job: Id, lease: Id, reading: Stamp)

  function LeaseOne(jobs: Jobs, pick: Pick): Jobs {
    if pick.job in jobs && jobs[pick.job].status == Queued
    then jobs[pick.job := jobs[pick.job].(status := Leased, leaseId := Some(pick.lease),
         leaseExpiresAt := Some(Min(jobs[pick.job].expiresAt, pick.reading + LEASE)))]
    else jobs
  }

  function LeaseAll(jobs: Jobs, picks: seq<Pick>): Jobs {
    if picks == [] then jobs else LeaseOne(LeaseAll(jobs, picks[..|picks| - 1]), picks[|picks| - 1])
  }

  predicate Claimable(jobs: Jobs, project: Id, device: Id, at: Stamp, id: Id) {
    id in jobs && jobs[id].project == project && jobs[id].device == device && jobs[id].status == Queued
        && jobs[id].expiresAt > at
  }

  /** An answer of the claim's SELECT .. ORDER BY created_at LIMIT; ties may fall either way. */
  predicate IsSelection(jobs: Jobs, project: Id, device: Id, at: Stamp, limit: nat, ids: seq<Id>) {
    && |ids| <= limit
    && (forall i | 0 <= i < |ids| :: Claimable(jobs, project, device, at, ids[i]))
    && (forall i, j | 0 <= i < j < |ids| :: ids[i] != ids[j] && jobs[ids[i]].createdAt <= jobs[ids[j]].createdAt)
    && forall id | id in jobs && Claimable(jobs, project, device, at, id) && id !in ids ::
         |ids| == limit && forall i | 0 <= i < |ids| :: jobs[ids[i]].createdAt <= jobs[id].createdAt
  }

  function PickedJobs(picks: seq<Pick>): seq<Id> {
    seq(|picks|, i requires 0 <= i < |picks| => picks[i].job)
  }

  function Claim(jobs: Jobs, at: Stamp, picks: seq<Pick>): Jobs {
    LeaseAll(Sweep(jobs, at), picks)
  }

  datatype ResultVerdict = TooLarge | LeaseInvalid | StatusRejected | Accepted

  function Examine(jobs: Jobs, project: Id, device: Id, s: Submission, at: Stamp): ResultVerdict {
    if |s.result| > RESULT_LIMIT then TooLarge
    else if s.job !in jobs || jobs[s.job].project != project || jobs[s.job].device != device
            || jobs[s.job].status != Leased || jobs[s.job].leaseId != Some(s.lease)
            || jobs[s.job].leaseExpiresAt.None? || jobs[s.job].leaseExpiresAt.value <= at
    then LeaseInvalid
    else if s.status != Completed && s.status != Failed then StatusRejected
    else Accepted
  }

  function SubmitOne(jobs: Jobs, project: Id, device: Id, s: Submission, at: Stamp): Jobs {
    if Examine(jobs, project, device, s, at).Accepted?
    then jobs[s.job := jobs[s.job].(status := s.status, result := Some(s.result), error := s.error,
                                    completedAt := Some(at),
         leaseId := None, leaseExpiresAt := None)]
    else jobs
  }

  function SubmitAll(jobs: Jobs, project: Id, device: Id, submissions: seq<Submission>, at: Stamp): Jobs {
    if submissions == [] then jobs
    else SubmitOne(SubmitAll(jobs, project, device, submissions[..|submissions| - 1], at), project, device,
                   submissions[|submissions| - 1], at)
  }

  /** The answers of a batch of submissions: accepted job ids, and rejected ones with their verdicts. */
  function Answers(jobs: Jobs, project: Id, device: Id, submissions: seq<Submission>, at: Stamp)
    : (seq<Id>, seq<(Id, ResultVerdict)>)
  {
    if submissions == [] then ([], [])
    else
      var last := submissions[|submissions| - 1];
      var rest := Answers(jobs, project, device, submissions[..|submissions| - 1], at);
      var v := Examine(SubmitAll(jobs, project, device, submissions[..|submissions| - 1], at), project, device, last,
                       at);
      if v.Accepted? then (rest.0 + [last.job], rest.1) else (rest.0, rest.1 + [(last.job, v)])
  }

  function Complete(jobs: Jobs, project: Id, device: Id, submissions: seq<Submission>, at: Stamp): Jobs {
    SubmitAll(Sweep(jobs, at), project, device, submissions, at)
  }

  /** Some job was created first. */
  lemma {:induction false} OldestExists(jobs: Jobs, ids: set<Id>) returns (oldest: Id)
    requires ids != {} && ids <= jobs.Keys
    ensures oldest in ids && forall id | id in ids :: jobs[oldest].createdAt <= jobs[id].createdAt
    decreases |ids|
  {
    var x :| x in ids;
    if ids == {x} {
      oldest := x;
    } else {
      var rest := OldestExists(jobs, ids - {x});
      oldest := if jobs[x].createdAt < jobs[rest].createdAt then x else rest;
      assert forall id | id in ids :: id == x || id in ids - {x};
    }
  }

  // ---------------------------------------------------------------- the machine invariant of one row

  predicate Settled(status: JobStatus) {
    status == Completed || status == Failed || status == Expired || status == Cancelled
  }

  /** Approved before it runs; leased exactly when both lease columns are set, and never past the job's own expiry. */
  predicate RowOk(j: Job) {
    && (j.status == Queued || j.status == Leased || j.status == Completed || j.status == Failed
        ==> j.approvedAt.Some? && j.approvedBy.Some?)
    && (j.status == PendingApproval ==> j.approvedAt.None?)
    && (j.status == Leased <==> j.leaseId.Some?)
    && (j.status == Leased <==> j.leaseExpiresAt.Some?)
    && (j.status == Leased ==> j.leaseExpiresAt.value <= j.expiresAt)
    && (j.status == Completed || j.status == Failed <==> j.result.Some?)
  }

  predicate RowsOk(jobs: Jobs) {
    forall id | id in jobs :: RowOk(jobs[id])
  }

  /** Moves that keep a row's identity: the status graph, with settled rows frozen. */
  predicate Moves(a: Job, b: Job) {
    && a.project == b.project && a.device == b.device && a.expiresAt == b.expiresAt && a.createdAt == b.createdAt
    && (Settled(a.status) ==> a == b)
    && (a.approvedAt.Some? ==> a.approvedAt == b.approvedAt && a.approvedBy == b.approvedBy)
    && (b.status == PendingApproval ==> a == b)
  }

  predicate Evolves(jobs: Jobs, later: Jobs) {
    jobs.Keys <= later.Keys && forall id | id in jobs :: Moves(jobs[id], later[id])
  }

  lemma EvolvesTransitive(a: Jobs, b: Jobs, c: Jobs)
    requires Evolves(a, b) && Evolves(b, c)
    ensures Evolves(a, c)
  {}

  lemma SweptRowOk(j: Job, at: Stamp)
    requires RowOk(j)
    ensures var k := Lapsed(Recovered(j, at), at);
            && RowOk(k) && Moves(j, k)
            && (k.status == Leased ==> k.leaseExpiresAt.value > at && k.expiresAt > at && k == j)
            && (k.status == Queued || k.status == PendingApproval ==> k.expiresAt > at)
            && (k.status == Queued && j.status == Leased ==> j.leaseExpiresAt.value <= at)
  {}

  /** After recovery at a time, no lease and no live job is overdue at that time; only overdue leases went back to the
      queue. */
  lemma SweepLeavesNothingOverdue(jobs: Jobs, at: Stamp)
    requires RowsOk(jobs)
    ensures RowsOk(Sweep(jobs, at)) && Evolves(jobs, Sweep(jobs, at)) && Sweep(jobs, at).Keys == jobs.Keys
    ensures forall id | id in jobs ::
              var j := Sweep(jobs, at)[id];
              && (j.status == Leased ==> j.leaseExpiresAt.value > at && j.expiresAt > at && j == jobs[id])
              && (j.status == Queued || j.status == PendingApproval ==> j.expiresAt > at)
              && (j.status == Queued && jobs[id].status == Leased ==> jobs[id].leaseExpiresAt.value <= at)
  {
    hide RowOk, Moves, Lapsed, Recovered;
    forall id | id in jobs {
      SweptRowOk(jobs[id], at);
    }
  }

  lemma {:induction false} LeaseAllKeeps(jobs: Jobs, picks: seq<Pick>)
    requires RowsOk(jobs)
    ensures RowsOk(LeaseAll(jobs, picks)) && Evolves(jobs, LeaseAll(jobs, picks))
  {
    if picks != [] {
      LeaseAllKeeps(jobs, picks[..|picks| - 1]);
    }
  }

  /** One submission leaves every row as it was, or settles its own leased row. */
  predicate SettlesOnly(jobs: Jobs, after: Jobs) {
    && after.Keys == jobs.Keys
    && forall id | id in jobs :: after[id] == jobs[id] || (jobs[id].status == Leased && Settled(after[id].status))
  }

  lemma SubmitOneKeeps(jobs: Jobs, project: Id, device: Id, s: Submission, at: Stamp)
    requires RowsOk(jobs)
    ensures var after := SubmitOne(jobs, project, device, s, at);
            RowsOk(after) && Evolves(jobs, after) && SettlesOnly(jobs, after)
  {
    var after := SubmitOne(jobs, project, device, s, at);
    forall id | id in jobs ensures RowOk(after[id]) && Moves(jobs[id], after[id]) {
      assert RowOk(jobs[id]);
    }
  }

  lemma SettlesOnlyTransitive(a: Jobs, b: Jobs, c: Jobs)
    requires SettlesOnly(a, b) && SettlesOnly(b, c)
    ensures SettlesOnly(a, c)
  {
    forall id | id in a ensures c[id] == a[id] || (a[id].status == Leased && Settled(c[id].status)) {
      assert b[id] == a[id] || (a[id].status == Leased && Settled(b[id].status));
    }
  }

  lemma {:induction false} SubmitAllKeeps(jobs: Jobs, project: Id, device: Id, submissions: seq<Submission>, at: Stamp)
    requires RowsOk(jobs)
    ensures var after := SubmitAll(jobs, project, device, submissions, at);
            RowsOk(after) && Evolves(jobs, after) && SettlesOnly(jobs, after)
  {
    hide SubmitOne, RowsOk, Moves, SettlesOnly;
    if submissions == [] {
      NothingSubmitted(jobs);
    } else {
      var few, last := submissions[..|submissions| - 1], submissions[|submissions| - 1];
      SubmitAllKeeps(jobs, project, device, few, at);
      var before := SubmitAll(jobs, project, device, few, at);
      SubmitOneKeeps(before, project, device, last, at);
      EvolvesTransitive(jobs, before, SubmitOne(before, project, device, last, at));
      SettlesOnlyTransitive(jobs, before, SubmitOne(before, project, device, last, at));
    }
  }

  lemma NothingSubmitted(jobs: Jobs)
    ensures Evolves(jobs, jobs) && SettlesOnly(jobs, jobs)
  {}

  /** The accepted ids are distinct jobs that were leased before and are settled now. */
  predicate AcceptedOnce(accepted: seq<Id>, jobs: Jobs, after: Jobs) {
    && (forall i, j | 0 <= i < j < |accepted| :: accepted[i] != accepted[j])
    && forall id | id in accepted :: id in jobs && id in after && jobs[id].status == Leased && Settled(after[id].status)
  }

  /** Accepting one more job: it was leased until now, so it is none of those accepted before. */
  lemma AcceptedSnoc(accepted: seq<Id>, jobs: Jobs, before: Jobs, after: Jobs, id: Id)
    requires AcceptedOnce(accepted, jobs, before) && SettlesOnly(jobs, before) && SettlesOnly(before, after)
    requires id in before && before[id].status == Leased && id in after && Settled(after[id].status)
    ensures AcceptedOnce(accepted + [id], jobs, after)
  {
    forall k | k in accepted ensures k != id && Settled(after[k].status) {
      assert Settled(before[k].status);
    }
  }

  lemma AcceptedLater(accepted: seq<Id>, jobs: Jobs, before: Jobs, after: Jobs)
    requires AcceptedOnce(accepted, jobs, before) && SettlesOnly(before, after)
    ensures AcceptedOnce(accepted, jobs, after)
  {}

  lemma AnswersStep(jobs: Jobs, project: Id, device: Id, submissions: seq<Submission>, at: Stamp)
    requires submissions != []
    ensures var few, last := submissions[..|submissions| - 1], submissions[|submissions| - 1];
            var before := SubmitAll(jobs, project, device, few, at);
            && SubmitAll(jobs, project, device, submissions, at) == SubmitOne(before, project, device, last, at)
            && Answers(jobs, project, device, submissions, at).0 ==
               if Examine(before, project, device, last, at).Accepted?
               then Answers(jobs, project, device, few, at).0 + [last.job]
                   else Answers(jobs, project, device, few, at).0
  {}

  lemma AcceptanceSettles(jobs: Jobs, project: Id, device: Id, s: Submission, at: Stamp)
    requires Examine(jobs, project, device, s, at).Accepted?
    ensures var after := SubmitOne(jobs, project, device, s, at);
            s.job in jobs && jobs[s.job].status == Leased && s.job in after && Settled(after[s.job].status)
  {}

  lemma NothingAccepted(jobs: Jobs, project: Id, device: Id, at: Stamp)
    ensures Answers(jobs, project, device, [], at).0 == [] && SubmitAll(jobs, project, device, [], at) == jobs
  {}

  /** Repeated result submissions are at most once: in one batch a job is accepted at most one time, and it is settled
      then. */
  lemma {:induction false} BatchAcceptsOnce(jobs: Jobs, project: Id, device: Id, submissions: seq<Submission>,
                                            at: Stamp)
    requires RowsOk(jobs)
    ensures AcceptedOnce(Answers(jobs, project, device, submissions, at).0, jobs,
                         SubmitAll(jobs, project, device, submissions, at))
  {
    hide SubmitAll, Answers, SubmitOne, Examine, RowsOk, Evolves, SettlesOnly;
    if submissions == [] {
      NothingAccepted(jobs, project, device, at);
    } else {
      hide AcceptedOnce;
      var few, last := submissions[..|submissions| - 1], submissions[|submissions| - 1];
      BatchAcceptsOnce(jobs, project, device, few, at);
      AnswersStep(jobs, project, device, submissions, at);
      var before := SubmitAll(jobs, project, device, few, at);
      var after := SubmitOne(before, project, device, last, at);
      SubmitAllKeeps(jobs, project, device, few, at);
      SubmitOneKeeps(before, project, device, last, at);
      var accepted := Answers(jobs, project, device, few, at).0;
      if Examine(before, project, device, last, at).Accepted? {
        AcceptanceSettles(before, project, device, last, at);
        AcceptedSnoc(accepted, jobs, before, after, last.job);
      } else {
        AcceptedLater(accepted, jobs, before, after);
      }
    }
  }
}
