/** Every move that a step can make a job row do, in terms of the row and the request alone, and what the moves of a
    whole run add up to: where a job comes from, who approved it, and why it ended. */
module JobMoves {
  import opened Prelude
  import opened DeviceJobs
  import opened JobRuns

  // ---------------------------------------------------------------- the moves of one row

  predicate Unsettled(j: Job) {
    j.status == PendingApproval || j.status == Queued || j.status == Leased
  }

  /** A lease that is overdue at the stamp of a request. */
  predicate LeaseOver(j: Job, at: Stamp) {
    j.status == Leased && j.leaseExpiresAt.Some? && j.leaseExpiresAt.value <= at
  }

  predicate Expires(a: Job, b: Job, at: Stamp) {
    Unsettled(a) && a.expiresAt <= at && b == a.(status := Expired, leaseId := None, leaseExpiresAt := None)
  }

  predicate GoesBack(a: Job, b: Job, at: Stamp) {
    LeaseOver(a, at) && at < a.expiresAt && b == a.(status := Queued, leaseId := None, leaseExpiresAt := None)
  }

  /** The request decides about this job while it is pending and live. */
  predicate Decides(a: Job, id: Id, l: Label) {
    l.ApproveJob? && l.id == id && l.project == a.project && a.status == PendingApproval && l.at < a.expiresAt
  }

  predicate Decided(a: Job, b: Job, id: Id, l: Label) {
    && Decides(a, id, l)
    && b == a.(approvedAt := Some(l.at), approvedBy := Some(l.approver), status := if l.approved then Queued
               else Cancelled)
  }

  /** The row under the lease of a pick: 90 seconds from its reading, and never past the job's own expiry. */
  predicate Under(a: Job, b: Job, id: Id, pick: Pick) {
    && pick.job == id
    && b == a.(status := Leased, leaseId := Some(pick.lease),
               leaseExpiresAt := Some(Min(a.expiresAt, pick.reading + 90 * 1_000_000)))
  }

  /** A claim by the job's own device takes it from the queue, or from an overdue lease, under one of its draws. */
  predicate Taken(a: Job, b: Job, id: Id, l: Label) {
    && l.ClaimJobs? && l.project == a.project && l.device == a.device && l.at < a.expiresAt
    && (a.status == Queued || LeaseOver(a, l.at))
    && exists i | 0 <= i < |l.picks| :: Under(a, b, id, l.picks[i])
  }

  /** A submission that the job takes: by its own device, under its lease, in time, small enough, and with an
      outcome. */
  predicate Fits(a: Job, project: Id, device: Id, s: Submission, at: Stamp) {
    && a.project == project && a.device == device
    && a.status == Leased && a.leaseId == Some(s.lease)
    && a.leaseExpiresAt.Some? && at < a.leaseExpiresAt.value
    && |s.result| <= 24000 && (s.status == Completed || s.status == Failed)
  }

  /** The row that shows a submission. */
  function Shown(a: Job, s: Submission, at: Stamp): Job {
    a.(status := s.status, result := Some(s.result), error := s.error, completedAt := Some(at), leaseId := None,
       leaseExpiresAt := None)
  }

  predicate Finished(a: Job, b: Job, id: Id, l: Label) {
    && l.SubmitResults? && l.at < a.expiresAt
    && exists i | 0 <= i < |l.submissions| :: l.submissions[i].job == id
         && Fits(a, l.project, l.device, l.submissions[i], l.at) && b == Shown(a, l.submissions[i], l.at)
  }

  /** All that one step can do to a row. */
  predicate Moved(a: Job, b: Job, id: Id, l: Label) {
    a == b || Expires(a, b, l.at) || GoesBack(a, b, l.at) || Decided(a, b, id, l) || Taken(a, b, id, l)
    || Finished(a, b, id, l)
  }

  /** The row of a new job is the request's. */
  predicate Created(b: Job, id: Id, l: Label) {
    && l.CreateJob? && l.id == id && l.registered
    && b == Job(l.project, l.device, PendingApproval, l.reading + l.seconds * 1_000_000, l.at, None, None, None, None,
                None, None, None)
  }

  lemma SweptRowMoves(a: Job, id: Id, l: Label)
    requires RowOk(a)
    ensures var b := Lapsed(Recovered(a, l.at), l.at); a == b || Expires(a, b, l.at) || GoesBack(a, b, l.at)
    ensures var b := Lapsed(Recovered(a, l.at), l.at);
            && (b.status == Queued ==> l.at < a.expiresAt && (a.status == Queued || LeaseOver(a, l.at))
                                       && b == a.(status := Queued, leaseId := None, leaseExpiresAt := None))
            && (b.status == Leased ==> a == b && l.at < a.expiresAt)
            && (b.status == PendingApproval ==> a == b && l.at < a.expiresAt)
  {}

  /** One claim leases a queued job at most once. */
  lemma {:induction false} LeasedByPick(jobs: Jobs, picks: seq<Pick>, id: Id)
    requires id in jobs
    ensures var after := LeaseAll(jobs, picks);
            && after.Keys == jobs.Keys
            && (after[id] == jobs[id] || jobs[id].status == Queued)
            && (after[id] == jobs[id] || exists i | 0 <= i < |picks| :: Under(jobs[id], after[id], id, picks[i]))
  {
    if picks != [] {
      var few := picks[..|picks| - 1];
      LeasedByPick(jobs, few, id);
      var before := LeaseAll(jobs, few);
      if before[id] != jobs[id] {
        var i :| 0 <= i < |few| && Under(jobs[id], before[id], id, few[i]);
        assert picks[i] == few[i];
      } else if LeaseAll(jobs, picks)[id] != before[id] {
        assert Under(jobs[id], LeaseAll(jobs, picks)[id], id, picks[|few|]);
      }
    }
  }

  lemma {:induction false} SettledBySubmission(jobs: Jobs, project: Id, device: Id, batch: seq<Submission>, at: Stamp,
                                               id: Id)
    requires id in jobs
    ensures var after := SubmitAll(jobs, project, device, batch, at);
            && after.Keys == jobs.Keys
            && (after[id] == jobs[id]
                || exists i | 0 <= i < |batch| :: batch[i].job == id && Fits(jobs[id], project, device, batch[i], at)
                    && after[id] == Shown(jobs[id], batch[i], at))
  {
    if batch != [] {
      var few := batch[..|batch| - 1];
      SettledBySubmission(jobs, project, device, few, at, id);
      var before := SubmitAll(jobs, project, device, few, at);
      if before[id] != jobs[id] {
        var i :| 0 <= i < |few| && few[i].job == id && Fits(jobs[id], project, device, few[i], at)
                 && before[id] == Shown(jobs[id], few[i], at);
        assert batch[i] == few[i];
      } else if SubmitAll(jobs, project, device, batch, at)[id] != before[id] {
        assert batch[|few|].job == id && Fits(jobs[id], project, device, batch[|few|], at);
      }
    }
  }

  lemma ClaimMoves(m: Machine, l: Label, id: Id)
    requires Invariant(m) && id in m.jobs && l.ClaimJobs? && Enabled(m, l)
    ensures var t := Next(m, l); t.jobs.Keys == m.jobs.Keys && Moved(m.jobs[id], t.jobs[id], id, l)
  {
    hide Invariant, GrantAll, LeaseAll, RowOk, Lapsed, Recovered, Expires, GoesBack, Decided, Finished;
    RowsFine(m);
    var swept := Sweep(m.jobs, l.at);
    SweptRowMoves(m.jobs[id], id, l);
    GrantsFollowClaim(Swept(m, l.at), l.at, l.picks);
    LeasedByPick(swept, l.picks, id);
    if Next(m, l).jobs[id] != swept[id] {
      var i :| 0 <= i < |l.picks| && Under(swept[id], Next(m, l).jobs[id], id, l.picks[i]);
      SelectionDistinct(swept, l.project, l.device, l.at, l.limit, l.picks);
      assert Claimable(swept, l.project, l.device, l.at, l.picks[i].job);
      assert Under(m.jobs[id], Next(m, l).jobs[id], id, l.picks[i]);
    }
  }

  lemma SubmitMoves(m: Machine, l: Label, id: Id)
    requires Invariant(m) && id in m.jobs && l.SubmitResults?
    ensures var t := Next(m, l); t.jobs.Keys == m.jobs.Keys && Moved(m.jobs[id], t.jobs[id], id, l)
  {
    hide Invariant, RecordAll, SubmitAll, RowOk, Lapsed, Recovered, Expires, GoesBack, Decided, Taken;
    RowsFine(m);
    var swept := Sweep(m.jobs, l.at);
    SweptRowMoves(m.jobs[id], id, l);
    RecordsFollowSubmissions(Swept(m, l.at), l.project, l.device, l.submissions, l.at);
    SettledBySubmission(swept, l.project, l.device, l.submissions, l.at, id);
    if Next(m, l).jobs[id] != swept[id] {
      var i :| 0 <= i < |l.submissions| && l.submissions[i].job == id
               && Fits(swept[id], l.project, l.device, l.submissions[i], l.at)
               && Next(m, l).jobs[id] == Shown(swept[id], l.submissions[i], l.at);
      assert Finished(m.jobs[id], Next(m, l).jobs[id], id, l);
    }
  }

  lemma TableMoves(m: Machine, l: Label, id: Id)
    requires Invariant(m) && id in m.jobs && !l.ClaimJobs? && !l.SubmitResults?
    ensures id in Next(m, l).jobs && Moved(m.jobs[id], Next(m, l).jobs[id], id, l)
  {
    hide Invariant, RowOk, Lapsed, Recovered, Expires, GoesBack, Taken, Finished;
    RowsFine(m);
    SweptRowMoves(m.jobs[id], id, l);
  }

  /** A step does to a row one of the named moves or nothing. */
  lemma NextMoves(m: Machine, l: Label, id: Id)
    requires Invariant(m) && id in m.jobs
    ensures id in Next(m, l).jobs && Moved(m.jobs[id], Next(m, l).jobs[id], id, l)
  {
    hide Invariant, Moved;
    if !Enabled(m, l) {
      assert Moved(m.jobs[id], m.jobs[id], id, l) by { Unmoved(m.jobs[id], id, l); }
    } else {
      hide Next;
      match l
      case ClaimJobs(_, _, _, _, _) => ClaimMoves(m, l, id);
      case SubmitResults(_, _, _, _) => SubmitMoves(m, l, id);
      case _ => TableMoves(m, l, id);
    }
  }

  lemma Unmoved(a: Job, id: Id, l: Label)
    ensures Moved(a, a, id, l)
  {}

  /** A row that is new was created by this step as the request says. */
  lemma NextCreates(m: Machine, l: Label, id: Id)
    requires Invariant(m) && id !in m.jobs && id in Next(m, l).jobs
    ensures Created(Next(m, l).jobs[id], id, l)
  {
    hide Invariant, GrantAll, RecordAll, LeaseAll, SubmitAll, Lapsed, Recovered;
    match l
    case ClaimJobs(_, _, _, _, picks) =>
      GrantsFollowClaim(Swept(m, l.at), l.at, picks);
      LeaseAllKeys(Sweep(m.jobs, l.at), picks);
    case SubmitResults(project, device, submissions, at) =>
      RecordsFollowSubmissions(Swept(m, at), project, device, submissions, at);
      SubmitAllKeys(Sweep(m.jobs, at), project, device, submissions, at);
    case _ =>
  }

  lemma {:induction false} LeaseAllKeys(jobs: Jobs, picks: seq<Pick>)
    ensures LeaseAll(jobs, picks).Keys == jobs.Keys
  {
    if picks != [] {
      LeaseAllKeys(jobs, picks[..|picks| - 1]);
    }
  }

  lemma {:induction false} SubmitAllKeys(jobs: Jobs, project: Id, device: Id, batch: seq<Submission>, at: Stamp)
    ensures SubmitAll(jobs, project, device, batch, at).Keys == jobs.Keys
  {
    if batch != [] {
      SubmitAllKeys(jobs, project, device, batch[..|batch| - 1], at);
    }
  }

  /** Every row of every run: it was not there, and the step created it, or the step did to it one of the named
      moves. */
  lemma JobsMoveOnlySo(labels: seq<Label>, l: Label, id: Id)
    ensures var m, t := Run(NO_JOBS, labels), Run(NO_JOBS, labels + [l]);
            && (id in m.jobs ==> id in t.jobs && Moved(m.jobs[id], t.jobs[id], id, l))
            && (id !in m.jobs && id in t.jobs ==> Created(t.jobs[id], id, l))
  {
    hide Next, Invariant, Moved, Created;
    StartOk();
    RunKeeps(NO_JOBS, labels);
    assert (labels + [l])[..|labels|] == labels;
    var m := Run(NO_JOBS, labels);
    if id in m.jobs {
      NextMoves(m, l, id);
    } else if id in Next(m, l).jobs {
      NextCreates(m, l, id);
    }
  }

  // ---------------------------------------------------------------- what a step must do

  /** The transaction of the label commits. */
  predicate Commits(m: Machine, l: Label) {
    Enabled(m, l) && (l.CreateJob? ==> l.registered && l.id !in m.jobs)
  }

  lemma SweepKeys(jobs: Jobs, at: Stamp)
    ensures Sweep(jobs, at).Keys == jobs.Keys
  {}

  /** A second sweep at the same time changes nothing. */
  lemma SweepTwice(jobs: Jobs, at: Stamp)
    ensures Sweep(Sweep(jobs, at), at) == Sweep(jobs, at)
  {}

  /** A transaction that commits could have been preceded by a recovery with its own stamp. */
  lemma SweepFirst(m: Machine, l: Label)
    ensures if Commits(m, l) then Next(m, l) == Next(Swept(m, l.at), l) else Next(m, l) == m
  {
    hide Sweep, IsSelection;
    SweepTwice(m.jobs, l.at);
    SweepKeys(m.jobs, l.at);
    assert Swept(Swept(m, l.at), l.at) == Swept(m, l.at);
  }

  /** What a transaction that commits must do, whatever else it does: a job that is over expires, an overdue lease of a
      live job ends, and a decision about a live pending job is carried out. */
  predicate Enforced(a: Job, b: Job, id: Id, l: Label) {
    && (Unsettled(a) && a.expiresAt <= l.at ==> b == a.(status := Expired, leaseId := None, leaseExpiresAt := None))
    && (LeaseOver(a, l.at) && l.at < a.expiresAt && !l.ClaimJobs?
        ==> b == a.(status := Queued, leaseId := None, leaseExpiresAt := None))
    && (Decides(a, id, l) ==> Decided(a, b, id, l))
  }

  lemma SweepEnforces(a: Job, at: Stamp)
    requires RowOk(a)
    ensures var b := Lapsed(Recovered(a, at), at);
            && (Unsettled(a) && a.expiresAt <= at
                ==> b == a.(status := Expired, leaseId := None, leaseExpiresAt := None))
            && (LeaseOver(a, at) && at < a.expiresAt
                ==> b == a.(status := Queued, leaseId := None, leaseExpiresAt := None))
            && (a.status == PendingApproval && at < a.expiresAt ==> b == a)
  {}

  lemma QueuedStays(a: Job, b: Job, id: Id, l: Label)
    requires Moved(a, b, id, l) && a.status == Queued && l.at < a.expiresAt && !l.ClaimJobs?
    ensures a == b
  {}

  lemma ExpiredStays(a: Job, b: Job, id: Id, l: Label)
    requires Moved(a, b, id, l) && a.status == Expired
    ensures a == b
  {}

  lemma DecisionCarriedOut(m: Machine, l: Label, id: Id)
    requires id in m.jobs && Decides(m.jobs[id], id, l) && RowOk(m.jobs[id])
    ensures Decided(m.jobs[id], Next(m, l).jobs[id], id, l)
  {}

  lemma NextEnforces(m: Machine, l: Label, id: Id)
    requires Invariant(m) && id in m.jobs && Commits(m, l)
    ensures id in Next(m, l).jobs && Enforced(m.jobs[id], Next(m, l).jobs[id], id, l)
  {
    hide Invariant, Next, Moved, RowOk, Lapsed, Recovered, Enabled, Decided;
    RowsFine(m);
    var swept := Swept(m, l.at);
    var a := m.jobs[id];
    SweepFirst(m, l);
    SweepEnforces(a, l.at);
    SweepKeeps(m, l.at);
    NextMoves(m, l, id);
    NextMoves(swept, l, id);
    if Decides(a, id, l) {
      DecisionCarriedOut(m, l, id);
    }
    var s := swept.jobs[id];
    if Unsettled(a) && a.expiresAt <= l.at {
      ExpiredStays(s, Next(m, l).jobs[id], id, l);
    }
    if LeaseOver(a, l.at) && l.at < a.expiresAt && !l.ClaimJobs? {
      QueuedStays(s, Next(m, l).jobs[id], id, l);
    }
  }

  /** In every run, a transaction that commits does what it must to every job. */
  lemma JobsMustMove(labels: seq<Label>, l: Label, id: Id)
    requires id in Run(NO_JOBS, labels).jobs && Commits(Run(NO_JOBS, labels), l)
    ensures var t := Run(NO_JOBS, labels + [l]);
            id in t.jobs && Enforced(Run(NO_JOBS, labels).jobs[id], t.jobs[id], id, l)
  {
    hide Next, Invariant, Enforced, Commits;
    StartOk();
    RunKeeps(NO_JOBS, labels);
    assert (labels + [l])[..|labels|] == labels;
    NextEnforces(Run(NO_JOBS, labels), l, id);
  }

  lemma {:induction false} PicksAreLeased(jobs: Jobs, picks: seq<Pick>, i: nat)
    requires i < |picks| && picks[i].job in jobs && jobs[picks[i].job].status == Queued
    requires forall j, k | 0 <= j < k < |picks| :: picks[j].job != picks[k].job
    ensures var after := LeaseAll(jobs, picks);
            picks[i].job in after && Under(jobs[picks[i].job], after[picks[i].job], picks[i].job, picks[i])
  {
    var few := picks[..|picks| - 1];
    if i < |few| {
      PicksAreLeased(jobs, few, i);
    } else {
      LeasedByPick(jobs, few, picks[i].job);
    }
  }

  /** In every run a claim leases all its picks, oldest first, each under its own draw, and passes over a job of its
      device that is queued and live only when the limit is reached by jobs created no later. */
  lemma ClaimsServeOldest(labels: seq<Label>, l: Label, id: Id)
    requires l.ClaimJobs? && Enabled(Run(NO_JOBS, labels), l)
    ensures var m, t := Run(NO_JOBS, labels), Run(NO_JOBS, labels + [l]);
            && (forall i | 0 <= i < |l.picks| ::
                  && l.picks[i].job in m.jobs && l.picks[i].job in t.jobs
                  && Taken(m.jobs[l.picks[i].job], t.jobs[l.picks[i].job], l.picks[i].job, l)
                  && t.jobs[l.picks[i].job].leaseId == Some(l.picks[i].lease))
            && (forall i, k | 0 <= i < k < |l.picks| ::
                  m.jobs[l.picks[i].job].createdAt <= m.jobs[l.picks[k].job].createdAt)
            && (id in t.jobs && t.jobs[id].status == Queued && l.at < t.jobs[id].expiresAt
                && t.jobs[id].project == l.project && t.jobs[id].device == l.device ==>
                  && |l.picks| == l.limit
                  && forall i | 0 <= i < |l.picks| :: m.jobs[l.picks[i].job].createdAt <= t.jobs[id].createdAt)
  {
    hide Run, Next, Invariant, GrantAll, LeaseAll, Lapsed, Recovered, Moved, Taken;
    StartOk();
    RunKeeps(NO_JOBS, labels);
    var m := Run(NO_JOBS, labels);
    RunSnoc(labels, l);
    ClaimTakesPicks(m, l);
    ClaimInOrder(m, l);
    var t := Next(m, l);
    if id in t.jobs && t.jobs[id].status == Queued && l.at < t.jobs[id].expiresAt
        && t.jobs[id].project == l.project && t.jobs[id].device == l.device {
      ClaimPassesOver(m, l, id);
    }
  }

  lemma RunSnoc(labels: seq<Label>, l: Label)
    ensures Run(NO_JOBS, labels + [l]) == Next(Run(NO_JOBS, labels), l)
  {
    hide Next;
    assert (labels + [l])[..|labels|] == labels;
  }

  lemma ClaimTakesPicks(m: Machine, l: Label)
    requires Invariant(m) && l.ClaimJobs? && Enabled(m, l)
    ensures var t := Next(m, l);
            forall i | 0 <= i < |l.picks| ::
              && l.picks[i].job in m.jobs && l.picks[i].job in t.jobs
              && Taken(m.jobs[l.picks[i].job], t.jobs[l.picks[i].job], l.picks[i].job, l)
              && t.jobs[l.picks[i].job].leaseId == Some(l.picks[i].lease)
  {
    hide Invariant, GrantAll, LeaseAll, Lapsed, Recovered, RowOk, IsSelection;
    var swept := Sweep(m.jobs, l.at);
    RowsFine(m);
    GrantsFollowClaim(Swept(m, l.at), l.at, l.picks);
    SelectionDistinct(swept, l.project, l.device, l.at, l.limit, l.picks);
    forall i | 0 <= i < |l.picks|
      ensures var k := l.picks[i].job;
              k in m.jobs && k in Next(m, l).jobs && Taken(m.jobs[k], Next(m, l).jobs[k], k, l)
              && Next(m, l).jobs[k].leaseId == Some(l.picks[i].lease)
    {
      var k := l.picks[i].job;
      PicksAreLeased(swept, l.picks, i);
      SweptRowMoves(m.jobs[k], k, l);
      assert Under(m.jobs[k], Next(m, l).jobs[k], k, l.picks[i]);
    }
  }

  lemma ClaimInOrder(m: Machine, l: Label)
    requires Invariant(m) && l.ClaimJobs? && Enabled(m, l)
    ensures forall i, k | 0 <= i < k < |l.picks| ::
              && l.picks[i].job in m.jobs && l.picks[k].job in m.jobs
              && m.jobs[l.picks[i].job].createdAt <= m.jobs[l.picks[k].job].createdAt
  {
    hide Invariant, RowOk;
    var swept := Sweep(m.jobs, l.at);
    var ids := PickedJobs(l.picks);
    SelectionDistinct(swept, l.project, l.device, l.at, l.limit, l.picks);
    forall i, k | 0 <= i < k < |l.picks|
      ensures l.picks[i].job in m.jobs && l.picks[k].job in m.jobs
              && m.jobs[l.picks[i].job].createdAt <= m.jobs[l.picks[k].job].createdAt {
      assert ids[i] == l.picks[i].job && ids[k] == l.picks[k].job;
      assert swept[ids[i]].createdAt <= swept[ids[k]].createdAt;
    }
  }

  lemma ClaimPassesOver(m: Machine, l: Label, id: Id)
    requires Invariant(m) && l.ClaimJobs? && Enabled(m, l)
    requires id in Next(m, l).jobs && Claimable(Next(m, l).jobs, l.project, l.device, l.at, id)
    ensures |l.picks| == l.limit
    ensures forall i | 0 <= i < |l.picks| ::
              l.picks[i].job in m.jobs && m.jobs[l.picks[i].job].createdAt <= Next(m, l).jobs[id].createdAt
  {
    hide Invariant, GrantAll, LeaseAll, RowOk;
    var swept := Sweep(m.jobs, l.at);
    GrantsFollowClaim(Swept(m, l.at), l.at, l.picks);
    LeaseAllKeys(swept, l.picks);
    LeasedByPick(swept, l.picks, id);
    SelectionDistinct(swept, l.project, l.device, l.at, l.limit, l.picks);
    var ids := PickedJobs(l.picks);
    if id in ids {
      var i :| 0 <= i < |ids| && ids[i] == id;
      PicksAreLeased(swept, l.picks, i);
    }
    assert Claimable(swept, l.project, l.device, l.at, id) && id !in ids;
    forall i | 0 <= i < |l.picks| ensures swept[l.picks[i].job].createdAt <= swept[id].createdAt {
      assert ids[i] == l.picks[i].job;
    }
  }

  // ---------------------------------------------------------------- where a job comes from and how it ends

  /** The i-th step created the job as its row still says. */
  predicate BornAt(labels: seq<Label>, i: nat, id: Id, j: Job)
    requires i < |labels|
  {
    && labels[i].CreateJob? && labels[i].id == id && labels[i].registered
    && labels[i].project == j.project && labels[i].device == j.device && labels[i].at == j.createdAt
    && labels[i].reading + labels[i].seconds * 1_000_000 == j.expiresAt
  }

  /** The i-th step decided about the job while it was pending and live. */
  predicate DecidedAt(labels: seq<Label>, i: nat, id: Id, approved: bool)
    requires i < |labels|
  {
    var m := Run(NO_JOBS, labels[..i]);
    id in m.jobs && Decides(m.jobs[id], id, labels[i]) && labels[i].approved == approved
  }

  /** The i-th step committed with a stamp at which the job was over and not settled yet. */
  predicate OverAt(labels: seq<Label>, i: nat, id: Id)
    requires i < |labels|
  {
    var m := Run(NO_JOBS, labels[..i]);
    id in m.jobs && Unsettled(m.jobs[id]) && m.jobs[id].expiresAt <= labels[i].at && Commits(m, labels[i])
  }

  /** What a row's history says about its status. */
  predicate Accounted(labels: seq<Label>, id: Id, j: Job) {
    && (exists i | 0 <= i < |labels| :: BornAt(labels, i, id, j))
    && (j.status == Queued || j.status == Leased || j.status == Completed || j.status == Failed ==>
          exists i | 0 <= i < |labels| :: DecidedAt(labels, i, id, true)
              && j.approvedBy == Some(labels[i].approver) && j.approvedAt == Some(labels[i].at))
    && (j.status == Cancelled ==>
          exists i | 0 <= i < |labels| :: DecidedAt(labels, i, id, false)
              && j.approvedBy == Some(labels[i].approver) && j.approvedAt == Some(labels[i].at))
    && (j.status == Expired ==> exists i | 0 <= i < |labels| :: OverAt(labels, i, id))
  }

  lemma NewIsAccounted(few: seq<Label>, l: Label, id: Id, j: Job)
    requires Created(j, id, l)
    ensures Accounted(few + [l], id, j)
  {
    hide DecidedAt, OverAt;
    assert BornAt(few + [l], |few|, id, j);
  }

  /** What was so of a shorter run is so of the longer one. */
  lemma AccountedLater(few: seq<Label>, l: Label, id: Id, i: nat)
    requires i < |few|
    ensures forall j :: BornAt(few, i, id, j) ==> BornAt(few + [l], i, id, j)
    ensures forall approved :: DecidedAt(few, i, id, approved) == DecidedAt(few + [l], i, id, approved)
    ensures OverAt(few, i, id) == OverAt(few + [l], i, id)
  {
    hide Run, Decides, Commits;
    assert (few + [l])[..i] == few[..i];
  }

  lemma DecisionIsNow(few: seq<Label>, l: Label, id: Id)
    ensures forall approved :: var m := Run(NO_JOBS, few);
              DecidedAt(few + [l], |few|, id, approved) <==>
              id in m.jobs && Decides(m.jobs[id], id, l) && l.approved == approved
    ensures var m := Run(NO_JOBS, few);
            OverAt(few + [l], |few|, id) <==>
            id in m.jobs && Unsettled(m.jobs[id]) && m.jobs[id].expiresAt <= l.at && Commits(m, l)
  {
    hide Run, Decides, Commits;
    assert (few + [l])[..|few|] == few;
  }

  lemma MovedIsAccounted(few: seq<Label>, l: Label, id: Id, a: Job, b: Job)
    requires id in Run(NO_JOBS, few).jobs && a == Run(NO_JOBS, few).jobs[id]
    requires Moved(a, b, id, l) && Accounted(few, id, a)
    requires Expires(a, b, l.at) && a != b ==> Commits(Run(NO_JOBS, few), l)
    ensures Accounted(few + [l], id, b)
  {
    hide Run, BornAt, DecidedAt, OverAt, Commits;
    var all := few + [l];
    DecisionIsNow(few, l, id);
    var i :| 0 <= i < |few| && BornAt(few, i, id, a);
    AccountedLater(few, l, id, i);
    assert BornAt(all, i, id, b) by { BornAlike(all, i, id, a, b, l); }
    if a.status != PendingApproval {
      OldReasons(few, l, id, a);
    }
    if b.status != a.status {
      NewReasons(few, l, id, a, b);
    }
  }

  lemma BornAlike(labels: seq<Label>, i: nat, id: Id, a: Job, b: Job, l: Label)
    requires i < |labels| && BornAt(labels, i, id, a) && Moved(a, b, id, l)
    ensures BornAt(labels, i, id, b)
  {}

  lemma OldReasons(few: seq<Label>, l: Label, id: Id, a: Job)
    requires Accounted(few, id, a)
    ensures a.status == Queued || a.status == Leased || a.status == Completed || a.status == Failed ==>
              exists i | 0 <= i < |few + [l]| :: DecidedAt(few + [l], i, id, true)
                && a.approvedBy == Some((few + [l])[i].approver) && a.approvedAt == Some((few + [l])[i].at)
    ensures a.status == Cancelled ==>
              exists i | 0 <= i < |few + [l]| :: DecidedAt(few + [l], i, id, false)
                && a.approvedBy == Some((few + [l])[i].approver) && a.approvedAt == Some((few + [l])[i].at)
    ensures a.status == Expired ==> exists i | 0 <= i < |few + [l]| :: OverAt(few + [l], i, id)
  {
    hide Run, BornAt, OverAt;
    var all := few + [l];
    if a.status == Queued || a.status == Leased || a.status == Completed || a.status == Failed {
      var i :| 0 <= i < |few| && DecidedAt(few, i, id, true)
               && a.approvedBy == Some(few[i].approver) && a.approvedAt == Some(few[i].at);
      AccountedLater(few, l, id, i);
      assert all[i] == few[i];
    } else if a.status == Cancelled {
      var i :| 0 <= i < |few| && DecidedAt(few, i, id, false)
               && a.approvedBy == Some(few[i].approver) && a.approvedAt == Some(few[i].at);
      AccountedLater(few, l, id, i);
      assert all[i] == few[i];
    } else if a.status == Expired {
      var i :| 0 <= i < |few| && OverAt(few, i, id);
      AccountedLater(few, l, id, i);
    }
  }

  lemma NewReasons(few: seq<Label>, l: Label, id: Id, a: Job, b: Job)
    requires id in Run(NO_JOBS, few).jobs && a == Run(NO_JOBS, few).jobs[id]
    requires Moved(a, b, id, l) && a.status != b.status
    requires Expires(a, b, l.at) ==> Commits(Run(NO_JOBS, few), l)
    ensures b.status == Expired ==> OverAt(few + [l], |few|, id)
    ensures b.status == Cancelled ==> DecidedAt(few + [l], |few|, id, false)
    ensures a.status == PendingApproval && b.status != Expired && b.status != Cancelled ==>
              DecidedAt(few + [l], |few|, id, true)
    ensures a.status == PendingApproval && b.status != Expired ==>
              l.ApproveJob? && b.approvedBy == Some(l.approver) && b.approvedAt == Some(l.at)
    ensures b.status == Expired || a.status == PendingApproval ||
            (a.approvedBy == b.approvedBy && a.approvedAt == b.approvedAt && b.status != Cancelled)
  {
    hide Run, Commits;
    DecisionIsNow(few, l, id);
  }

  /** An account of every job of every run: the request that created it, the approval before it was queued, leased or
      finished, the refusal that cancelled it, or the transaction that found it over. */
  lemma {:induction false} JobsAreAccounted(labels: seq<Label>, id: Id)
    requires id in Run(NO_JOBS, labels).jobs
    ensures Accounted(labels, id, Run(NO_JOBS, labels).jobs[id])
  {
    hide Next, Moved, Created, Accounted, Invariant, Commits;
    if labels != [] {
      var few, l := labels[..|labels| - 1], labels[|labels| - 1];
      assert labels == few + [l];
      JobsMoveOnlySo(few, l, id);
      var m := Run(NO_JOBS, few);
      if id in m.jobs {
        JobsAreAccounted(few, id);
        SweepFirst(m, l);
        MovedIsAccounted(few, l, id, m.jobs[id], Run(NO_JOBS, labels).jobs[id]);
      } else {
        NewIsAccounted(few, l, id, Run(NO_JOBS, labels).jobs[id]);
      }
    }
  }

  // ---------------------------------------------------------------- what a decision and a deadline settle for ever

  lemma {:induction false} StaysEnded(labels: seq<Label>, more: seq<Label>, id: Id)
    requires id in Run(NO_JOBS, labels).jobs
    requires Settled(Run(NO_JOBS, labels).jobs[id].status)
    ensures id in Run(NO_JOBS, labels + more).jobs
    ensures Run(NO_JOBS, labels + more).jobs[id] == Run(NO_JOBS, labels).jobs[id]
  {
    hide Run;
    JobsEvolve(labels, more);
  }

  /** A decided or overdue step, and what it leaves in the row for ever. */
  lemma EndedAt(labels: seq<Label>, i: nat, id: Id)
    requires i < |labels|
    ensures DecidedAt(labels, i, id, false) ==>
              id in Run(NO_JOBS, labels).jobs && Run(NO_JOBS, labels).jobs[id].status == Cancelled
    ensures OverAt(labels, i, id) ==>
              id in Run(NO_JOBS, labels).jobs && Run(NO_JOBS, labels).jobs[id].status == Expired
  {
    hide Run, Commits;
    assert labels == labels[..i + 1] + labels[i + 1..];
    assert labels[..i + 1] == labels[..i] + [labels[i]];
    if DecidedAt(labels, i, id, false) || OverAt(labels, i, id) {
      DecisionCommits(Run(NO_JOBS, labels[..i]), labels[i], id);
      JobsMustMove(labels[..i], labels[i], id);
      StaysEnded(labels[..i + 1], labels[i + 1..], id);
    }
  }

  lemma DecisionCommits(m: Machine, l: Label, id: Id)
    ensures id in m.jobs && Decides(m.jobs[id], id, l) ==> Commits(m, l)
  {}

  /** A job is cancelled if and only if a request that declined it found it pending and live; it then was never leased
      and has no result, whatever follows. */
  lemma CancelledExactly(labels: seq<Label>, id: Id)
    requires id in Run(NO_JOBS, labels).jobs
    ensures var s := Run(NO_JOBS, labels);
            && (s.jobs[id].status == Cancelled <==> exists i | 0 <= i < |labels| :: DecidedAt(labels, i, id, false))
            && (s.jobs[id].status == Cancelled ==>
                  (forall g | g in s.grants :: g.job != id) && (forall r | r in s.records :: r.job != id))
  {
    hide Run, DecidedAt, OverAt, BornAt, Invariant;
    var s := Run(NO_JOBS, labels);
    JobsAreAccounted(labels, id);
    if exists i | 0 <= i < |labels| :: DecidedAt(labels, i, id, false) {
      var i :| 0 <= i < |labels| && DecidedAt(labels, i, id, false);
      EndedAt(labels, i, id);
    }
    if s.jobs[id].status == Cancelled {
      StartOk();
      RunKeeps(NO_JOBS, labels);
      CancelledUnused(s, id);
    }
  }

  lemma CancelledUnused(s: Machine, id: Id)
    requires Invariant(s) && id in s.jobs && s.jobs[id].status == Cancelled
    ensures (forall g | g in s.grants :: g.job != id) && (forall r | r in s.records :: r.job != id)
  {
    hide RowOk, Spaced, GrantsFor, RecordsFor;
    assert JobOk(s, id);
    GrantsForMembers(s.grants, id);
    RecordsForMembers(s.records, id);
  }

  lemma {:induction false} RecordsForMembers(records: seq<Record>, id: Id)
    ensures forall r | r in records && r.job == id :: r in RecordsFor(records, id)
  {
    if records != [] {
      RecordsForMembers(records[..|records| - 1], id);
    }
  }

  /** A job is expired if and only if a transaction stamped at its expiry or later committed while it was not
      settled. */
  lemma ExpiredExactly(labels: seq<Label>, id: Id)
    requires id in Run(NO_JOBS, labels).jobs
    ensures Run(NO_JOBS, labels).jobs[id].status == Expired <==> exists i | 0 <= i < |labels| :: OverAt(labels, i, id)
  {
    hide Run, DecidedAt, OverAt, BornAt;
    JobsAreAccounted(labels, id);
    if exists i | 0 <= i < |labels| :: OverAt(labels, i, id) {
      var i :| 0 <= i < |labels| && OverAt(labels, i, id);
      EndedAt(labels, i, id);
    }
  }
}
