/**
 Runs of the device-job machine: any list of creations, approvals, listings, claims and result submissions. A request
 takes its time stamp before it waits for the write lock, so stamps come in any order; only what a claim reads from the
 clock inside its transaction is never older than what was seen before. The history records every lease that was issued
 and every result that was accepted.
 */
module JobRuns {
  import opened Prelude
  import opened DeviceJobs

  /** `at` is the claim's time stamp, `start` the later reading its expiry is computed from. */
  datatype Grant = Grant(job: Id, lease: Id, at: Stamp, start: Stamp, expires: Stamp)
  datatype Record = Record(job: Id, lease: Id, at: Stamp, status: JobStatus, result: string, error: Option<string>)
  datatype Birth = Birth(at: Stamp, seconds: nat)

  /** `clock` is the latest time that any transaction has seen. */
  datatype Machine = Machine(jobs: Jobs, clock: Stamp, births: map<Id, Birth>, grants: seq<Grant>, records: seq<Record>)

  datatype Label =
    | CreateJob(id: Id, project: Id, device: Id, registered: bool, seconds: nat, at: Stamp, reading: Stamp)
    | ApproveJob(project: Id, id: Id, approver: Id, approved: bool, at: Stamp)
    | ListJobs(at: Stamp)
    | ClaimJobs(project: Id, device: Id, limit: nat, at: Stamp, picks: seq<Pick>)
    | SubmitResults(project: Id, device: Id, submissions: seq<Submission>, at: Stamp)

  /** Lease ids are drawn fresh, readings inside transactions do not run backwards, and the picks answer the claim's
      query. */
  predicate ClaimOk(s: Machine, project: Id, device: Id, limit: nat, at: Stamp, picks: seq<Pick>) {
    && IsSelection(Sweep(s.jobs, at), project, device, at, limit, PickedJobs(picks))
    && (forall i | 0 <= i < |picks| :: at <= picks[i].reading && s.clock <= picks[i].reading)
    && (forall i, j | 0 <= i < j < |picks| :: picks[i].reading <= picks[j].reading && picks[i].lease != picks[j].lease)
    && (forall i, g | 0 <= i < |picks| && g in s.grants :: picks[i].lease != g.lease)
  }

  predicate Enabled(s: Machine, l: Label) {
    match l
    case CreateJob(_, _, _, _, _, at, reading) => at <= reading
    case ClaimJobs(project, device, limit, at, picks) => ClaimOk(s, project, device, limit, at, picks)
    case _ => true
  }

  /** Recovery and expiry with a transaction's stamp. */
  function Swept(s: Machine, at: Stamp): Machine {
    s.(jobs := Sweep(s.jobs, at), clock := Max(s.clock, at))
  }

  function GrantOne(s: Machine, at: Stamp, pick: Pick): Machine {
    if pick.job in s.jobs && s.jobs[pick.job].status == Queued
    then s.(jobs := LeaseOne(s.jobs, pick), clock := pick.reading,
         grants := s.grants + [Grant(pick.job, pick.lease, at, pick.reading,
                                     Min(s.jobs[pick.job].expiresAt, pick.reading + LEASE))])
    else s
  }

  function GrantAll(s: Machine, at: Stamp, picks: seq<Pick>): Machine {
    if picks == [] then s else GrantOne(GrantAll(s, at, picks[..|picks| - 1]), at, picks[|picks| - 1])
  }

  function RecordOne(s: Machine, project: Id, device: Id, b: Submission, at: Stamp): Machine {
    if Examine(s.jobs, project, device, b, at).Accepted?
    then s.(jobs := SubmitOne(s.jobs, project, device, b, at),
            records := s.records + [Record(b.job, b.lease, at, b.status, b.result, b.error)])
    else s
  }

  function RecordAll(s: Machine, project: Id, device: Id, submissions: seq<Submission>, at: Stamp): Machine {
    if submissions == [] then s
    else RecordOne(RecordAll(s, project, device, submissions[..|submissions| - 1], at), project, device,
                   submissions[|submissions| - 1], at)
  }

  function Next(s: Machine, l: Label): Machine {
    if !Enabled(s, l) then s
    else
      match l
      case CreateJob(id, project, device, registered, seconds, at, reading) =>
        (match Create(s.jobs, id, project, device, registered, seconds, at, reading)
         case None => s
         case Some(jobs) =>
           s.(jobs := jobs, clock := Max(s.clock, reading), births := s.births[id := Birth(reading, seconds)]))
      case ApproveJob(project, id, approver, approved, at) =>
        s.(jobs := Approve(s.jobs, project, id, approver, approved, at), clock := Max(s.clock, at))
      case ListJobs(at) => Swept(s, at)
      case ClaimJobs(_, _, _, at, picks) => GrantAll(Swept(s, at), at, picks)
      case SubmitResults(project, device, submissions, at) =>
        RecordAll(Swept(s, at), project, device, submissions, at)
  }

  function Run(s: Machine, labels: seq<Label>): Machine {
    if labels == [] then s else Next(Run(s, labels[..|labels| - 1]), labels[|labels| - 1])
  }

  const NO_JOBS := Machine(map[], 0, map[], [], [])

  /** The history does not steer the tables: without it, a step is the table operation of module DeviceJobs. */
  lemma {:induction false} GrantsFollowClaim(s: Machine, at: Stamp, picks: seq<Pick>)
    ensures GrantAll(s, at, picks).jobs == LeaseAll(s.jobs, picks)
  {
    if picks != [] {
      GrantsFollowClaim(s, at, picks[..|picks| - 1]);
    }
  }

  lemma {:induction false} RecordsFollowSubmissions(s: Machine, project: Id, device: Id, submissions: seq<Submission>,
                                                    at: Stamp)
    ensures RecordAll(s, project, device, submissions, at).jobs == SubmitAll(s.jobs, project, device, submissions, at)
  {
    if submissions != [] {
      RecordsFollowSubmissions(s, project, device, submissions[..|submissions| - 1], at);
    }
  }

  // ---------------------------------------------------------------- per-job history

  /** The leases of one job in the order they were issued. */
  function GrantsFor(grants: seq<Grant>, id: Id): seq<Grant> {
    if grants == [] then []
    else
      var last := grants[|grants| - 1];
      GrantsFor(grants[..|grants| - 1], id) + if last.job == id then [last] else []
  }

  /** The accepted results of one job. */
  function RecordsFor(records: seq<Record>, id: Id): seq<Record> {
    if records == [] then []
    else
      var last := records[|records| - 1];
      RecordsFor(records[..|records| - 1], id) + if last.job == id then [last] else []
  }

  lemma GrantsForSnoc(grants: seq<Grant>, g: Grant, id: Id)
    ensures GrantsFor(grants + [g], id) == GrantsFor(grants, id) + if g.job == id then [g] else []
  {}

  lemma RecordsForSnoc(records: seq<Record>, r: Record, id: Id)
    ensures RecordsFor(records + [r], id) == RecordsFor(records, id) + if r.job == id then [r] else []
  {}

  predicate GrantOk(g: Grant, j: Job, b: Birth) {
    b.at <= g.start && g.at <= g.start && g.at < j.expiresAt && g.expires == Min(j.expiresAt, g.start + LEASE)
  }

  /** Leases of a job: each but the last ended 90 seconds after it was issued, before the job's own expiry and before
      the next lease was issued. */
  predicate Spaced(gs: seq<Grant>, j: Job, b: Birth) {
    && (forall i | 0 <= i < |gs| :: GrantOk(gs[i], j, b))
    && (forall i, k | 0 <= i < k < |gs| :: gs[i].start + LEASE <= gs[k].start && gs[i].start + LEASE < j.expiresAt)
  }

  /** The row agrees with the last lease issued for it. */
  predicate Holds(j: Job, gs: seq<Grant>, clock: Stamp) {
    && (j.status == PendingApproval || j.status == Cancelled ==> gs == [])
    && (j.status == Leased ==>
          && gs != [] && j.leaseId == Some(gs[|gs| - 1].lease) && j.leaseExpiresAt == Some(gs[|gs| - 1].expires))
    && (j.status == Queued && gs != [] ==>
          gs[|gs| - 1].start + LEASE <= clock && gs[|gs| - 1].start + LEASE < j.expiresAt)
  }

  /** A settled result was accepted once, under the last lease and before it ended. */
  predicate Recorded(j: Job, gs: seq<Grant>, rs: seq<Record>) {
    if j.status == Completed || j.status == Failed
    then |rs| == 1 && gs != [] && rs[0].lease == gs[|gs| - 1].lease && rs[0].at < gs[|gs| - 1].expires
         && j.result == Some(rs[0].result) && j.error == rs[0].error && j.status == rs[0].status
         && j.completedAt == Some(rs[0].at)
    else rs == []
  }

  /** One row against its history. */
  predicate RowHistory(j: Job, gs: seq<Grant>, rs: seq<Record>, b: Birth, clock: Stamp) {
    && j.expiresAt == b.at + b.seconds * SECOND && b.at <= clock
    && RowOk(j) && Spaced(gs, j, b) && Holds(j, gs, clock) && Recorded(j, gs, rs)
  }

  predicate JobOk(s: Machine, id: Id)
    requires id in s.jobs
  {
    id in s.births && RowHistory(s.jobs[id], GrantsFor(s.grants, id), RecordsFor(s.records, id), s.births[id], s.clock)
  }

  predicate Invariant(s: Machine) {
    && (forall id | id in s.jobs :: JobOk(s, id))
    && (forall g | g in s.grants :: g.job in s.jobs)
    && (forall r | r in s.records :: r.job in s.jobs)
    && forall i, k | 0 <= i < k < |s.grants| :: s.grants[i].lease != s.grants[k].lease
  }

  lemma LaterClock(j: Job, gs: seq<Grant>, rs: seq<Record>, b: Birth, clock: Stamp, later: Stamp)
    requires RowHistory(j, gs, rs, b, clock) && clock <= later
    ensures RowHistory(j, gs, rs, b, later)
  {}

  lemma SweptRow(j: Job, gs: seq<Grant>, rs: seq<Record>, b: Birth, clock: Stamp, at: Stamp)
    requires RowHistory(j, gs, rs, b, clock)
    ensures RowHistory(Lapsed(Recovered(j, at), at), gs, rs, b, Max(clock, at))
  {}

  lemma LeasedRow(j: Job, gs: seq<Grant>, rs: seq<Record>, b: Birth, clock: Stamp, g: Grant)
    requires RowHistory(j, gs, rs, b, clock) && j.status == Queued && clock <= g.start
    requires g.at <= g.start && g.at < j.expiresAt && g.expires == Min(j.expiresAt, g.start + LEASE)
    ensures RowHistory(j.(status := Leased, leaseId := Some(g.lease), leaseExpiresAt := Some(g.expires)), gs + [g], rs,
                       b, g.start)
  {}

  lemma ApprovedRow(j: Job, gs: seq<Grant>, rs: seq<Record>, b: Birth, clock: Stamp, status: JobStatus, at: Stamp,
                    approver: Id)
    requires RowHistory(j, gs, rs, b, clock) && j.status == PendingApproval && (status == Queued || status == Cancelled)
    ensures RowHistory(j.(status := status, approvedAt := Some(at), approvedBy := Some(approver)), gs, rs, b, clock)
  {}

  lemma SettledRow(j: Job, gs: seq<Grant>, rs: seq<Record>, b: Birth, clock: Stamp, sub: Submission, at: Stamp)
    requires RowHistory(j, gs, rs, b, clock) && j.status == Leased && j.leaseId == Some(sub.lease)
               && at < j.leaseExpiresAt.value
    requires sub.status == Completed || sub.status == Failed
    ensures RowHistory(j.(status := sub.status, result := Some(sub.result), error := sub.error,
                          completedAt := Some(at), leaseId := None, leaseExpiresAt := None),
                       gs, rs + [Record(sub.job, sub.lease, at, sub.status, sub.result, sub.error)], b, clock)
  {}

  lemma SweepKeeps(s: Machine, at: Stamp)
    requires Invariant(s)
    ensures Invariant(Swept(s, at))
  {
    hide RowHistory;
    var t := Swept(s, at);
    forall id | id in t.jobs ensures JobOk(t, id) {
      assert JobOk(s, id);
      SweptRow(s.jobs[id], GrantsFor(s.grants, id), RecordsFor(s.records, id), s.births[id], s.clock, at);
    }
  }

  /** The history of a job without a row is empty. */
  lemma {:induction false} NoHistory(grants: seq<Grant>, records: seq<Record>, id: Id)
    requires (forall g | g in grants :: g.job != id) && (forall r | r in records :: r.job != id)
    ensures GrantsFor(grants, id) == [] && RecordsFor(records, id) == []
    decreases |grants| + |records|
  {
    if grants != [] {
      NoHistory(grants[..|grants| - 1], records, id);
    } else if records != [] {
      NoHistory(grants, records[..|records| - 1], id);
    }
  }

  lemma GrantOneKeeps(s: Machine, at: Stamp, pick: Pick)
    requires Invariant(s) && s.clock <= pick.reading && at <= pick.reading && PickReady(s, at, pick)
    requires forall g | g in s.grants :: g.lease != pick.lease
    ensures Invariant(GrantOne(s, at, pick))
  {
    hide RowHistory;
    var t := GrantOne(s, at, pick);
    var g := Grant(pick.job, pick.lease, at, pick.reading, Min(s.jobs[pick.job].expiresAt, pick.reading + LEASE));
    assert t.grants == s.grants + [g];
    forall id | id in t.jobs ensures JobOk(t, id) {
      assert JobOk(s, id);
      GrantsForSnoc(s.grants, g, id);
      if id == pick.job {
        LeasedRow(s.jobs[id], GrantsFor(s.grants, id), RecordsFor(s.records, id), s.births[id], s.clock, g);
      } else {
        assert GrantsFor(t.grants, id) == GrantsFor(s.grants, id);
        LaterClock(s.jobs[id], GrantsFor(s.grants, id), RecordsFor(s.records, id), s.births[id], s.clock, t.clock);
      }
    }
  }

  /** What a claim still needs of a pick while it works through the list: a queued job that is live at its stamp. */
  predicate PickReady(s: Machine, at: Stamp, pick: Pick) {
    pick.job in s.jobs && s.jobs[pick.job].status == Queued && at < s.jobs[pick.job].expiresAt
  }

  predicate Picked(picks: seq<Pick>, id: Id) {
    exists i | 0 <= i < |picks| :: picks[i].job == id
  }

  predicate DrawnBy(picks: seq<Pick>, lease: Id) {
    exists i | 0 <= i < |picks| :: picks[i].lease == lease
  }

  /** A claim of the given picks touches their jobs only and issues their leases only. */
  predicate GrantedOnly(s: Machine, t: Machine, picks: seq<Pick>) {
    && t.births == s.births && t.jobs.Keys == s.jobs.Keys
    && (forall g | g in t.grants :: g in s.grants || DrawnBy(picks, g.lease))
    && (forall id | id in s.jobs && !Picked(picks, id) ::
        t.jobs[id] == s.jobs[id] && GrantsFor(t.grants, id) == GrantsFor(s.grants, id))
  }

  lemma GrantedOnlyNil(s: Machine)
    ensures GrantedOnly(s, s, [])
  {}

  lemma GrantOneOnly(s: Machine, at: Stamp, pick: Pick)
    requires PickReady(s, at, pick)
    ensures GrantedOnly(s, GrantOne(s, at, pick), [pick]) && GrantOne(s, at, pick).clock == pick.reading
  {
    var t := GrantOne(s, at, pick);
    var g := t.grants[|s.grants|];
    assert [pick][0] == pick;
    forall id | id in s.jobs && !Picked([pick], id) ensures GrantsFor(t.grants, id) == GrantsFor(s.grants, id) {
      assert [pick][0].job != id;
      GrantsForSnoc(s.grants, g, id);
    }
  }

  lemma GrantedOnlyTransitive(s: Machine, m: Machine, t: Machine, few: seq<Pick>, pick: Pick)
    requires GrantedOnly(s, m, few) && GrantedOnly(m, t, [pick])
    ensures GrantedOnly(s, t, few + [pick])
  {
    var all := few + [pick];
    forall g | g in t.grants ensures g in s.grants || DrawnBy(all, g.lease) {
      if g in m.grants && DrawnBy(few, g.lease) {
        var i :| 0 <= i < |few| && few[i].lease == g.lease;
        assert all[i].lease == g.lease;
      } else if g !in m.grants {
        assert all[|few|].lease == g.lease;
      }
    }
    forall id | id in s.jobs && !Picked(all, id) ensures !Picked(few, id) && !Picked([pick], id) {
      assert all[|few|] == pick;
      assert forall i | 0 <= i < |few| :: all[i] == few[i];
    }
  }

  predicate PicksOk(s: Machine, at: Stamp, picks: seq<Pick>) {
    && (forall i | 0 <= i < |picks| ::
          at <= picks[i].reading && s.clock <= picks[i].reading && PickReady(s, at, picks[i]))
    && (forall i, k | 0 <= i < k < |picks| ::
          picks[i].job != picks[k].job && picks[i].reading <= picks[k].reading && picks[i].lease != picks[k].lease)
    && forall i, g | 0 <= i < |picks| && g in s.grants :: picks[i].lease != g.lease
  }

  function LastReading(clock: Stamp, picks: seq<Pick>): Stamp {
    if picks == [] then clock else picks[|picks| - 1].reading
  }

  lemma LastPick(s: Machine, at: Stamp, picks: seq<Pick>)
    requires PicksOk(s, at, picks) && picks != []
    ensures var few, p := picks[..|picks| - 1], picks[|picks| - 1];
            && PicksOk(s, at, few) && PickReady(s, at, p) && !Picked(few, p.job) && !DrawnBy(few, p.lease)
            && at <= p.reading && LastReading(s.clock, few) <= p.reading
            && (forall g | g in s.grants :: g.lease != p.lease)
  {}

  lemma StillReady(s: Machine, m: Machine, at: Stamp, few: seq<Pick>, p: Pick)
    requires GrantedOnly(s, m, few) && PickReady(s, at, p) && !Picked(few, p.job) && !DrawnBy(few, p.lease)
    requires forall g | g in s.grants :: g.lease != p.lease
    ensures PickReady(m, at, p) && forall g | g in m.grants :: g.lease != p.lease
  {}

  lemma {:induction false} GrantAllKeeps(s: Machine, at: Stamp, picks: seq<Pick>)
    requires Invariant(s) && PicksOk(s, at, picks)
    ensures var t := GrantAll(s, at, picks);
            Invariant(t) && GrantedOnly(s, t, picks) && t.clock == LastReading(s.clock, picks)
  {
    hide Invariant, GrantOne, PicksOk, PickReady, GrantedOnly, Picked, DrawnBy;
    if picks == [] {
      GrantedOnlyNil(s);
    } else {
      var few, p := picks[..|picks| - 1], picks[|picks| - 1];
      LastPick(s, at, picks);
      GrantAllKeeps(s, at, few);
      var m := GrantAll(s, at, few);
      StillReady(s, m, at, few, p);
      GrantOneKeeps(m, at, p);
      GrantOneOnly(m, at, p);
      GrantedOnlyTransitive(s, m, GrantOne(m, at, p), few, p);
      assert few + [p] == picks;
    }
  }

  lemma RecordOneKeeps(s: Machine, project: Id, device: Id, b: Submission, at: Stamp)
    requires Invariant(s)
    ensures Invariant(RecordOne(s, project, device, b, at))
  {
    hide RowHistory;
    var t := RecordOne(s, project, device, b, at);
    if Examine(s.jobs, project, device, b, at).Accepted? {
      var r := Record(b.job, b.lease, at, b.status, b.result, b.error);
      assert t.records == s.records + [r];
      forall id | id in t.jobs ensures JobOk(t, id) {
        assert JobOk(s, id);
        RecordsForSnoc(s.records, r, id);
        if id == b.job {
          SettledRow(s.jobs[id], GrantsFor(s.grants, id), RecordsFor(s.records, id), s.births[id], s.clock, b, at);
        } else {
          assert RecordsFor(t.records, id) == RecordsFor(s.records, id);
        }
      }
    }
  }

  lemma {:induction false} RecordAllKeeps(s: Machine, project: Id, device: Id, submissions: seq<Submission>, at: Stamp)
    requires Invariant(s)
    ensures Invariant(RecordAll(s, project, device, submissions, at))
  {
    if submissions != [] {
      RecordAllKeeps(s, project, device, submissions[..|submissions| - 1], at);
      RecordOneKeeps(RecordAll(s, project, device, submissions[..|submissions| - 1], at), project, device,
                     submissions[|submissions| - 1], at);
    }
  }

  lemma CreateKeeps(s: Machine, l: Label)
    requires Invariant(s) && Enabled(s, l) && l.CreateJob?
    ensures Invariant(Next(s, l))
  {
    var t := Next(s, l);
    if t != s {
      SweepKeeps(s, l.at);
      var m := Swept(s, l.at);
      NoHistory(s.grants, s.records, l.id);
      forall id | id in t.jobs ensures JobOk(t, id) {
        if id != l.id {
          assert JobOk(m, id);
        }
      }
    }
  }

  lemma ApproveKeeps(s: Machine, project: Id, id: Id, approver: Id, approved: bool, at: Stamp)
    requires Invariant(s)
    ensures Invariant(s.(jobs := Approve(s.jobs, project, id, approver, approved, at), clock := Max(s.clock, at)))
  {
    hide RowHistory;
    SweepKeeps(s, at);
    var m := Swept(s, at);
    if Approvable(m.jobs, project, id) {
      assert JobOk(m, id);
      ApprovedRow(m.jobs[id], GrantsFor(m.grants, id), RecordsFor(m.records, id), m.births[id], m.clock,
                  if approved then Queued else Cancelled, at, approver);
      var t := s.(jobs := Approve(s.jobs, project, id, approver, approved, at), clock := Max(s.clock, at));
      forall k | k in t.jobs ensures JobOk(t, k) {
        assert JobOk(m, k);
      }
    }
  }

  lemma SelectionDistinct(jobs: Jobs, project: Id, device: Id, at: Stamp, limit: nat, picks: seq<Pick>)
    requires IsSelection(jobs, project, device, at, limit, PickedJobs(picks))
    ensures forall i | 0 <= i < |picks| :: Claimable(jobs, project, device, at, picks[i].job)
    ensures forall i, k | 0 <= i < k < |picks| :: picks[i].job != picks[k].job
  {
    hide Claimable;
    var ids := PickedJobs(picks);
    forall i | 0 <= i < |picks| ensures Claimable(jobs, project, device, at, picks[i].job) {
      assert ids[i] == picks[i].job;
    }
    forall i, k | 0 <= i < k < |picks| ensures picks[i].job != picks[k].job {
      assert ids[i] != ids[k];
    }
  }

  lemma ClaimPicksOk(s: Machine, m: Machine, l: Label)
    requires Invariant(m) && l.ClaimJobs? && m == Swept(s, l.at)
    requires ClaimOk(s, l.project, l.device, l.limit, l.at, l.picks)
    ensures PicksOk(m, l.at, l.picks)
  {
    hide Invariant, IsSelection, Sweep;
    SelectionDistinct(m.jobs, l.project, l.device, l.at, l.limit, l.picks);
  }

  lemma ClaimKeeps(s: Machine, l: Label)
    requires Invariant(s) && Enabled(s, l) && l.ClaimJobs?
    ensures Invariant(Next(s, l))
  {
    hide GrantAll, Invariant, ClaimOk, PicksOk, Sweep;
    SweepKeeps(s, l.at);
    var m := Swept(s, l.at);
    ClaimPicksOk(s, m, l);
    GrantAllKeeps(m, l.at, l.picks);
  }

  lemma NextKeeps(s: Machine, l: Label)
    requires Invariant(s)
    ensures Invariant(Next(s, l))
  {
    if Enabled(s, l) {
      match l
      case CreateJob(_, _, _, _, _, _, _) => CreateKeeps(s, l);
      case ApproveJob(project, id, approver, approved, at) => ApproveKeeps(s, project, id, approver, approved, at);
      case ListJobs(at) => SweepKeeps(s, at);
      case ClaimJobs(_, _, _, _, _) => ClaimKeeps(s, l);
      case SubmitResults(project, device, submissions, at) =>
        SweepKeeps(s, at);
        RecordAllKeeps(Swept(s, at), project, device, submissions, at);
    }
  }

  lemma {:induction false} RunKeeps(s: Machine, labels: seq<Label>)
    requires Invariant(s)
    ensures Invariant(Run(s, labels))
  {
    if labels != [] {
      RunKeeps(s, labels[..|labels| - 1]);
      NextKeeps(Run(s, labels[..|labels| - 1]), labels[|labels| - 1]);
    }
  }

  // ---------------------------------------------------------------- what every run guarantees

  lemma StartOk()
    ensures Invariant(NO_JOBS)
  {}

  lemma ApprovalMoves(j: Job, approver: Id, approved: bool, at: Stamp)
    requires RowOk(j) && j.status == PendingApproval
    ensures Moves(j, j.(status := if approved then Queued else Cancelled, approvedAt := Some(at),
                        approvedBy := Some(approver)))
  {}

  lemma ApproveEvolves(jobs: Jobs, project: Id, id: Id, approver: Id, approved: bool, at: Stamp)
    requires RowsOk(jobs)
    ensures Evolves(jobs, Approve(jobs, project, id, approver, approved, at))
  {
    hide Sweep, RowOk, Moves;
    SweepLeavesNothingOverdue(jobs, at);
    var swept, done := Sweep(jobs, at), Approve(jobs, project, id, approver, approved, at);
    SelfEvolves(swept);
    if Approvable(swept, project, id) {
      ApprovalMoves(swept[id], approver, approved, at);
    }
    EvolvesTransitive(jobs, swept, done);
  }

  lemma CreateEvolves(jobs: Jobs, id: Id, project: Id, device: Id, registered: bool, seconds: nat, at: Stamp,
                      reading: Stamp)
    requires RowsOk(jobs) && Create(jobs, id, project, device, registered, seconds, at, reading).Some?
    ensures Evolves(jobs, Create(jobs, id, project, device, registered, seconds, at, reading).value)
  {}

  lemma NextEvolves(s: Machine, l: Label)
    requires Invariant(s)
    ensures Evolves(s.jobs, Next(s, l).jobs)
  {
    hide Invariant, GrantAll, RecordAll, LeaseAll, SubmitAll, Sweep, Evolves, RowsOk, Approve, Create;
    RowsFine(s);
    SelfEvolves(s.jobs);
    if Enabled(s, l) {
      SweepLeavesNothingOverdue(s.jobs, l.at);
      var swept := Sweep(s.jobs, l.at);
      var m := Swept(s, l.at);
      match l
      case ClaimJobs(_, _, _, at, picks) =>
        GrantsFollowClaim(m, at, picks);
        LeaseAllKeeps(swept, picks);
        EvolvesTransitive(s.jobs, swept, LeaseAll(swept, picks));
      case SubmitResults(project, device, submissions, at) =>
        RecordsFollowSubmissions(m, project, device, submissions, at);
        SubmitAllKeeps(swept, project, device, submissions, at);
        EvolvesTransitive(s.jobs, swept, SubmitAll(swept, project, device, submissions, at));
      case ApproveJob(project, id, approver, approved, at) =>
        ApproveEvolves(s.jobs, project, id, approver, approved, at);
      case CreateJob(id, project, device, registered, seconds, at, reading) =>
        if Create(s.jobs, id, project, device, registered, seconds, at, reading).Some? {
          CreateEvolves(s.jobs, id, project, device, registered, seconds, at, reading);
        }
      case ListJobs(_) =>
    }
  }

  lemma RowsFine(s: Machine)
    requires Invariant(s)
    ensures RowsOk(s.jobs)
  {}

  lemma SelfEvolves(jobs: Jobs)
    ensures Evolves(jobs, jobs)
  {}

  /** The job machine, for every run and every continuation of it: each row satisfies the status and lease
      invariant, settled rows are frozen, approvals are never taken back, and no row changes hands or disappears. */
  lemma {:induction false} JobsEvolve(labels: seq<Label>, more: seq<Label>)
    ensures RowsOk(Run(NO_JOBS, labels).jobs)
    ensures Evolves(Run(NO_JOBS, labels).jobs, Run(NO_JOBS, labels + more).jobs)
  {
    hide Next, RowsOk, Invariant, Evolves;
    StartOk();
    RunKeeps(NO_JOBS, labels);
    RowsFine(Run(NO_JOBS, labels));
    if more == [] {
      assert labels + more == labels;
      SelfEvolves(Run(NO_JOBS, labels).jobs);
    } else {
      var fewer := labels + more[..|more| - 1];
      assert (labels + more)[..|labels + more| - 1] == fewer;
      JobsEvolve(labels, more[..|more| - 1]);
      RunKeeps(NO_JOBS, fewer);
      NextEvolves(Run(NO_JOBS, fewer), more[|more| - 1]);
      EvolvesTransitive(Run(NO_JOBS, labels).jobs, Run(NO_JOBS, fewer).jobs, Run(NO_JOBS, labels + more).jobs);
    }
  }

  lemma {:induction false} ClaimsSpread(gs: seq<Grant>, j: Job, b: Birth, i: nat)
    requires Spaced(gs, j, b) && i < |gs|
    ensures b.at + i * LEASE <= gs[i].start
  {
    if i == 0 {
      assert GrantOk(gs[0], j, b);
    } else {
      ClaimsSpread(gs, j, b, i - 1);
      assert gs[i - 1].start + LEASE <= gs[i].start;
    }
  }

  lemma SpacedBound(gs: seq<Grant>, j: Job, b: Birth)
    requires Spaced(gs, j, b) && j.expiresAt == b.at + b.seconds * SECOND
    ensures |gs| <= Max(1, (b.seconds + 89) / 90)
  {
    if |gs| > 1 {
      ClaimsSpread(gs, j, b, |gs| - 2);
      assert gs[|gs| - 2].start + LEASE <= gs[|gs| - 1].start && gs[|gs| - 2].start + LEASE < j.expiresAt;
      assert (|gs| - 1) * 90 < b.seconds;
    }
  }

  /** One lease's validity window is not empty and ends before the other's begins. */
  predicate Precedes(g: Grant, h: Grant) {
    g.start < g.expires <= h.start
  }

  lemma SpacedWindows(gs: seq<Grant>, j: Job, b: Birth)
    requires Spaced(gs, j, b)
    ensures forall i, k | 0 <= i < k < |gs| :: Precedes(gs[i], gs[k])
  {}

  /** Lease count bound, in whatever order request stamps come: a job created with a lifetime of E seconds, at least 60,
      is leased at most ceil(E / 90) times in any run, so at most 40 times under the one-hour limit, and the validity
      windows of its leases follow one another. */
  lemma LeasesAreBounded(labels: seq<Label>, id: Id)
    requires id in Run(NO_JOBS, labels).jobs
    ensures var s := Run(NO_JOBS, labels);
            var gs := GrantsFor(s.grants, id);
            && id in s.births
            && |gs| <= Max(1, (s.births[id].seconds + 89) / 90)
            && (s.births[id].seconds <= 3600 ==> |gs| <= 40)
            && forall i, k | 0 <= i < k < |gs| :: Precedes(gs[i], gs[k])
  {
    hide Spaced, Holds, Recorded, RowOk, Next, GrantsFor, RecordsFor;
    StartOk();
    RunKeeps(NO_JOBS, labels);
    var s := Run(NO_JOBS, labels);
    assert JobOk(s, id);
    SpacedBound(GrantsFor(s.grants, id), s.jobs[id], s.births[id]);
    SpacedWindows(GrantsFor(s.grants, id), s.jobs[id], s.births[id]);
  }

  /** Result at most once: a completed or failed job has exactly one accepted result, the one its row shows, accepted
      under the lease issued last for it and strictly before that lease's expiry; any other job has none. */
  lemma ResultAtMostOnce(labels: seq<Label>, id: Id)
    requires id in Run(NO_JOBS, labels).jobs
    ensures var s := Run(NO_JOBS, labels);
            Recorded(s.jobs[id], GrantsFor(s.grants, id), RecordsFor(s.records, id))
  {
    StartOk();
    RunKeeps(NO_JOBS, labels);
    assert JobOk(Run(NO_JOBS, labels), id);
  }

  lemma {:induction false} GrantsForMembers(grants: seq<Grant>, id: Id)
    ensures forall g | g in GrantsFor(grants, id) :: g in grants && g.job == id
    ensures forall g | g in grants && g.job == id :: g in GrantsFor(grants, id)
  {
    if grants != [] {
      GrantsForMembers(grants[..|grants| - 1], id);
    }
  }

  /** A row of a reachable machine after a sweep: a live lease is the one issued last. */
  lemma SweptLeaseIsLast(labels: seq<Label>, id: Id, at: Stamp)
    requires id in Run(NO_JOBS, labels).jobs
    ensures var s := Run(NO_JOBS, labels);
            var gs := GrantsFor(s.grants, id);
            && RowsOk(Sweep(s.jobs, at)) && Sweep(s.jobs, at).Keys == s.jobs.Keys
            && (Sweep(s.jobs, at)[id].status == Leased
                ==> gs != [] && Sweep(s.jobs, at)[id].leaseId == Some(gs[|gs| - 1].lease))
  {
    hide Run, GrantsFor, RecordsFor, Spaced, Recorded;
    StartOk();
    RunKeeps(NO_JOBS, labels);
    var s := Run(NO_JOBS, labels);
    RowsFine(s);
    SweepLeavesNothingOverdue(s.jobs, at);
    assert JobOk(s, id);
  }

  lemma SubmitSnoc(jobs: Jobs, project: Id, device: Id, few: seq<Submission>, b: Submission, at: Stamp)
    requires !Examine(SubmitAll(jobs, project, device, few, at), project, device, b, at).Accepted?
    ensures SubmitAll(jobs, project, device, few + [b], at) == SubmitAll(jobs, project, device, few, at)
    ensures Answers(jobs, project, device, few + [b], at).0 == Answers(jobs, project, device, few, at).0
  {
    assert (few + [b])[..|few|] == few;
  }

  /** At any position of any batch, a result under any lease but the last one issued for its job is rejected and
      changes no job. */
  lemma SupersededLeaseRejected(labels: seq<Label>, batch: seq<Submission>, i: nat, project: Id, device: Id, at: Stamp)
    requires i < |batch| && batch[i].job in Run(NO_JOBS, labels).jobs
    requires var gs := GrantsFor(Run(NO_JOBS, labels).grants, batch[i].job);
               gs == [] || gs[|gs| - 1].lease != batch[i].lease
    ensures var swept := Sweep(Run(NO_JOBS, labels).jobs, at);
            && SubmitAll(swept, project, device, batch[..i + 1], at)
                 == SubmitAll(swept, project, device, batch[..i], at)
            && Answers(swept, project, device, batch[..i + 1], at).0
                 == Answers(swept, project, device, batch[..i], at).0
  {
    hide Run, GrantsFor, Sweep, SubmitAll, Answers, RowOk;
    SweptLeaseIsLast(labels, batch[i].job, at);
    var swept := Sweep(Run(NO_JOBS, labels).jobs, at);
    SubmitAllKeeps(swept, project, device, batch[..i], at);
    assert batch[..i + 1] == batch[..i] + [batch[i]];
    SubmitSnoc(swept, project, device, batch[..i], batch[i], at);
  }
}
