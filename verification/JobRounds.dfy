/** The job half of one synchronisation call as a run of the job system, so that every theorem about leases and results
    holds for devices that call. */
module JobRounds {
  import opened Prelude
  import opened DurableQueue
  import opened DeviceJobs
  import opened JobResults
  import opened JobAnswers
  import opened LocalRuntime
  import opened FinishableJobs
  import CloudStore
  import JobRuns

  /** The labels that store the results of delivered jobs, one by one. */
  function StoreLabels(device: Id, deliveries: seq<CloudStore.Delivery>, run: Executor, at: Stamp): seq<Label> {
    seq(|deliveries|, i requires 0 <= i < |deliveries| => Store(device, Filed(deliveries[i], run), at))
  }

  /** What the device does about jobs after the answer, up to its fate. */
  function AnswerLabels(device: Id, answered: seq<Id>, deliveries: seq<CloudStore.Delivery>, run: Executor, at: Stamp,
                        fate: Fate): seq<Label> {
    match fate
    case DiedAfterJobAck => [Settle(device, answered, at)]
    case DiedAfterApply => [Settle(device, answered, at)]
    case DoneJobs(n) => [Settle(device, answered, at)]
        + StoreLabels(device, deliveries[..Min(n, |deliveries|)], run, at)
    case _ => []
  }

  function SubmitLabel(project: Id, device: Id, submitted: seq<Submission>, at: Stamp): Label {
    Cloud(JobRuns.SubmitResults(project, device, submitted, at))
  }

  function ClaimLabel(project: Id, device: Id, at: Stamp, picks: seq<Pick>): Label {
    Cloud(JobRuns.ClaimJobs(project, device, CLAIM_LIMIT, at, picks))
  }

  /** The labels of a call whose event transaction commits. */
  function CallLabels(project: Id, device: Id, submitted: seq<Submission>, resultsAt: Stamp, claimAt: Stamp,
                      picks: seq<Pick>, answered: seq<Id>, deliveries: seq<CloudStore.Delivery>, run: Executor,
                      localAt: Stamp, fate: Fate): seq<Label> {
    [SubmitLabel(project, device, submitted, resultsAt), ClaimLabel(project, device, claimAt, picks)]
    + AnswerLabels(device, answered, deliveries, run, localAt, fate)
  }

  /** The job ids that an answer settles on the device. */
  function Answered(jobs: Jobs, project: Id, device: Id, submitted: seq<Submission>, at: Stamp): seq<Id> {
    var answers := Answers(Sweep(jobs, at), project, device, submitted, at);
    answers.0 + JobIds(answers.1)
  }

  /** The draws of a claim: fresh leases, and readings that are not older than anything seen before. */
  predicate DrawsFresh(m: JobRuns.Machine, resultsAt: Stamp, claimAt: Stamp, picks: seq<Pick>) {
    && (forall i | 0 <= i < |picks| ::
          m.clock <= picks[i].reading && resultsAt <= picks[i].reading && claimAt <= picks[i].reading)
    && (forall i, j | 0 <= i < j < |picks| :: picks[i].reading <= picks[j].reading && picks[i].lease != picks[j].lease)
    && (forall i, g | 0 <= i < |picks| && g in m.grants :: picks[i].lease != g.lease)
  }

  // ---------------------------------------------------------------- the labels one by one

  lemma {:induction false} SubmissionsIssueNothing(m: JobRuns.Machine, project: Id, device: Id,
                                                   submissions: seq<Submission>, at: Stamp)
    ensures var t := JobRuns.RecordAll(m, project, device, submissions, at); t.grants == m.grants && t.clock == m.clock
  {
    if submissions != [] {
      SubmissionsIssueNothing(m, project, device, submissions[..|submissions| - 1], at);
    }
  }

  lemma SubmitStep(s: System, project: Id, device: Id, submitted: seq<Submission>, at: Stamp)
    requires FromStore(s, device, submitted)
    ensures var t := Next(s, SubmitLabel(project, device, submitted, at));
            && t.stores == s.stores && t.machine.jobs == Complete(s.machine.jobs, project, device, submitted, at)
            && t.machine.grants == s.machine.grants && t.machine.clock == Max(s.machine.clock, at)
  {
    hide Sweep, JobRuns.RecordAll, SubmitAll;
    var m := JobRuns.Swept(s.machine, at);
    JobRuns.RecordsFollowSubmissions(m, project, device, submitted, at);
    SubmissionsIssueNothing(m, project, device, submitted, at);
  }

  lemma ClaimStep(s: System, project: Id, device: Id, at: Stamp, picks: seq<Pick>)
    requires JobRuns.ClaimOk(s.machine, project, device, CLAIM_LIMIT, at, picks)
    ensures var t := Next(s, ClaimLabel(project, device, at, picks));
            t.stores == s.stores && t.machine.jobs == Claim(s.machine.jobs, at, picks)
  {
    hide Sweep, JobRuns.GrantAll, LeaseAll, JobRuns.ClaimOk;
    JobRuns.GrantsFollowClaim(JobRuns.Swept(s.machine, at), at, picks);
  }

  /** Only the device's own table has changed. */
  ghost predicate OnlyTable(s: System, t: System, device: Id, rows: Results) {
    && t.machine == s.machine && StoreOf(t, device) == rows
    && forall other | other != device :: StoreOf(t, other) == StoreOf(s, other)
  }

  lemma {:induction false} StoresStep(s: System, device: Id, deliveries: seq<CloudStore.Delivery>, run: Executor,
                                      at: Stamp)
    ensures OnlyTable(s, Run(s, StoreLabels(device, deliveries, run, at)), device,
                      StoreAll(StoreOf(s, device), deliveries, run, at))
  {
    if deliveries != [] {
      var few := deliveries[..|deliveries| - 1];
      StoresStep(s, device, few, run, at);
      assert StoreLabels(device, deliveries, run, at)[..|few|] == StoreLabels(device, few, run, at);
    }
  }

  lemma AnswerStep(s: System, device: Id, answered: seq<Id>, deliveries: seq<CloudStore.Delivery>, run: Executor,
                   at: Stamp, fate: Fate)
    ensures OnlyTable(s, Run(s, AnswerLabels(device, answered, deliveries, run, at, fate)), device,
                      ResultsAfter(StoreOf(s, device), answered, deliveries, run, at, fate))
  {
    hide Run, StoreAll, Mark, Put;
    NoLabels(s);
    var settle := Settle(device, answered, at);
    RunOne(s, settle);
    if fate.DoneJobs? {
      var done := deliveries[..Min(fate.n, |deliveries|)];
      RunConcat(s, [settle], StoreLabels(device, done, run, at));
      StoresStep(Next(s, settle), device, done, run, at);
    }
  }

  lemma NoLabels(s: System)
    ensures Run(s, []) == s
  {}

  // ---------------------------------------------------------------- one call

  lemma PendingFromStore(labels: seq<Label>, device: Id, filed: seq<Id>)
    requires IsPending(StoreOf(Run(NO_RESULTS, labels), device), RESULTS_LIMIT, filed)
    ensures var s := Run(NO_RESULTS, labels); FromStore(s, device, ReadRows(StoreOf(s, device), filed))
  {
    hide Run;
    var rows: Results := StoreOf(Run(NO_RESULTS, labels), device);
    forall b: Submission | b in ReadRows(rows, filed) ensures b.job in rows && rows[b.job].item == b {
      var i :| 0 <= i < |filed| && rows[filed[i]].item == b;
      StoreKeepsFirst(labels, device, filed[i]);
    }
  }

  /** What the selection and the draws of a call say about the state the call starts in. */
  predicate CallFits(s: System, project: Id, device: Id, filed: seq<Id>, resultsAt: Stamp, claimAt: Stamp,
                     picks: seq<Pick>) {
    && IsPending(StoreOf(s, device), RESULTS_LIMIT, filed)
    && var settled := Complete(s.machine.jobs, project, device, ReadRows(StoreOf(s, device), filed), resultsAt);
    && IsSelection(Sweep(settled, claimAt), project, device, claimAt, CLAIM_LIMIT, PickedJobs(picks))
         && DrawsFresh(s.machine, resultsAt, claimAt, picks)
  }

  /** Submission, claim and the device's own steps, in this order. */
  lemma CallSteps(labels: seq<Label>, project: Id, device: Id, filed: seq<Id>, resultsAt: Stamp, claimAt: Stamp,
                  picks: seq<Pick>, rest: seq<Label>)
    requires CallFits(Run(NO_RESULTS, labels), project, device, filed, resultsAt, claimAt, picks)
    ensures var s := Run(NO_RESULTS, labels);
            var submitted := ReadRows(StoreOf(s, device), filed);
            var one, two := SubmitLabel(project, device, submitted, resultsAt),
                ClaimLabel(project, device, claimAt, picks);
            && FromStore(s, device, submitted)
            && JobRuns.ClaimOk(Next(s, one).machine, project, device, CLAIM_LIMIT, claimAt, picks)
            && Run(NO_RESULTS, labels + ([one, two] + rest)) == Run(Next(Next(s, one), two), rest)
  {
    hide Run, Next, FromStore, IsSelection, Sweep, Complete;
    var s := Run(NO_RESULTS, labels);
    var submitted := ReadRows(StoreOf(s, device), filed);
    PendingFromStore(labels, device, filed);
    SubmitStep(s, project, device, submitted, resultsAt);
    var one, two := SubmitLabel(project, device, submitted, resultsAt), ClaimLabel(project, device, claimAt, picks);
    RunConcat(NO_RESULTS, labels, [one, two] + rest);
    RunConcat(s, [one, two], rest);
    RunConcat(s, [one], [two]);
    RunOne(s, one);
    RunOne(Next(s, one), two);
    assert [one] + [two] == [one, two];
  }

  /** A call that is answered, up to any crash point: from a state of any run, the job half of what the call does to
      the cloud and to its device is the continuation by the labels of the call. */
  lemma CallIsRun(labels: seq<Label>, project: Id, device: Id, filed: seq<Id>, resultsAt: Stamp, claimAt: Stamp,
                  picks: seq<Pick>, deliveries: seq<CloudStore.Delivery>, run: Executor, localAt: Stamp, fate: Fate)
    requires CallFits(Run(NO_RESULTS, labels), project, device, filed, resultsAt, claimAt, picks)
    ensures var s := Run(NO_RESULTS, labels);
            var submitted := ReadRows(StoreOf(s, device), filed);
            var answered := Answered(s.machine.jobs, project, device, submitted, resultsAt);
            var call := CallLabels(project, device, submitted, resultsAt, claimAt, picks, answered, deliveries, run,
                                   localAt, fate);
            var t := Run(NO_RESULTS, labels + call);
            && t.machine.jobs == Claim(Complete(s.machine.jobs, project, device, submitted, resultsAt), claimAt, picks)
            && StoreOf(t, device)
                 == ResultsAfter(StoreOf(s, device), answered, deliveries, run, localAt, fate)
            && forall other | other != device :: StoreOf(t, other) == StoreOf(s, other)
  {
    hide Run, Next, FromStore, JobRuns.ClaimOk, DrawsFresh, IsSelection, Sweep, Complete, Claim, Answered, ResultsAfter,
        AnswerLabels;
    var s := Run(NO_RESULTS, labels);
    var submitted := ReadRows(StoreOf(s, device), filed);
    var answered := Answered(s.machine.jobs, project, device, submitted, resultsAt);
    var rest := AnswerLabels(device, answered, deliveries, run, localAt, fate);
    CallSteps(labels, project, device, filed, resultsAt, claimAt, picks, rest);
    var one, two := SubmitLabel(project, device, submitted, resultsAt), ClaimLabel(project, device, claimAt, picks);
    SubmitStep(s, project, device, submitted, resultsAt);
    ClaimStep(Next(s, one), project, device, claimAt, picks);
    AnswerStep(Next(Next(s, one), two), device, answered, deliveries, run, localAt, fate);
  }

  /** A call whose event transaction is refused or aborts has submitted its results all the same. */
  lemma RefusedCallIsRun(labels: seq<Label>, project: Id, device: Id, filed: seq<Id>, resultsAt: Stamp)
    requires IsPending(StoreOf(Run(NO_RESULTS, labels), device), RESULTS_LIMIT, filed)
    ensures var s := Run(NO_RESULTS, labels);
            var submitted := ReadRows(StoreOf(s, device), filed);
            var t := Run(NO_RESULTS, labels + [SubmitLabel(project, device, submitted, resultsAt)]);
            t.machine.jobs == Complete(s.machine.jobs, project, device, submitted, resultsAt) && t.stores == s.stores
  {
    hide Run, Next, FromStore, Complete;
    var s := Run(NO_RESULTS, labels);
    var l := SubmitLabel(project, device, ReadRows(StoreOf(s, device), filed), resultsAt);
    PendingFromStore(labels, device, filed);
    SubmitStep(s, project, device, ReadRows(StoreOf(s, device), filed), resultsAt);
    RunConcat(NO_RESULTS, labels, [l]);
    RunOne(s, l);
  }

  // ---------------------------------------------------------------- calls file results under issued leases

  /** Every stored result was filed under a lease that the cloud issued. */
  ghost predicate AllFiled(s: System) {
    forall device, id | id in StoreOf(s, device) :: Issued(s.machine.grants, StoreOf(s, device)[id].item.lease)
  }

  /** A claim issues the lease of every pick. */
  lemma {:induction false} ClaimIssues(m: JobRuns.Machine, at: Stamp, picks: seq<Pick>)
    requires JobRuns.Invariant(m) && JobRuns.PicksOk(m, at, picks)
    ensures var t := JobRuns.GrantAll(m, at, picks);
            m.grants <= t.grants && forall i | 0 <= i < |picks| :: Issued(t.grants, picks[i].lease)
  {
    hide JobRuns.Invariant, JobRuns.PicksOk, JobRuns.GrantedOnly, JobRuns.Picked, JobRuns.DrawnBy, Issued;
    if picks != [] {
      var few, p := picks[..|picks| - 1], picks[|picks| - 1];
      JobRuns.LastPick(m, at, picks);
      JobRuns.GrantAllKeeps(m, at, few);
      ClaimIssues(m, at, few);
      var before := JobRuns.GrantAll(m, at, few);
      JobRuns.StillReady(m, before, at, few, p);
      PickIssues(before, at, p);
      forall i | 0 <= i < |few| ensures Issued(JobRuns.GrantAll(m, at, picks).grants, few[i].lease) {
        IssuedLater(before.grants, JobRuns.GrantAll(m, at, picks).grants, few[i].lease);
      }
    }
  }

  lemma PickIssues(m: JobRuns.Machine, at: Stamp, p: Pick)
    requires JobRuns.PickReady(m, at, p)
    ensures m.grants <= JobRuns.GrantOne(m, at, p).grants && Issued(JobRuns.GrantOne(m, at, p).grants, p.lease)
  {
    assert JobRuns.GrantOne(m, at, p).grants[|m.grants|].lease == p.lease;
  }

  lemma IssuedLater(grants: seq<JobRuns.Grant>, later: seq<JobRuns.Grant>, lease: Id)
    requires grants <= later && Issued(grants, lease)
    ensures Issued(later, lease)
  {}

  lemma {:induction false} StoredLeases(rows: Results, deliveries: seq<CloudStore.Delivery>, run: Executor, at: Stamp,
                                        id: Id)
    requires id in StoreAll(rows, deliveries, run, at)
    ensures var lease := StoreAll(rows, deliveries, run, at)[id].item.lease;
            || (id in rows && rows[id].item.lease == lease)
            || exists i | 0 <= i < |deliveries| :: deliveries[i].lease == lease
  {
    if deliveries != [] && id in StoreAll(rows, deliveries[..|deliveries| - 1], run, at) {
      StoredLeases(rows, deliveries[..|deliveries| - 1], run, at, id);
    }
  }

  lemma ResultLeases(rows: Results, answered: seq<Id>, deliveries: seq<CloudStore.Delivery>, run: Executor, at: Stamp,
                     fate: Fate, id: Id)
    requires id in ResultsAfter(rows, answered, deliveries, run, at, fate)
    ensures var lease := ResultsAfter(rows, answered, deliveries, run, at, fate)[id].item.lease;
            || (id in rows && rows[id].item.lease == lease)
            || exists i | 0 <= i < |deliveries| :: deliveries[i].lease == lease
  {
    if fate.DoneJobs? {
      StoredLeases(Mark(rows, answered, at), deliveries[..Min(fate.n, |deliveries|)], run, at, id);
    }
  }

  lemma ClaimKeepsIssuing(s: System, project: Id, device: Id, at: Stamp, picks: seq<Pick>)
    requires JobRuns.Invariant(s.machine)
               && JobRuns.ClaimOk(s.machine, project, device, CLAIM_LIMIT, at, picks)
    ensures var t := Next(s, ClaimLabel(project, device, at, picks));
            && s.machine.grants <= t.machine.grants
            && forall i | 0 <= i < |picks| :: Issued(t.machine.grants, picks[i].lease)
  {
    hide Sweep, JobRuns.GrantAll, JobRuns.Invariant, JobRuns.ClaimOk, JobRuns.PicksOk, Issued;
    var m := JobRuns.Swept(s.machine, at);
    JobRuns.SweepKeeps(s.machine, at);
    JobRuns.ClaimPicksOk(s.machine, m, JobRuns.ClaimJobs(project, device, CLAIM_LIMIT, at, picks));
    ClaimIssues(m, at, picks);
  }

  lemma StepKeepsMachine(s: System, l: Label)
    requires JobRuns.Invariant(s.machine)
    ensures JobRuns.Invariant(Next(s, l).machine)
  {
    hide JobRuns.Invariant, JobRuns.Next;
    if l.Cloud? {
      JobRuns.NextKeeps(s.machine, l.step);
    }
  }

  lemma TablesStayFiled(s: System, t: System, device: Id, answered: seq<Id>, deliveries: seq<CloudStore.Delivery>,
                        run: Executor, at: Stamp, fate: Fate)
    requires AllFiled(s) && s.machine.grants <= t.machine.grants
    requires StoreOf(t, device) == ResultsAfter(StoreOf(s, device), answered, deliveries, run, at, fate)
    requires forall other | other != device :: StoreOf(t, other) == StoreOf(s, other)
    requires forall i | 0 <= i < |deliveries| :: Issued(t.machine.grants, deliveries[i].lease)
    ensures AllFiled(t)
  {
    hide ResultsAfter, StoreOf, Issued;
    forall d, id | id in StoreOf(t, d) ensures Issued(t.machine.grants, StoreOf(t, d)[id].item.lease) {
      if d == device {
        ResultLeases(StoreOf(s, device), answered, deliveries, run, at, fate, id);
      }
      if id in StoreOf(s, d) && StoreOf(s, d)[id].item.lease == StoreOf(t, d)[id].item.lease {
        IssuedLater(s.machine.grants, t.machine.grants, StoreOf(s, d)[id].item.lease);
      }
    }
  }

  /** Devices that only store what their calls were delivered file every result under an issued lease, as
      `FinishableJobs.FinishesExactly` takes them to. */
  lemma CallKeepsFiled(labels: seq<Label>, project: Id, device: Id, filed: seq<Id>, resultsAt: Stamp, claimAt: Stamp,
                       picks: seq<Pick>, deliveries: seq<CloudStore.Delivery>, run: Executor, localAt: Stamp,
                       fate: Fate)
    requires CallFits(Run(NO_RESULTS, labels), project, device, filed, resultsAt, claimAt, picks)
    requires AllFiled(Run(NO_RESULTS, labels)) && |deliveries| == |picks|
    requires forall i | 0 <= i < |picks| :: deliveries[i].lease == picks[i].lease
    ensures var s := Run(NO_RESULTS, labels);
            var submitted := ReadRows(StoreOf(s, device), filed);
            var answered := Answered(s.machine.jobs, project, device, submitted, resultsAt);
            var call := CallLabels(project, device, submitted, resultsAt, claimAt, picks, answered, deliveries, run,
                                   localAt, fate);
            AllFiled(Run(NO_RESULTS, labels + call))
  {
    hide Run, Next, FromStore, JobRuns.ClaimOk, JobRuns.Invariant, DrawsFresh, IsSelection, Sweep, Complete, Claim,
        Answered, ResultsAfter, AnswerLabels, AllFiled, Issued;
    var s := Run(NO_RESULTS, labels);
    RunMatches(labels);
    CallIsRun(labels, project, device, filed, resultsAt, claimAt, picks, deliveries, run, localAt, fate);
    var submitted := ReadRows(StoreOf(s, device), filed);
    var answered := Answered(s.machine.jobs, project, device, submitted, resultsAt);
    var rest := AnswerLabels(device, answered, deliveries, run, localAt, fate);
    CallSteps(labels, project, device, filed, resultsAt, claimAt, picks, rest);
    var one, two := SubmitLabel(project, device, submitted, resultsAt), ClaimLabel(project, device, claimAt, picks);
    var mid := Next(s, one);
    SubmitStep(s, project, device, submitted, resultsAt);
    StepKeepsMachine(s, one);
    ClaimKeepsIssuing(mid, project, device, claimAt, picks);
    AnswerStep(Next(mid, two), device, answered, deliveries, run, localAt, fate);
    TablesStayFiled(s, Run(Next(mid, two), rest), device, answered, deliveries, run, localAt, fate);
  }

  // ---------------------------------------------------------------- what a call leaves in the device's table

  /** The row reports how the delivered job ended. */
  predicate Reports(item: Submission, d: CloudStore.Delivery, run: Executor) {
    && item.job == d.job && item.lease == d.lease
    && match run(d)
       case Succeeded(result) => item.status == Completed && item.result == result && item.error == None
       case Raised(message) =>
         && item.status == Failed && item.result == "{}" && item.error.Some?
         && item.error.value <= message && |item.error.value| == Min(|message|, 2000)
  }

  lemma FiledReports(d: CloudStore.Delivery, run: Executor)
    ensures Reports(Filed(d, run), d, run)
  {}

  /** Handling deliveries keeps every row that was there and files, for any other delivered job, how its first delivery
      ended. */
  lemma {:induction false} DeliveriesReported(rows: Results, deliveries: seq<CloudStore.Delivery>, run: Executor,
                                              at: Stamp, id: Id)
    ensures var after := StoreAll(rows, deliveries, run, at);
            && (id in rows ==> id in after && after[id] == rows[id])
            && (id !in rows && id in after ==>
                  && after[id].acknowledgedAt == None
                  && exists i | 0 <= i < |deliveries| && deliveries[i].job == id ::
                       Reports(after[id].item, deliveries[i], run))
            && (forall i | 0 <= i < |deliveries| && deliveries[i].job == id :: id in after)
  {
    hide Filed, Reports;
    if deliveries != [] {
      var few, d := deliveries[..|deliveries| - 1], deliveries[|deliveries| - 1];
      DeliveriesReported(rows, few, run, at, id);
      var before, after := StoreAll(rows, few, run, at), StoreAll(rows, deliveries, run, at);
      FiledReports(d, run);
      if id !in rows && id in before {
        var i :| 0 <= i < |few| && few[i].job == id && Reports(before[id].item, few[i], run);
        assert deliveries[i] == few[i];
      } else if id !in rows && id in after {
        assert deliveries[|few|].job == id && Reports(after[id].item, deliveries[|few|], run);
      }
      forall i | 0 <= i < |deliveries| && deliveries[i].job == id ensures id in after {
        assert i < |few| ==> few[i] == deliveries[i];
      }
    }
  }

  /** The job results are dealt with on the device. */
  predicate SettledLocally(fate: Fate) {
    fate.DiedAfterJobAck? || fate.DiedAfterApply? || fate.DoneJobs?
  }

  /** Once a call has come to its job results, no result that it submitted is pending any more, whether it was accepted
      or rejected, and no other row has changed. */
  lemma SubmittedAreSettled(labels: seq<Label>, project: Id, device: Id, filed: seq<Id>, resultsAt: Stamp,
                            deliveries: seq<CloudStore.Delivery>, run: Executor, localAt: Stamp, fate: Fate, id: Id)
    requires var s := Run(NO_RESULTS, labels);
             IsPending(StoreOf(s, device), RESULTS_LIMIT, filed) && id in StoreOf(s, device) && SettledLocally(fate)
    ensures var s := Run(NO_RESULTS, labels);
            var rows := StoreOf(s, device);
            var answered := Answered(s.machine.jobs, project, device, ReadRows(rows, filed), resultsAt);
            var after := ResultsAfter(rows, answered, deliveries, run, localAt, fate);
            id in after && after[id] == if id in filed then rows[id].(acknowledgedAt := Some(localAt)) else rows[id]
  {
    hide Run, StoreAll, Answers, Sweep;
    var s := Run(NO_RESULTS, labels);
    var rows: Results := StoreOf(s, device);
    var batch := ReadRows(rows, filed);
    var answered := Answered(s.machine.jobs, project, device, batch, resultsAt);
    AnsweredAreSubmitted(Sweep(s.machine.jobs, resultsAt), project, device, batch, resultsAt);
    forall i | 0 <= i < |filed| ensures batch[i].job == filed[i] {
      StoreKeepsFirst(labels, device, filed[i]);
    }
    SubmitsTheirJobs(batch, filed, id);
    assert id in answered <==> id in filed;
    if fate.DoneJobs? {
      DeliveriesReported(Mark(rows, answered, localAt), deliveries[..Min(fate.n, |deliveries|)], run, localAt, id);
    }
  }

  lemma SubmitsTheirJobs(batch: seq<Submission>, jobs: seq<Id>, id: Id)
    requires |batch| == |jobs| && forall i | 0 <= i < |batch| :: batch[i].job == jobs[i]
    ensures Submits(batch, id) <==> id in jobs
  {
    if id in jobs {
      var i :| 0 <= i < |jobs| && jobs[i] == id;
      assert batch[i].job == id;
    }
  }

  lemma AnsweredAreSubmitted(jobs: Jobs, project: Id, device: Id, batch: seq<Submission>, at: Stamp)
    ensures var answers := Answers(jobs, project, device, batch, at);
            forall id :: id in answers.0 + JobIds(answers.1) <==> Submits(batch, id)
  {
    hide Answers;
    var answers := Answers(jobs, project, device, batch, at);
    OnlyResultsAnswered(jobs, project, device, batch, at);
    forall i | 0 <= i < |batch| ensures batch[i].job in answers.0 + JobIds(answers.1) {
      EveryResultAnswered(jobs, project, device, batch, at, i);
      if batch[i].job !in answers.0 {
        var k :| 0 <= k < |answers.1| && answers.1[k].0 == batch[i].job;
        assert JobIds(answers.1)[k] == batch[i].job;
      }
    }
  }
}
