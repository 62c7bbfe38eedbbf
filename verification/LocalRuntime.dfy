/** The PC side: the durable outbox as a class, and one synchronisation round with its crash points. */
module LocalRuntime {
  import opened Prelude
  import opened DurableQueue
  import opened CloudEvents
  import opened OutboxRows
  import opened DeviceSync
  import opened CloudStore
  import opened SyncRounds
  import DeviceJobs

  type Submission = DeviceJobs.Submission

  const RESULTS_LIMIT := 20
  const CLAIM_LIMIT := 5

  /** The pending query over one durable table. */
  method FirstPending<T>(rows: map<Id, QueueRow<T>>, limit: nat) returns (ids: seq<Id>)
    ensures IsPending(rows, limit, ids)
  {
    ids := [];
    var left := set id | id in rows && Unacknowledged(rows, id);
    while |ids| < limit && left != {}
      invariant |ids| <= limit
      invariant forall id :: id in left <==> id in rows && Unacknowledged(rows, id) && id !in ids
      invariant forall i | 0 <= i < |ids| :: Unacknowledged(rows, ids[i])
      invariant forall i, j | 0 <= i < j < |ids| :: Before(rows, ids[i], ids[j])
      invariant forall i, id | 0 <= i < |ids| && id in left :: Before(rows, ids[i], id)
      decreases limit - |ids|
    {
      ghost var first := FirstExists(rows, left);
      var id :| id in left && forall k | k in left :: k == id || Before(rows, id, k);
      ids := ids + [id];
      left := left - {id};
    }
  }

  lemma MarkSnoc<T>(rows: map<Id, QueueRow<T>>, keys: seq<Id>, key: Id, at: Stamp)
    ensures Mark(rows, keys + [key], at) ==
            if key in rows then Mark(rows, keys, at)[key := rows[key].(acknowledgedAt := Some(at))]
                else Mark(rows, keys, at)
  {}

  class LocalOutbox {
    var rows: map<Id, QueueRow<Mutation>>
    var cursor: nat
    var received: map<nat, Event>
    var results: map<Id, QueueRow<Submission>>

    constructor ()
      ensures Value() == EMPTY_OUTBOX && results == map[]
    {
      rows, cursor, received, results := map[], 0, map[], map[];
    }

    function Value(): Outbox
      reads this
    {
      Outbox(rows, cursor, received)
    }

    method EnqueueEvent(m: Mutation, at: Stamp)
      modifies this
      ensures Value() == Enqueue(old(Value()), m, at) && results == old(results)
    {
      if m.eventId !in rows {
        rows := rows[m.eventId := QueueRow(m, at, None)];
      }
    }

    method PendingEvents(limit: nat) returns (ids: seq<Id>, mutations: seq<Mutation>)
      ensures IsPending(rows, limit, ids) && mutations == ReadRows(rows, ids)
    {
      ids := FirstPending(rows, limit);
      mutations := ReadRows(rows, ids);
    }

    method AcknowledgeEvents(ids: seq<Id>, at: Stamp)
      modifies this
      ensures Value() == Acknowledge(old(Value()), ids, at) && results == old(results)
    {
      var i := 0;
      while i < |ids|
        invariant 0 <= i <= |ids|
        invariant rows == Mark(old(rows), ids[..i], at)
        invariant cursor == old(cursor) && received == old(received) && results == old(results)
      {
        MarkSnoc(old(rows), ids[..i], ids[i], at);
        assert ids[..i + 1] == ids[..i] + [ids[i]];
        if ids[i] in rows {
          rows := rows[ids[i] := rows[ids[i]].(acknowledgedAt := Some(at))];
        }
        i := i + 1;
      }
      assert ids[..|ids|] == ids;
    }

    method EnqueueJobResult(b: Submission, at: Stamp)
      modifies this
      ensures results == Put(old(results), b.job, b, at) && Value() == old(Value())
    {
      if b.job !in results {
        results := results[b.job := QueueRow(b, at, None)];
      }
    }

    method PendingJobResults(limit: nat) returns (ids: seq<Id>, submissions: seq<Submission>)
      ensures IsPending(results, limit, ids) && submissions == ReadRows(results, ids)
    {
      ids := FirstPending(results, limit);
      submissions := ReadRows(results, ids);
    }

    method AcknowledgeJobResults(ids: seq<Id>, at: Stamp)
      modifies this
      ensures results == Mark(old(results), ids, at) && Value() == old(Value())
    {
      var i := 0;
      while i < |ids|
        invariant 0 <= i <= |ids|
        invariant results == Mark(old(results), ids[..i], at) && Value() == old(Value())
      {
        MarkSnoc(old(results), ids[..i], ids[i], at);
        assert ids[..i + 1] == ids[..i] + [ids[i]];
        if ids[i] in results {
          results := results[ids[i] := results[ids[i]].(acknowledgedAt := Some(at))];
        }
        i := i + 1;
      }
      assert ids[..|ids|] == ids;
    }

    method ApplyServerEvents(events: seq<Event>, serverCursor: nat)
      modifies this
      ensures Value() == Apply(old(Value()), events, serverCursor) && results == old(results)
    {
      var i := 0;
      while i < |events|
        invariant 0 <= i <= |events|
        invariant received == Insert(old(received), events[..i])
        invariant rows == old(rows) && results == old(results)
      {
        assert events[..i + 1][..i] == events[..i];
        if events[i].sequence !in received {
          received := received[events[i].sequence := events[i]];
        }
        i := i + 1;
      }
      assert events[..|events|] == events;
      cursor := serverCursor;
    }
  }

  // ---------------------------------------------------------------- one round

  /** Where a round ends: nothing reaches the server, the reply is lost, or the process dies between two local
      transactions. `DoneJobs(n)` finishes at most n of the delivered jobs. */
  datatype Fate = RequestLost | AnswerLost | DiedAfterAck | DiedAfterJobAck | DiedAfterApply | DoneJobs(n: nat)

  function ReachOf(fate: Fate): Reach {
    match fate
    case RequestLost => ReplyLost
    case AnswerLost => ReplyLost
    case DiedAfterAck => CrashedAfterAck
    case DiedAfterJobAck => CrashedAfterAck
    case DiedAfterApply => Finished
    case DoneJobs(_) => Finished
  }

  /** How the execution of a delivered job ends: with a serialised result, or with an exception. */
  datatype Execution = Succeeded(result: string) | Raised(message: string)

  type Executor = Delivery -> Execution

  const ERROR_LIMIT := 2000

  /** The submission names the job and the lease it was delivered with, and reports completion or failure. */
  function Filed(d: Delivery, run: Executor): Submission {
    match run(d)
    case Succeeded(result) => DeviceJobs.Submission(d.job, d.lease, DeviceJobs.Completed, result, None)
    case Raised(message) =>
      var text := if |message| > ERROR_LIMIT then message[..ERROR_LIMIT] else message;
      DeviceJobs.Submission(d.job, d.lease, DeviceJobs.Failed, "{}", Some(text))
  }

  function StoreAll(results: map<Id, QueueRow<Submission>>, deliveries: seq<Delivery>, run: Executor,
                    at: Stamp): map<Id, QueueRow<Submission>> {
    if deliveries == [] then results
    else
      var last := deliveries[|deliveries| - 1];
      Put(StoreAll(results, deliveries[..|deliveries| - 1], run, at), last.job, Filed(last, run), at)
  }

  function ResultsAfter(results: map<Id, QueueRow<Submission>>, answered: seq<Id>, deliveries: seq<Delivery>,
                        run: Executor, at: Stamp, fate: Fate)
    : map<Id, QueueRow<Submission>>
  {
    match fate
    case DiedAfterJobAck => Mark(results, answered, at)
    case DiedAfterApply => Mark(results, answered, at)
    case DoneJobs(n) => StoreAll(Mark(results, answered, at), deliveries[..Min(n, |deliveries|)], run, at)
    case _ => results
  }

  function DraftsOf(mutations: seq<Mutation>, drawn: Id -> Id): seq<Draft> {
    seq(|mutations|, i requires 0 <= i < |mutations| => Draft(mutations[i], drawn(mutations[i].eventId)))
  }

  function JobIds(rejected: seq<(Id, DeviceJobs.ResultVerdict)>): seq<Id> {
    seq(|rejected|, i requires 0 <= i < |rejected| => rejected[i].0)
  }

  class LocalRuntime {
    const project: Id
    const device: Id
    const outbox: LocalOutbox

    constructor (project: Id, device: Id, outbox: LocalOutbox)
      ensures this.project == project && this.device == device && this.outbox == outbox
    {
      this.project, this.device, this.outbox := project, device, outbox;
    }

    /** What the device does with an answer, up to its fate; `answered` are the accepted and the rejected job ids. */
    method HandleAnswer(reply: Reply, answered: seq<Id>, jobs: seq<Delivery>, run: Executor, localAt: Stamp, fate: Fate)
      requires fate != RequestLost
      modifies outbox
      ensures outbox.Value() == OutboxAfter(old(outbox.Value()), reply, localAt, ReachOf(fate))
      ensures outbox.results == ResultsAfter(old(outbox.results), answered, jobs, run, localAt, fate)
    {
      if fate == AnswerLost { return; }
      outbox.AcknowledgeEvents(reply.accepted, localAt);
      if fate == DiedAfterAck { return; }
      outbox.AcknowledgeJobResults(answered, localAt);
      if fate == DiedAfterJobAck { return; }
      outbox.ApplyServerEvents(reply.events, reply.serverCursor);
      if fate == DiedAfterApply { return; }
      ghost var marked, value := outbox.results, outbox.Value();
      var count := Min(fate.n, |jobs|);
      var i := 0;
      while i < count
        invariant 0 <= i <= count
        invariant outbox.results == StoreAll(marked, jobs[..i], run, localAt) && outbox.Value() == value
      {
        assert jobs[..i + 1][..i] == jobs[..i];
        outbox.EnqueueJobResult(Filed(jobs[i], run), localAt);
        i := i + 1;
      }
    }

    /** One call of sync_once, up to its fate. The server commits job results, events and claims in three transactions;
        an exception in the second ends the call like a lost answer. */
    method SyncOnce(cloud: WorkspaceStore, fate: Fate, drawn: Id -> Id, inventory: Option<string>, draws: seq<Draw>,
                    run: Executor,
                    resultsAt: Stamp, at: Stamp, claimAt: Stamp, localAt: Stamp)
      returns (ghost pending: seq<Id>, ghost filed: seq<Id>, ghost deliveries: seq<Delivery>,
               ghost picks: seq<DeviceJobs.Pick>)
      requires CLAIM_LIMIT <= |draws|
      modifies outbox, cloud
      ensures IsPending(old(outbox.rows), PENDING_LIMIT, pending)
                && IsPending(old(outbox.results), RESULTS_LIMIT, filed)
      ensures fate == RequestLost ==>
                outbox.Value() == old(outbox.Value()) && outbox.results == old(outbox.results)
                && cloud.State() == old(cloud.State()) && cloud.devices == old(cloud.devices)
                     && cloud.jobs == old(cloud.jobs)
      ensures fate != RequestLost ==>
                var submitted := ReadRows(old(outbox.results), filed);
                var settled := DeviceJobs.Complete(old(cloud.jobs), project, device, submitted, resultsAt);
                match Sync(Cloud(old(cloud.devices), old(cloud.State())), project, device, old(outbox.cursor),
                           DraftsOf(ReadRows(old(outbox.rows), pending), drawn), inventory, at)
                case Served(c, reply) =>
                  && cloud.State() == c.workspace && cloud.devices == c.devices
                  && outbox.Value() == OutboxAfter(old(outbox.Value()), reply, localAt, ReachOf(fate))
                  && DeviceJobs.IsSelection(DeviceJobs.Sweep(settled, claimAt), project, device, claimAt, CLAIM_LIMIT,
                                            DeviceJobs.PickedJobs(picks))
                  && (forall i | 0 <= i < |picks| ::
                        picks[i].lease == draws[i].lease && picks[i].reading == draws[i].reading)
                  && cloud.jobs == DeviceJobs.Claim(settled, claimAt, picks) && |deliveries| == |picks|
                  && (forall i | 0 <= i < |picks| ::
                      deliveries[i].job == picks[i].job && deliveries[i].lease == picks[i].lease)
                  && var answers := DeviceJobs.Answers(DeviceJobs.Sweep(old(cloud.jobs), resultsAt), project, device,
                                                       submitted, resultsAt);
                  outbox.results == ResultsAfter(old(outbox.results), answers.0 + JobIds(answers.1), deliveries, run,
                                                 localAt, fate)
                case _ =>
                  && cloud.State() == old(cloud.State()) && cloud.devices == old(cloud.devices) && cloud.jobs == settled
                  && outbox.Value() == old(outbox.Value()) && outbox.results == old(outbox.results)
    {
      hide Sync, OutboxAfter, ResultsAfter, DeviceJobs.Complete, DeviceJobs.Claim, DeviceJobs.Answers,
          DeviceJobs.Sweep, DeviceJobs.IsSelection, JobIds, DraftsOf, Delivers;
      deliveries, picks := [], [];
      var ids, mutations := outbox.PendingEvents(PENDING_LIMIT);
      var jobIds, submissions := outbox.PendingJobResults(RESULTS_LIMIT);
      pending, filed := ids, jobIds;
      if fate == RequestLost { return; }
      var accepted, rejected := cloud.CompleteDeviceJobResults(project, device, submissions, resultsAt);
      var outcome := cloud.SyncEvents(project, device, outbox.cursor, DraftsOf(mutations, drawn), inventory, at);
      if !outcome.Synced? { return; }
      var jobs;
      jobs, picks := cloud.ClaimDeviceJobs(project, device, CLAIM_LIMIT, claimAt, draws);
      deliveries := jobs;
      HandleAnswer(outcome.reply, accepted + JobIds(rejected), jobs, run, localAt, fate);
    }
  }
}
