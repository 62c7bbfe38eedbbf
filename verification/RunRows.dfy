/**
 The runs table: claim, renewal, release, recovery and completion as functions on rows, and every interleaving of them
 by any number of workers. A release and a recovery decide on what they read before they write.
 */
module RunRows {
  import opened Prelude

  /** `Settled` is any status that is neither queued nor running: completed, needs_revision, failed. */
  datatype Status = Queued | Running | Settled(outcome: string)

  datatype Row = Row(status: Status, attempts: nat, leaseExpiresAt: Option<Stamp>, lastError: Option<string>,
                     updatedAt: Stamp)

  type Rows = map<Id, Row>

  const FAILED := Settled("failed")

  function Create(rows: Rows, id: Id, at: Stamp): Rows {
    if id in rows then rows else rows[id := Row(Queued, 0, None, None, at)]
  }

  /** UPDATE .. attempt_count + 1 .. WHERE id = ? AND status = 'queued'. */
  function Claim(rows: Rows, id: Id, expires: Stamp, at: Stamp): Rows {
    if id in rows && rows[id].status == Queued
    then rows[id := rows[id].(status := Running, attempts := rows[id].attempts + 1, leaseExpiresAt := Some(expires),
                              updatedAt := at)]
    else rows
  }

  function Renew(rows: Rows, id: Id, expires: Stamp, at: Stamp): Rows {
    if id in rows && rows[id].status == Running
        then rows[id := rows[id].(leaseExpiresAt := Some(expires), updatedAt := at)] else rows
  }

  function Clipped(error: string): string {
    if |error| > 1000 then error[..1000] else error
  }

  /** The UPDATE of a release, with the attempt count that its SELECT returned. */
  function Release(rows: Rows, id: Id, read: nat, error: string, max: nat, at: Stamp): Rows {
    if id in rows
    then rows[id := rows[id].(status := if read < max then Queued
                              else FAILED, leaseExpiresAt := None, lastError := Some(Clipped(error)), updatedAt := at)]
    else rows
  }

  const EXHAUSTED := "Worker lease expired after maximum attempts."
  const RECOVERED := "Worker lease expired; run recovered for retry."

  /** The UPDATE of a recovery for one row that its SELECT returned as `seen`. */
  function Recover(rows: Rows, id: Id, seen: Row, max: nat, at: Stamp): Rows {
    if id !in rows || seen.status != Running then rows
    else if seen.attempts >= max then rows[id :=
                                           rows[id].(status := FAILED, leaseExpiresAt := None,
                                                     lastError := Some(EXHAUSTED), updatedAt := at)]
    else rows[id := rows[id].(status := Queued, leaseExpiresAt := None, lastError := Some(RECOVERED), updatedAt := at)]
  }

  function Complete(rows: Rows, id: Id, outcome: string, at: Stamp): Rows {
    if id in rows then rows[id := rows[id].(status := Settled(outcome), leaseExpiresAt := None, updatedAt := at)]
        else rows
  }

  // ---------------------------------------------------------------- any number of workers

  /** One transaction of some worker. Stale workers, duplicated and lost deliveries and crashes only reorder or omit
      these. */
  datatype Label =
    | CreateRun(id: Id, at: Stamp)
    | ClaimRun(id: Id, expires: Stamp, at: Stamp)
    | RenewLease(id: Id, expires: Stamp, at: Stamp)
    | ReleaseForRetry(id: Id, read: nat, error: string, at: Stamp)
    | RecoverRun(id: Id, seen: Row, at: Stamp)
    | CompleteRun(id: Id, outcome: string, at: Stamp)

  function Next(rows: Rows, l: Label, max: nat): Rows {
    match l
    case CreateRun(id, at) => Create(rows, id, at)
    case ClaimRun(id, expires, at) => Claim(rows, id, expires, at)
    case RenewLease(id, expires, at) => Renew(rows, id, expires, at)
    case ReleaseForRetry(id, read, error, at) => Release(rows, id, read, error, max, at)
    case RecoverRun(id, seen, at) => Recover(rows, id, seen, max, at)
    case CompleteRun(id, outcome, at) => Complete(rows, id, outcome, at)
  }

  function Run(rows: Rows, labels: seq<Label>, max: nat): Rows {
    if labels == [] then rows else Next(Run(rows, labels[..|labels| - 1], max), labels[|labels| - 1], max)
  }

  /** The attempts a run may use; at least the first claim is always possible. */
  function Limit(max: nat): nat {
    Max(1, max)
  }

  predicate RowBounded(r: Row, max: nat) {
    r.attempts <= Limit(max) && (r.status == Queued ==> r.attempts < Limit(max))
  }

  predicate Bounded(rows: Rows, max: nat) {
    forall id | id in rows :: RowBounded(rows[id], max)
  }

  /** The write puts a run back in the queue. */
  predicate Requeues(l: Label, max: nat) {
    match l
    case ReleaseForRetry(_, read, _, _) => read < max
    case RecoverRun(_, seen, _) => seen.status == Running && seen.attempts < max
    case _ => false
  }

  /** A requeueing write lands on a run whose attempts are used up, because it decided on an older read. */
  predicate StaleRequeue(rows: Rows, l: Label, max: nat) {
    Requeues(l, max) && l.id in rows && rows[l.id].attempts >= max
  }

  /** What the write decided on is still what the row holds. */
  predicate FreshRead(rows: Rows, l: Label) {
    match l
    case ReleaseForRetry(id, read, _, _) => id in rows ==> read == rows[id].attempts
    case RecoverRun(id, seen, _) => id in rows ==> seen == rows[id]
    case _ => true
  }

  lemma NextBounded(rows: Rows, l: Label, max: nat)
    requires Bounded(rows, max)
    ensures Bounded(Next(rows, l, max), max) <==> !StaleRequeue(rows, l, max)
    ensures FreshRead(rows, l) ==> !StaleRequeue(rows, l, max)
  {
    if StaleRequeue(rows, l, max) {
      assert !RowBounded(Next(rows, l, max)[l.id], max);
    }
  }

  predicate StaleAt(rows: Rows, labels: seq<Label>, max: nat, i: nat)
    requires i < |labels|
  {
    StaleRequeue(Run(rows, labels[..i], max), labels[i], max)
  }

  predicate BoundedAt(rows: Rows, labels: seq<Label>, max: nat, i: nat)
    requires i <= |labels|
  {
    Bounded(Run(rows, labels[..i], max), max)
  }

  /** Retry bound, for every interleaving: at every moment of a run each queued run has an attempt left and no run used
      more than its limit, exactly when no release or recovery wrote a requeue over attempts that were already used
      up. */
  lemma {:induction false} RetryBoundExactly(rows: Rows, labels: seq<Label>, max: nat)
    requires Bounded(rows, max)
    ensures (forall i | 0 <= i <= |labels| :: BoundedAt(rows, labels, max, i))
              <==> (forall i | 0 <= i < |labels| :: !StaleAt(rows, labels, max, i))
  {
    hide Next, Bounded, StaleRequeue;
    if labels == [] {
      assert labels[..0] == [];
    } else {
      var last := |labels| - 1;
      var few := labels[..last];
      RetryBoundExactly(rows, few, max);
      assert labels[..|labels|] == labels;
      forall i | 0 <= i <= last ensures BoundedAt(rows, labels, max, i) == BoundedAt(rows, few, max, i) {
        assert few[..i] == labels[..i];
      }
      forall i | 0 <= i < last ensures StaleAt(rows, labels, max, i) == StaleAt(rows, few, max, i) {
        assert few[..i] == labels[..i];
      }
      assert few[..last] == few;
      if forall i | 0 <= i <= last :: BoundedAt(rows, few, max, i) {
        assert BoundedAt(rows, few, max, last);
        NextBounded(Run(rows, few, max), labels[last], max);
        assert StaleAt(rows, labels, max, last) == StaleRequeue(Run(rows, few, max), labels[last], max);
        assert BoundedAt(rows, labels, max, last + 1) == Bounded(Run(rows, labels, max), max);
      }
    }
  }

  /** How often a run was claimed in the course of the labels. */
  function Claims(rows: Rows, labels: seq<Label>, max: nat, id: Id): nat {
    if labels == [] then 0
    else
      var before := Run(rows, labels[..|labels| - 1], max);
      var l := labels[|labels| - 1];
      Claims(rows, labels[..|labels| - 1], max, id) +
      if l.ClaimRun? && l.id == id && id in before && before[id].status == Queued then 1 else 0
  }

  /** The attempt counter counts claims: nothing but a claim moves it. */
  lemma {:induction false} AttemptsCountClaims(labels: seq<Label>, max: nat, id: Id)
    ensures var rows := Run(map[], labels, max);
            Claims(map[], labels, max, id) == if id in rows then rows[id].attempts else 0
  {
    if labels != [] {
      AttemptsCountClaims(labels[..|labels| - 1], max, id);
    }
  }

  /** Under every interleaving, with stale reads too, a run has a lease exactly while it is running. */
  lemma {:induction false} LeasedExactlyWhileRunning(labels: seq<Label>, max: nat, id: Id)
    ensures var rows := Run(map[], labels, max);
            id in rows ==> (rows[id].status == Running <==> rows[id].leaseExpiresAt.Some?)
  {
    if labels != [] {
      LeasedExactlyWhileRunning(labels[..|labels| - 1], max, id);
    }
  }

  /** When every release and recovery decides and writes atomically, no run is ever claimed more than max(1, max)
      times. */
  lemma AtomicRetriesAreBounded(labels: seq<Label>, max: nat, id: Id)
    requires forall i | 0 <= i < |labels| :: FreshRead(Run(map[], labels[..i], max), labels[i])
    ensures Claims(map[], labels, max, id) <= Limit(max)
    ensures Bounded(Run(map[], labels, max), max)
  {
    AtomicRunBounded(labels, max);
    AttemptsCountClaims(labels, max, id);
    var rows := Run(map[], labels, max);
    assert id in rows ==> RowBounded(rows[id], max);
  }

  lemma {:induction false} AtomicRunBounded(labels: seq<Label>, max: nat)
    requires forall i | 0 <= i < |labels| :: FreshRead(Run(map[], labels[..i], max), labels[i])
    ensures Bounded(Run(map[], labels, max), max)
  {
    hide Next, FreshRead, StaleRequeue;
    if labels != [] {
      var last := |labels| - 1;
      var few := labels[..last];
      forall i | 0 <= i < last ensures FreshRead(Run(map[], few[..i], max), few[i]) {
        assert few[..i] == labels[..i];
      }
      AtomicRunBounded(few, max);
      NextBounded(Run(map[], few, max), labels[last], max);
    }
  }

  lemma RunSnoc(rows: Rows, labels: seq<Label>, l: Label, max: nat)
    ensures Run(rows, labels + [l], max) == Next(Run(rows, labels, max), l, max)
    ensures Claims(rows, labels + [l], max, l.id) == Claims(rows, labels, max, l.id) +
              if l.ClaimRun? && l.id in Run(rows, labels, max) && Run(rows, labels, max)[l.id].status == Queued then 1
                  else 0
  {}

  /** Two recoverers that read the same expired row: the second write requeues a run that was claimed again in between,
      and it is claimed a fourth time under a limit of three. */
  lemma RetryBoundBreaksUnderRace()
    ensures var once := Row(Running, 1, Some(0), None, 0);
            var twice := Row(Running, 2, Some(0), Some(RECOVERED), 0);
            var labels := [CreateRun(1, 0), ClaimRun(1, 0, 0), RecoverRun(1, once, 0), ClaimRun(1, 0, 0),
                           RecoverRun(1, twice, 0),
                           ClaimRun(1, 0, 0), RecoverRun(1, twice, 0), ClaimRun(1, 0, 0)];
            && Run(map[], labels[..2], 3) == map[1 := once] && Run(map[], labels[..4], 3) == map[1 := twice]
            && Claims(map[], labels, 3, 1) == 4
  {
    hide Run, Claims;
    var once := Row(Running, 1, Some(0), None, 0);
    var twice := Row(Running, 2, Some(0), Some(RECOVERED), 0);
    var labels := [CreateRun(1, 0), ClaimRun(1, 0, 0), RecoverRun(1, once, 0), ClaimRun(1, 0, 0),
                   RecoverRun(1, twice, 0),
                   ClaimRun(1, 0, 0), RecoverRun(1, twice, 0), ClaimRun(1, 0, 0)];
    NoSteps(1);
    assert labels[..0] == [] && labels[..8] == labels;
    Step(labels, 0, 1);
    Step(labels, 1, 1);
    Step(labels, 2, 1);
    Step(labels, 3, 1);
    Step(labels, 4, 1);
    Step(labels, 5, 1);
    Step(labels, 6, 1);
    Step(labels, 7, 1);
  }

  lemma NoSteps(id: Id)
    ensures Run(map[], [], 3) == map[] && Claims(map[], [], 3, id) == 0
  {}

  lemma Step(labels: seq<Label>, i: nat, id: Id)
    requires i < |labels| && labels[i].id == id
    ensures Run(map[], labels[..i + 1], 3) == Next(Run(map[], labels[..i], 3), labels[i], 3)
    ensures Claims(map[], labels[..i + 1], 3, id) == Claims(map[], labels[..i], 3, id) +
              if labels[i].ClaimRun? && id in Run(map[], labels[..i], 3)
                  && Run(map[], labels[..i], 3)[id].status == Queued then 1 else 0
  {
    assert labels[..i + 1] == labels[..i] + [labels[i]];
    RunSnoc(map[], labels[..i], labels[i], 3);
  }
}
