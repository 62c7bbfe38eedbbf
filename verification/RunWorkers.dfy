/** Any number of workers: exactly when settled runs stay settled, and exactly when every write brings a run nearer
    its end. */
module RunWorkers {
  import opened Prelude
  import opened RunRows
  import opened RunDriver

  type Write = RunRows.Label

  function After(labels: seq<Write>, max: nat, i: nat): Rows
    requires i <= |labels|
  {
    RunRows.Run(map[], labels[..i], max)
  }

  lemma AfterStep(labels: seq<Write>, max: nat, i: nat)
    requires i < |labels|
    ensures After(labels, max, i + 1) == RunRows.Next(After(labels, max, i), labels[i], max)
  {
    assert labels[..i + 1][..i] == labels[..i];
  }

  // ---------------------------------------------------------------- settled runs

  predicate IsSettled(rows: Rows, id: Id) {
    id in rows && rows[id].status.Settled?
  }

  /** A release or recovery puts a settled run back in the queue. */
  predicate Revives(rows: Rows, l: Write, max: nat) {
    Requeues(l, max) && IsSettled(rows, l.id)
  }

  predicate StaysSettled(rows: Rows, l: Write, max: nat) {
    forall id | id in rows && IsSettled(rows, id) :: IsSettled(RunRows.Next(rows, l, max), id)
  }

  lemma StaysSettledExactly(rows: Rows, l: Write, max: nat)
    ensures StaysSettled(rows, l, max) <==> !Revives(rows, l, max)
  {
    if Revives(rows, l, max) {
      assert IsSettled(rows, l.id) && !IsSettled(RunRows.Next(rows, l, max), l.id);
    }
  }

  /** Once settled, settled for the rest of the run. */
  ghost predicate NeverUnsettled(labels: seq<Write>, max: nat) {
    forall i, j, id | 0 <= i <= j <= |labels| && IsSettled(After(labels, max, i), id) ::
        IsSettled(After(labels, max, j), id)
  }

  lemma {:induction false} SettledFrom(labels: seq<Write>, max: nat, i: nat, j: nat, id: Id)
    requires i <= j <= |labels| && IsSettled(After(labels, max, i), id)
    requires forall k | 0 <= k < |labels| :: !Revives(After(labels, max, k), labels[k], max)
    ensures IsSettled(After(labels, max, j), id)
  {
    hide After, RunRows.Next, Revives;
    if i < j {
      SettledFrom(labels, max, i, j - 1, id);
      AfterStep(labels, max, j - 1);
      StaysSettledExactly(After(labels, max, j - 1), labels[j - 1], max);
    }
  }

  /** For every interleaving: settled runs stay settled if and only if no release or recovery requeues a settled run. */
  lemma SettledForeverExactly(labels: seq<Write>, max: nat)
    ensures NeverUnsettled(labels, max) <==>
            forall k | 0 <= k < |labels| :: !Revives(After(labels, max, k), labels[k], max)
  {
    hide After, RunRows.Next, Revives, IsSettled;
    if NeverUnsettled(labels, max) {
      forall k | 0 <= k < |labels| ensures !Revives(After(labels, max, k), labels[k], max) {
        AfterStep(labels, max, k);
        StaysSettledExactly(After(labels, max, k), labels[k], max);
      }
    }
    if forall k | 0 <= k < |labels| :: !Revives(After(labels, max, k), labels[k], max) {
      forall i, j, id | 0 <= i <= j <= |labels| && IsSettled(After(labels, max, i), id)
        ensures IsSettled(After(labels, max, j), id) {
        SettledFrom(labels, max, i, j, id);
      }
    }
  }

  // ---------------------------------------------------------------- the measure

  predicate Kept(a: Row, b: Row) {
    a.status == b.status && a.attempts == b.attempts
  }

  predicate Descends(rows: Rows, l: Write, max: nat) {
    var after := RunRows.Next(rows, l, max);
    forall id | id in rows ::
      id in after && (Kept(rows[id], after[id]) || Measure(after[id], max) < Measure(rows[id], max))
  }

  /** A write lands on a settled run and changes its outcome: a late release or recovery, or a second completion. */
  predicate Overwrites(rows: Rows, l: Write, max: nat) {
    && IsSettled(rows, l.id)
    && match l
       case ReleaseForRetry(id, read, _, _) => read < max || rows[id].status != FAILED
       case RecoverRun(id, seen, _) => seen.status == Running && (seen.attempts < max || rows[id].status != FAILED)
       case CompleteRun(id, outcome, _) => rows[id].status != Settled(outcome)
       case _ => false
  }

  lemma DescendsExactly(rows: Rows, l: Write, max: nat)
    requires Bounded(rows, max)
    ensures Descends(rows, l, max) <==> !Overwrites(rows, l, max)
  {
    var after := RunRows.Next(rows, l, max);
    assert l.id in rows ==> RowBounded(rows[l.id], max);
    if Overwrites(rows, l, max) {
      assert !Kept(rows[l.id], after[l.id]);
    }
  }

  predicate Orderly(labels: seq<Write>, max: nat) {
    forall i | 0 <= i < |labels| ::
      !StaleAt(map[], labels, max, i) && !Overwrites(After(labels, max, i), labels[i], max)
  }

  predicate AlwaysBounded(labels: seq<Write>, max: nat) {
    forall i | 0 <= i <= |labels| :: BoundedAt(map[], labels, max, i)
  }

  predicate AlwaysDescends(labels: seq<Write>, max: nat) {
    forall i | 0 <= i < |labels| :: Descends(After(labels, max, i), labels[i], max)
  }

  /** For every interleaving: the retry bound holds throughout and every write leaves a run alone or strictly lowers its
      measure, if and only if no requeue is written over used-up attempts and no write changes a settled run. */
  lemma DescentExactly(labels: seq<Write>, max: nat)
    ensures (AlwaysBounded(labels, max) && AlwaysDescends(labels, max)) <==> Orderly(labels, max)
  {
    hide Descends, Overwrites, StaleRequeue;
    RetryBoundExactly(map[], labels, max);
    forall i | 0 <= i < |labels| && BoundedAt(map[], labels, max, i)
      ensures Descends(After(labels, max, i), labels[i], max) <==> !Overwrites(After(labels, max, i), labels[i], max) {
      DescendsExactly(After(labels, max, i), labels[i], max);
    }
  }

  /** How many of the first n writes moved a run. */
  function Moved(labels: seq<Write>, max: nat, id: Id, n: nat): nat
    requires n <= |labels|
  {
    if n == 0 then 0
    else
      var before, after := After(labels, max, n - 1), After(labels, max, n);
      Moved(labels, max, id, n - 1) + if id in before && id in after && !Kept(before[id], after[id]) then 1 else 0
  }

  lemma NewRun(rows: Rows, l: Write, max: nat, id: Id)
    requires id !in rows && id in RunRows.Next(rows, l, max)
    ensures Measure(RunRows.Next(rows, l, max)[id], max) == 2 * Limit(max)
  {}

  lemma MeasureBounds(r: Row, max: nat)
    requires RowBounded(r, max)
    ensures 0 <= Measure(r, max)
  {}

  lemma KeptMeasure(a: Row, b: Row, max: nat)
    requires Kept(a, b)
    ensures Measure(a, max) == Measure(b, max)
  {}

  lemma {:induction false} MovesFit(labels: seq<Write>, max: nat, id: Id, n: nat)
    requires n <= |labels| && AlwaysDescends(labels, max)
    ensures var rows := After(labels, max, n);
            if id in rows then Moved(labels, max, id, n) + Measure(rows[id], max) <= 2 * Limit(max)
                else Moved(labels, max, id, n) == 0
  {
    hide After, RunRows.Next, Measure, Kept;
    if n == 0 {
      NoRunYet(labels, max);
    } else {
      MovesFit(labels, max, id, n - 1);
      AfterStep(labels, max, n - 1);
      var before, after := After(labels, max, n - 1), After(labels, max, n);
      assert Descends(before, labels[n - 1], max);
      if id in before {
        if Kept(before[id], after[id]) { KeptMeasure(before[id], after[id], max); }
      } else if id in after {
        NewRun(before, labels[n - 1], max, id);
      }
    }
  }

  lemma NoRunYet(labels: seq<Write>, max: nat)
    ensures After(labels, max, 0) == map[]
  {}

  /** Termination with any number of workers: under the condition of `DescentExactly` a run moves at most
      2 * max(1, max) times, and a settled run never again. */
  lemma WorkersTerminate(labels: seq<Write>, max: nat, id: Id)
    requires Orderly(labels, max)
    ensures Moved(labels, max, id, |labels|) <= 2 * Limit(max)
    ensures NeverUnsettled(labels, max)
  {
    hide AlwaysDescends, Orderly, NeverUnsettled, Moved, Measure, After;
    DescentExactly(labels, max);
    MovesFit(labels, max, id, |labels|);
    OrderlySettles(labels, max);
    MeasureAtEnd(labels, max, id);
  }

  lemma MeasureAtEnd(labels: seq<Write>, max: nat, id: Id)
    requires AlwaysBounded(labels, max)
    ensures var rows := After(labels, max, |labels|); id in rows ==> 0 <= Measure(rows[id], max)
  {
    hide Measure, RunRows.Run;
    var rows := After(labels, max, |labels|);
    assert BoundedAt(map[], labels, max, |labels|);
    if id in rows {
      MeasureBounds(rows[id], max);
    }
  }

  lemma OrderlySettles(labels: seq<Write>, max: nat)
    requires Orderly(labels, max)
    ensures NeverUnsettled(labels, max)
  {
    hide After, NeverUnsettled, Revives, Overwrites;
    SettledForeverExactly(labels, max);
    forall k | 0 <= k < |labels| ensures !Revives(After(labels, max, k), labels[k], max) {
      RevivalOverwrites(After(labels, max, k), labels[k], max);
    }
  }

  lemma RevivalOverwrites(rows: Rows, l: Write, max: nat)
    ensures Revives(rows, l, max) ==> Overwrites(rows, l, max)
  {}

  /** Two workers: the first one loses its lease, the second recovers the run and completes it, and then the first one's
      agent raises. Its release reads the present attempts and still revives the completed run. */
  const REVIVAL: seq<Write> := [
    CreateRun(1, 0), ClaimRun(1, 9, 0), RecoverRun(1, Row(Running, 1, Some(9), None, 0), 9), ClaimRun(1, 30, 10),
    CompleteRun(1, "completed", 11), ReleaseForRetry(1, 2, "Timeout", 12)]

  lemma SettledRunRevives()
    ensures (forall i | 0 <= i < 6 :: FreshRead(After(REVIVAL, 3, i), REVIVAL[i]))
            && IsSettled(After(REVIVAL, 3, 5), 1) && Revives(After(REVIVAL, 3, 5), REVIVAL[5], 3)
                 && !IsSettled(After(REVIVAL, 3, 6), 1)
  {
    hide RunRows.Run;
    NoRunYet(REVIVAL, 3);
    AfterStep(REVIVAL, 3, 0);
    AfterStep(REVIVAL, 3, 1);
    AfterStep(REVIVAL, 3, 2);
    AfterStep(REVIVAL, 3, 3);
    AfterStep(REVIVAL, 3, 4);
    AfterStep(REVIVAL, 3, 5);
  }
}
