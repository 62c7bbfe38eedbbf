/** Runs driven by one serve loop: the loop works on at most one run at a time and recovers only between runs. */
module RunDriver {
  import opened Prelude
  import opened RunRows

  /** `working` is the run the loop is executing. */
  datatype Driver = Driver(rows: Rows, working: Option<Id>)

  /** `Take` is a delivery, possibly repeated or outdated; a lost delivery is a `Take` that never comes. `Die` is a
      crash of the process; the loop that starts next finds the row running. `Finish` assumes that the append after
      the completion does not raise. */
  datatype Event =
    | Submit(id: Id, at: Stamp)
    | Take(id: Id, expires: Stamp, at: Stamp)
    | Heartbeat(expires: Stamp, at: Stamp)
    | Finish(outcome: string, at: Stamp)
    | Raise(error: string, at: Stamp)
    | Die
    | Sweep(ids: seq<Id>, at: Stamp)

  /** Recovery of the selected rows in order; the loop is alone, so each row still is what was selected. */
  function RecoverAll(rows: Rows, ids: seq<Id>, max: nat, at: Stamp): Rows {
    if ids == [] then rows
    else
      var rest := RecoverAll(rows, ids[..|ids| - 1], max, at);
      var id := ids[|ids| - 1];
      if id in rest then Recover(rest, id, rest[id], max, at) else rest
  }

  function Next(s: Driver, e: Event, max: nat): Driver {
    match e
    case Submit(id, at) => s.(rows := Create(s.rows, id, at))
    case Take(id, expires, at) =>
      if s.working.Some? || id !in s.rows || s.rows[id].status != Queued then s
      else Driver(Claim(s.rows, id, expires, at), Some(id))
    case Heartbeat(expires, at) => if s.working.None? then s
        else s.(rows := Renew(s.rows, s.working.value, expires, at))
    case Finish(outcome, at) => if s.working.None? then s
        else Driver(Complete(s.rows, s.working.value, outcome, at), None)
    case Raise(error, at) =>
      if s.working.None? || s.working.value !in s.rows then s
      else Driver(Release(s.rows, s.working.value, s.rows[s.working.value].attempts, error, max, at), None)
    case Die => s.(working := None)
    case Sweep(ids, at) => if s.working.Some? then s else s.(rows := RecoverAll(s.rows, ids, max, at))
  }

  function Run(s: Driver, events: seq<Event>, max: nat): Driver {
    if events == [] then s else Next(Run(s, events[..|events| - 1], max), events[|events| - 1], max)
  }

  predicate Invariant(s: Driver, max: nat) {
    && Bounded(s.rows, max) && (s.working.Some?
                                ==> s.working.value in s.rows && s.rows[s.working.value].status == Running)
    && forall id | id in s.rows :: s.rows[id].status == Running ==> s.rows[id].attempts > 0
  }

  /** The work a run can still cause: two steps per attempt left, one more while it is running, none once settled. */
  function Measure(r: Row, max: nat): int {
    match r.status
    case Settled(_) => 0
    case Queued => 2 * (Limit(max) - r.attempts)
    case Running => 2 * (Limit(max) - r.attempts) + 1
  }

  lemma RecoverStep(rows: Rows, ids: seq<Id>, max: nat, at: Stamp)
    requires ids != []
    ensures var rest := RecoverAll(rows, ids[..|ids| - 1], max, at);
            var id := ids[|ids| - 1];
            RecoverAll(rows, ids, max, at) == if id in rest then Recover(rest, id, rest[id], max, at) else rest
  {}

  predicate Live(r: Row, max: nat) {
    RowBounded(r, max) && (r.status == Running ==> r.attempts > 0)
  }

  /** Recovery of one row: a running row moves down, any other stays as it is. */
  lemma RecoverOneDescends(rows: Rows, id: Id, max: nat, at: Stamp, other: Id)
    requires id in rows && other in rows && Live(rows[id], max) && Live(rows[other], max)
    ensures var t := Recover(rows, id, rows[id], max, at);
            && other in t && Live(t[other], max) && t.Keys == rows.Keys
            && (t[other] == rows[other] || Measure(t[other], max) < Measure(rows[other], max))
  {}

  lemma {:induction false} RecoveryDescends(rows: Rows, ids: seq<Id>, max: nat, at: Stamp, other: Id)
    requires other in rows && forall id | id in rows :: Live(rows[id], max)
    ensures var t := RecoverAll(rows, ids, max, at);
            && other in t && t.Keys == rows.Keys && (forall id | id in t :: Live(t[id], max))
            && (t[other] == rows[other] || Measure(t[other], max) < Measure(rows[other], max))
  {
    hide Recover, Live, Measure;
    if ids != [] {
      var few := ids[..|ids| - 1];
      RecoverStep(rows, ids, max, at);
      RecoveryDescends(rows, few, max, at, other);
      var rest := RecoverAll(rows, few, max, at);
      var id := ids[|ids| - 1];
      if id in rest {
        forall k | k in rest ensures k in Recover(rest, id, rest[id], max, at)
            && Live(Recover(rest, id, rest[id], max, at)[k], max) {
          RecoverOneDescends(rest, id, max, at, k);
        }
        RecoverOneDescends(rest, id, max, at, other);
      }
    }
  }

  /** Only the lease clock of a row moved. */
  predicate Stutter(a: Row, b: Row) {
    a.status == b.status && a.attempts == b.attempts && a.lastError == b.lastError
  }

  lemma SweepDescends(s: Driver, ids: seq<Id>, max: nat, at: Stamp, id: Id)
    requires Invariant(s, max) && id in s.rows && s.working.None?
    ensures var t := RecoverAll(s.rows, ids, max, at);
            && Invariant(s.(rows := t), max) && id in t
            && (Stutter(s.rows[id], t[id]) || Measure(t[id], max) < Measure(s.rows[id], max))
  {
    hide RecoverAll, Measure;
    forall k | k in s.rows ensures Live(s.rows[k], max) {
      assert RowBounded(s.rows[k], max);
    }
    RecoveryDescends(s.rows, ids, max, at, id);
    var t := RecoverAll(s.rows, ids, max, at);
    forall k | k in t ensures RowBounded(t[k], max) && (t[k].status == Running ==> t[k].attempts > 0) {
      assert Live(t[k], max);
    }
  }

  lemma RowMeasure(s: Driver, max: nat, id: Id)
    requires Invariant(s, max) && id in s.rows
    ensures 0 <= Measure(s.rows[id], max)
  {
    assert RowBounded(s.rows[id], max);
  }

  lemma StepDescends(s: Driver, e: Event, max: nat, id: Id)
    requires Invariant(s, max) && id in s.rows && !e.Sweep?
    ensures Invariant(Next(s, e, max), max) && id in Next(s, e, max).rows
    ensures var a, b := s.rows[id], Next(s, e, max).rows[id]; Stutter(a, b) || Measure(b, max) < Measure(a, max)
  {
    assert RowBounded(s.rows[id], max);
  }

  /** Every step of the loop either leaves a run's status and attempts alone or brings its measure strictly down. */
  lemma NextDescends(s: Driver, e: Event, max: nat, id: Id)
    requires Invariant(s, max) && id in s.rows
    ensures Invariant(Next(s, e, max), max) && id in Next(s, e, max).rows
    ensures var a, b := s.rows[id], Next(s, e, max).rows[id];
            0 <= Measure(b, max) && (Stutter(a, b) || Measure(b, max) < Measure(a, max))
  {
    hide RecoverAll, Measure, Invariant, Stutter;
    match e {
      case Sweep(ids, at) =>
        if s.working.None? { SweepDescends(s, ids, max, at, id); } else { SameRow(s.rows[id]); }
      case _ => StepDescends(s, e, max, id);
    }
    RowMeasure(Next(s, e, max), max, id);
  }

  lemma SameRow(r: Row)
    ensures Stutter(r, r)
  {}

  lemma {:induction false} RunInvariant(start: Driver, events: seq<Event>, max: nat)
    requires Invariant(start, max)
    ensures Invariant(Run(start, events, max), max)
  {
    hide Next, Invariant;
    if events != [] {
      var s := Run(start, events[..|events| - 1], max);
      RunInvariant(start, events[..|events| - 1], max);
      if s.rows.Keys == {} {
        FirstRow(s, events[|events| - 1], max);
      } else {
        var id :| id in s.rows;
        NextDescends(s, events[|events| - 1], max, id);
      }
    }
  }

  lemma {:induction false} NothingToRecover(rows: Rows, ids: seq<Id>, max: nat, at: Stamp)
    requires rows == map[]
    ensures RecoverAll(rows, ids, max, at) == map[]
  {
    if ids != [] {
      NothingToRecover(rows, ids[..|ids| - 1], max, at);
    }
  }

  lemma FirstRow(s: Driver, e: Event, max: nat)
    requires Invariant(s, max) && s.rows.Keys == {}
    ensures Invariant(Next(s, e, max), max)
  {
    assert s.rows == map[];
    if e.Sweep? {
      NothingToRecover(s.rows, e.ids, max, e.at);
    }
  }

  /** How many steps of the loop moved a run. */
  function Moves(start: Driver, events: seq<Event>, max: nat, id: Id): nat {
    if events == [] then 0
    else
      var before := Run(start, events[..|events| - 1], max);
      var after := Run(start, events, max);
      Moves(start, events[..|events| - 1], max, id) +
      if id in before.rows && id in after.rows && !Stutter(before.rows[id], after.rows[id]) then 1 else 0
  }

  /** The moves a run can still make; a run that is yet to be submitted has all of them. */
  function Budget(s: Driver, max: nat, id: Id): int {
    if id in s.rows then Measure(s.rows[id], max) else 2 * Limit(max)
  }

  /** Termination: from any sound start a run moves at most as often as its measure says, at most 2 * max(1, max)
      times, under one serve loop, whatever is delivered and however often the loop crashes; and a settled run never
      moves again. */
  lemma {:induction false} RunsTerminate(start: Driver, events: seq<Event>, max: nat, id: Id)
    requires Invariant(start, max)
    ensures Moves(start, events, max, id)
              + Budget(Run(start, events, max), max, id) <= Budget(start, max, id) <= 2 * Limit(max)
    ensures 0 <= Budget(Run(start, events, max), max, id)
  {
    hide Next, Measure, Stutter, Invariant;
    BudgetRange(start, max, id);
    if events != [] {
      var few := events[..|events| - 1];
      var s := Run(start, few, max);
      var e := events[|events| - 1];
      RunsTerminate(start, few, max, id);
      RunInvariant(start, few, max);
      if id in s.rows {
        NextDescends(s, e, max, id);
        SameMeasure(s.rows[id], Run(start, events, max).rows[id], max);
      } else {
        NewRow(s, e, max, id);
      }
    }
  }

  lemma BudgetRange(s: Driver, max: nat, id: Id)
    requires Invariant(s, max)
    ensures 0 <= Budget(s, max, id) <= 2 * Limit(max)
  {
    if id in s.rows {
      assert RowBounded(s.rows[id], max);
    }
  }

  /** How often the loop began to execute a run. */
  function Executions(start: Driver, events: seq<Event>, max: nat, id: Id): nat {
    if events == [] then 0
    else
      var before := Run(start, events[..|events| - 1], max);
      var e := events[|events| - 1];
      Executions(start, events[..|events| - 1], max, id) +
      if e.Take? && e.id == id && before.working.None? && id in before.rows && before.rows[id].status == Queued then 1
          else 0
  }

  function Attempts(s: Driver, id: Id): nat {
    if id in s.rows then s.rows[id].attempts else 0
  }

  lemma {:induction false} RecoveryKeepsAttempts(rows: Rows, ids: seq<Id>, max: nat, at: Stamp, id: Id)
    requires id in rows
    ensures var t := RecoverAll(rows, ids, max, at); id in t && t[id].attempts == rows[id].attempts
  {
    if ids != [] {
      RecoveryKeepsAttempts(rows, ids[..|ids| - 1], max, at, id);
    }
  }

  lemma NextAttempts(s: Driver, e: Event, max: nat, id: Id)
    ensures Attempts(Next(s, e, max), id) == Attempts(s, id) +
              if e.Take? && e.id == id && s.working.None? && id in s.rows && s.rows[id].status == Queued then 1 else 0
  {
    hide RecoverAll;
    if e.Sweep? {
      RecoverAllKeys(s.rows, e.ids, max, e.at);
      if id in s.rows { RecoveryKeepsAttempts(s.rows, e.ids, max, e.at, id); }
    }
  }

  lemma {:induction false} ExecutionsCount(start: Driver, events: seq<Event>, max: nat, id: Id)
    ensures Attempts(Run(start, events, max), id) == Attempts(start, id) + Executions(start, events, max, id)
  {
    hide Next, Attempts;
    if events != [] {
      ExecutionsCount(start, events[..|events| - 1], max, id);
      NextAttempts(Run(start, events[..|events| - 1], max), events[|events| - 1], max, id);
    }
  }

  /** From any sound start one serve loop executes a run at most max(1, max) times, counting the attempts made before,
      and a run whose executions are used up is never queued again. */
  lemma ExecutionsAreBounded(start: Driver, events: seq<Event>, max: nat, id: Id)
    requires Invariant(start, max)
    ensures Attempts(start, id) + Executions(start, events, max, id) <= Limit(max)
    ensures var s := Run(start, events, max);
            id in s.rows && s.rows[id].status == Queued ==>
              Attempts(start, id) + Executions(start, events, max, id) < Limit(max)
  {
    hide Run, Executions;
    ExecutionsCount(start, events, max, id);
    RunInvariant(start, events, max);
    var s := Run(start, events, max);
    assert id in s.rows ==> RowBounded(s.rows[id], max);
  }

  lemma SameMeasure(a: Row, b: Row, max: nat)
    ensures Stutter(a, b) ==> Measure(a, max) == Measure(b, max)
  {}

  lemma {:induction false} RecoverAllKeys(rows: Rows, ids: seq<Id>, max: nat, at: Stamp)
    ensures RecoverAll(rows, ids, max, at).Keys == rows.Keys
  {
    if ids != [] {
      RecoverAllKeys(rows, ids[..|ids| - 1], max, at);
    }
  }

  lemma NewRow(s: Driver, e: Event, max: nat, id: Id)
    requires id !in s.rows
    ensures id in Next(s, e, max).rows ==> Measure(Next(s, e, max).rows[id], max) == 2 * Limit(max)
  {
    if e.Sweep? {
      RecoverAllKeys(s.rows, e.ids, max, e.at);
    }
  }
}
