/** What a row of the runs table says about the last write to it, and which runs a recovery may touch. */
module RunLeases {
  import opened Prelude
  import opened RunRows
  import RunDriver

  // ---------------------------------------------------------------- the last write

  /** The write finds a row that it changes. */
  predicate Touches(rows: Rows, l: Label) {
    match l
    case CreateRun(id, _) => id !in rows
    case ClaimRun(id, _, _) => id in rows && rows[id].status == Queued
    case RenewLease(id, _, _) => id in rows && rows[id].status == Running
    case ReleaseForRetry(id, _, _, _) => id in rows
    case RecoverRun(id, seen, _) => id in rows && seen.status == Running
    case CompleteRun(id, _, _) => id in rows
  }

  /** The text of an error that is kept: its first thousand characters. */
  predicate Kept(text: Option<string>, error: string) {
    text.Some? && text.value <= error && |text.value| == Min(|error|, 1000)
  }

  /** The row is what the write leaves. */
  predicate Shows(r: Row, l: Label, max: nat) {
    && r.updatedAt == l.at
    && match l
       case CreateRun(_, _) => r.status == Queued && r.attempts == 0 && r.leaseExpiresAt == None && r.lastError == None
       case ClaimRun(_, expires, _) => r.status == Running && r.attempts > 0 && r.leaseExpiresAt == Some(expires)
       case RenewLease(_, expires, _) => r.status == Running && r.leaseExpiresAt == Some(expires)
       case ReleaseForRetry(_, read, error, _) =>
         && r.status == (if read < max then Queued else Settled("failed"))
         && r.leaseExpiresAt == None && Kept(r.lastError, error)
       case RecoverRun(_, seen, _) =>
         && r.status == (if seen.attempts < max then Queued else Settled("failed")) && r.leaseExpiresAt == None
         && r.lastError == Some(if seen.attempts < max then "Worker lease expired; run recovered for retry."
                                else "Worker lease expired after maximum attempts.")
       case CompleteRun(_, outcome, _) => r.status == Settled(outcome) && r.leaseExpiresAt == None
  }

  /** The i-th write was the last one to change the row. */
  predicate LastWrite(labels: seq<Label>, max: nat, i: nat, id: Id)
    requires i < |labels|
  {
    && labels[i].id == id && Touches(Run(map[], labels[..i], max), labels[i])
    && forall k | i < k < |labels| && labels[k].id == id :: !Touches(Run(map[], labels[..k], max), labels[k])
  }

  lemma ClippedIsKept(error: string)
    ensures Kept(Some(Clipped(error)), error)
  {}

  lemma NextShows(rows: Rows, l: Label, max: nat, id: Id)
    ensures l.id == id && Touches(rows, l) ==> id in Next(rows, l, max) && Shows(Next(rows, l, max)[id], l, max)
    ensures !(l.id == id && Touches(rows, l)) ==>
              && (id in Next(rows, l, max) <==> id in rows)
              && (id in rows ==> Next(rows, l, max)[id] == rows[id])
  {
    if l.ReleaseForRetry? {
      ClippedIsKept(l.error);
    }
    hide Kept;
  }

  lemma RunOfSnoc(few: seq<Label>, l: Label, max: nat)
    ensures Run(map[], few + [l], max) == Next(Run(map[], few, max), l, max)
    ensures forall i | 0 <= i <= |few| :: (few + [l])[..i] == few[..i]
  {
    hide Next;
    assert (few + [l])[..|few|] == few;
  }

  /** Every row of every run, with any workers and any interleaving, shows exactly the last write that changed it: its
      status, its lease, its error and its time. */
  lemma {:induction false} RowsShowLastWrite(labels: seq<Label>, max: nat, id: Id)
    requires id in Run(map[], labels, max)
    ensures exists i | 0 <= i < |labels| :: LastWrite(labels, max, i, id)
              && Shows(Run(map[], labels, max)[id], labels[i], max)
  {
    hide Next, Touches, Shows, Run;
    if labels == [] {
      NoRows(max);
    } else {
      var few, l := labels[..|labels| - 1], labels[|labels| - 1];
      assert labels == few + [l];
      RunOfSnoc(few, l, max);
      var rows := Run(map[], few, max);
      NextShows(rows, l, max, id);
      if l.id == id && Touches(rows, l) {
        assert LastWrite(labels, max, |few|, id);
      } else {
        RowsShowLastWrite(few, max, id);
        var i :| 0 <= i < |few| && LastWrite(few, max, i, id) && Shows(rows[id], few[i], max);
        assert labels[i] == few[i] && labels[..i] == few[..i];
        forall k | i < k < |labels| && labels[k].id == id
          ensures !Touches(Run(map[], labels[..k], max), labels[k]) {
          assert labels[..k] == few[..k];
          assert k < |few| ==> labels[k] == few[k];
        }
        assert LastWrite(labels, max, i, id);
      }
    }
  }

  lemma NoRows(max: nat)
    ensures Run(map[], [], max) == map[]
  {}

  // ---------------------------------------------------------------- which runs a recovery may touch

  /** A worker executes the run: its lease ends after the given time. */
  predicate UnderLease(r: Row, at: Stamp) {
    r.status == Running && r.leaseExpiresAt.Some? && at < r.leaseExpiresAt.value
  }

  predicate LeaseOver(r: Row, at: Stamp) {
    r.status == Running && (r.leaseExpiresAt.None? || r.leaseExpiresAt.value <= at)
  }

  /** What the recovery leaves of a run whose lease is over. */
  predicate Reclaimed(before: Row, after: Row, max: nat, at: Stamp) {
    after == (if before.attempts < max
              then Row(Queued, before.attempts, None, Some("Worker lease expired; run recovered for retry."), at)
              else Row(Settled("failed"), before.attempts, None, Some("Worker lease expired after maximum attempts."),
                       at))
  }

  predicate NoRepeats(ids: seq<Id>) {
    forall i, j | 0 <= i < j < |ids| :: ids[i] != ids[j]
  }

  predicate OldestFirst(rows: Rows, ids: seq<Id>) {
    forall i, j | 0 <= i < j < |ids| && ids[i] in rows && ids[j] in rows ::
      rows[ids[i]].updatedAt <= rows[ids[j]].updatedAt
  }

  /** The fate of one row under a recovery. */
  predicate RowRecovered(before: Row, after: Row, includeQueued: bool, max: nat, at: Stamp, queued: bool,
                         exhausted: bool) {
    match before.status
    case Settled(_) => after == before && !queued && !exhausted
    case Queued => after == before && !exhausted && (queued ==> includeQueued)
    case Running =>
      if UnderLease(before, at) || !(queued || exhausted) then after == before && !queued && !exhausted
      else
        && Reclaimed(before, after, max, at)
        && exhausted == (before.attempts >= max) && queued == (before.attempts < max)
  }

  /** The tables and the reports of a recovery: every row as its status and its lease demand, nobody reported twice,
      the longest idle first, and a row that was due is passed over only when the limit is reached by rows updated
      no later. */
  predicate RecoveredRight(rows: Rows, after: Rows, includeQueued: bool, at: Stamp, limit: nat, max: nat,
                           queued: seq<Id>, exhausted: seq<Id>) {
    && after.Keys == rows.Keys && NoRepeats(queued) && NoRepeats(exhausted) && |queued| + |exhausted| <= limit
    && (forall id | id in queued + exhausted :: id in rows) && OldestFirst(rows, queued) && OldestFirst(rows, exhausted)
    && (forall id | id in rows ::
          RowRecovered(rows[id], after[id], includeQueued, max, at, id in queued, id in exhausted))
    && (forall id | id in rows && id !in queued && id !in exhausted
          && ((includeQueued && rows[id].status == Queued) || LeaseOver(rows[id], at)) ::
          && |queued| + |exhausted| == limit
          && forall k | k in queued + exhausted :: k in rows && rows[k].updatedAt <= rows[id].updatedAt)
  }

  /** The ids are due: their leases are over, or they wait in the queue and are asked for. */
  predicate DueOnly(rows: Rows, ids: seq<Id>, includeQueued: bool, at: Stamp) {
    forall id | id in ids :: id in rows && ((includeQueued && rows[id].status == Queued) || LeaseOver(rows[id], at))
  }

  /** A sweep of due ids leaves every run alone that is settled, queued, or executed under a lease. */
  lemma {:induction false} SweepSpares(s: RunDriver.Driver, ids: seq<Id>, includeQueued: bool, at: Stamp, max: nat,
                                       id: Id)
    requires DueOnly(s.rows, ids, includeQueued, at) && id in s.rows
    requires UnderLease(s.rows[id], at) || s.rows[id].status == Queued || s.rows[id].status.Settled?
    ensures var t := RunDriver.Next(s, RunDriver.Sweep(ids, at), max);
            id in t.rows && t.rows[id] == s.rows[id] && t.rows.Keys == s.rows.Keys
  {
    if ids != [] {
      var few := ids[..|ids| - 1];
      assert forall k | k in few :: k in ids;
      SweepSpares(s, few, includeQueued, at, max, id);
      assert ids[|ids| - 1] in ids;
    }
  }
}
