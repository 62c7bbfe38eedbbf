/** The runs and run_events tables as a class, method by method; reads that precede a write block are methods of their
    own. */
module RunStore {
  import opened Prelude
  import opened RunRows
  import opened RunEvents
  import RunLeases

  /** The rows a recovery looks at. */
  predicate Selectable(rows: Rows, id: Id, includeQueued: bool, at: Stamp) {
    && id in rows
    && (|| (includeQueued && rows[id].status == Queued)
        || (rows[id].status == Running && (rows[id].leaseExpiresAt.None? || rows[id].leaseExpiresAt.value <= at)))
  }

  /** An answer of SELECT .. ORDER BY updated_at LIMIT; ties may fall either way. */
  predicate IsSelection(rows: Rows, includeQueued: bool, at: Stamp, limit: nat, ids: seq<Id>) {
    && |ids| <= limit
    && (forall i | 0 <= i < |ids| :: Selectable(rows, ids[i], includeQueued, at))
    && (forall i, j | 0 <= i < j < |ids| :: ids[i] != ids[j] && rows[ids[i]].updatedAt <= rows[ids[j]].updatedAt)
    && forall id | id in rows && Selectable(rows, id, includeQueued, at) && id !in ids ::
         |ids| == limit && forall i | 0 <= i < |ids| :: rows[ids[i]].updatedAt <= rows[id].updatedAt
  }

  /** The write block of a recovery: what it was shown decides, row by row. */
  function RecoverSeen(rows: Rows, seen: Rows, ids: seq<Id>, max: nat, at: Stamp): Rows {
    if ids == [] then rows
    else
      var id := ids[|ids| - 1];
      var rest := RecoverSeen(rows, seen, ids[..|ids| - 1], max, at);
      if id in seen then Recover(rest, id, seen[id], max, at) else rest
  }

  predicate UsedUp(r: Row, max: nat) {
    r.status == Running && r.attempts >= max
  }

  /** The ids a recovery reports, with the rows as they were read. */
  function Reported(seen: Rows, ids: seq<Id>, max: nat, exhausted: bool): seq<Id> {
    if ids == [] then []
    else
      var id := ids[|ids| - 1];
      var rest := Reported(seen, ids[..|ids| - 1], max, exhausted);
      if id in seen && UsedUp(seen[id], max) == exhausted then rest + [id] else rest
  }

  /** The two reports split the selection. */
  lemma {:induction false} ReportsPartition(seen: Rows, ids: seq<Id>, max: nat)
    requires forall i | 0 <= i < |ids| :: ids[i] in seen
    ensures |Reported(seen, ids, max, true)| + |Reported(seen, ids, max, false)| == |ids|
    ensures multiset(Reported(seen, ids, max, true)) + multiset(Reported(seen, ids, max, false)) == multiset(ids)
    ensures forall id | id in Reported(seen, ids, max, true) :: id in ids && UsedUp(seen[id], max)
    ensures forall id | id in Reported(seen, ids, max, false) :: id in ids && !UsedUp(seen[id], max)
  {
    if ids != [] {
      ReportsPartition(seen, ids[..|ids| - 1], max);
      assert ids == ids[..|ids| - 1] + [ids[|ids| - 1]];
    }
  }

  function RecoveryLabels(seen: Rows, ids: seq<Id>, at: Stamp): seq<RunRows.Label>
    requires forall id | id in ids :: id in seen
  {
    if ids == [] then []
    else RecoveryLabels(seen, ids[..|ids| - 1], at) + [RecoverRun(ids[|ids| - 1], seen[ids[|ids| - 1]], at)]
  }

  /** A recovery is a run of the single-row recoveries that the interleaving results are about. */
  lemma {:induction false} RecoveryIsRun(rows: Rows, seen: Rows, ids: seq<Id>, max: nat, at: Stamp)
    requires forall id | id in ids :: id in seen
    ensures RecoverSeen(rows, seen, ids, max, at) == RunRows.Run(rows, RecoveryLabels(seen, ids, at), max)
  {
    if ids != [] {
      RecoveryIsRun(rows, seen, ids[..|ids| - 1], max, at);
    }
  }

  /** Distinct rows are recovered one by one, each as it was read. */
  lemma {:induction false} SeenRow(rows: Rows, ids: seq<Id>, max: nat, at: Stamp, id: Id)
    requires RunLeases.NoRepeats(ids) && id in rows
    ensures var after := RecoverSeen(rows, rows, ids, max, at);
            && after.Keys == rows.Keys
            && after[id] == if id in ids then Recover(rows, id, rows[id], max, at)[id] else rows[id]
  {
    if ids != [] {
      var few, last := ids[..|ids| - 1], ids[|ids| - 1];
      SeenRow(rows, few, max, at, id);
      assert last !in few;
      assert ids == few + [last];
    }
  }

  lemma {:induction false} ReportedOnce(seen: Rows, ids: seq<Id>, max: nat, exhausted: bool)
    requires RunLeases.NoRepeats(ids)
    ensures RunLeases.NoRepeats(Reported(seen, ids, max, exhausted))
    ensures forall id :: id in Reported(seen, ids, max, exhausted) <==>
                         id in ids && id in seen && UsedUp(seen[id], max) == exhausted
  {
    if ids != [] {
      var few := ids[..|ids| - 1];
      ReportedOnce(seen, few, max, exhausted);
      assert ids == few + [ids[|ids| - 1]] && ids[|ids| - 1] !in few;
    }
  }

  lemma {:induction false} ReportedInOrder(seen: Rows, ids: seq<Id>, max: nat, exhausted: bool)
    requires forall i, j | 0 <= i < j < |ids| ::
               ids[i] in seen && ids[j] in seen && seen[ids[i]].updatedAt <= seen[ids[j]].updatedAt
    ensures RunLeases.OldestFirst(seen, Reported(seen, ids, max, exhausted))
    ensures forall id | id in Reported(seen, ids, max, exhausted) :: id in ids
  {
    if ids != [] {
      var few, last := ids[..|ids| - 1], ids[|ids| - 1];
      assert forall i | 0 <= i < |few| :: few[i] == ids[i];
      ReportedInOrder(seen, few, max, exhausted);
      assert ids == few + [last];
      forall id | id in few ensures id in seen ==> last in seen && seen[id].updatedAt <= seen[last].updatedAt {
        var i :| 0 <= i < |few| && few[i] == id;
        assert ids[i] == id;
      }
    }
  }

  /** What a recovery answers and writes is right by the table alone. */
  lemma RecoveryIsRight(rows: Rows, includeQueued: bool, at: Stamp, limit: nat, max: nat, ids: seq<Id>)
    requires IsSelection(rows, includeQueued, at, limit, ids)
    ensures RunLeases.RecoveredRight(rows, RecoverSeen(rows, rows, ids, max, at), includeQueued, at, limit, max,
                                     Reported(rows, ids, max, false), Reported(rows, ids, max, true))
    ensures RunLeases.DueOnly(rows, ids, includeQueued, at)
  {
    hide RecoverSeen, Reported;
    var after := RecoverSeen(rows, rows, ids, max, at);
    var queued, exhausted := Reported(rows, ids, max, false), Reported(rows, ids, max, true);
    forall i | 0 <= i < |ids| ensures ids[i] in rows { assert Selectable(rows, ids[i], includeQueued, at); }
    ReportedOnce(rows, ids, max, false);
    ReportedOnce(rows, ids, max, true);
    ReportedInOrder(rows, ids, max, false);
    ReportedInOrder(rows, ids, max, true);
    ReportsPartition(rows, ids, max);
    SameKeys(rows, ids, max, at);
    forall id | id in rows
      ensures RunLeases.RowRecovered(rows[id], after[id], includeQueued, max, at, id in queued, id in exhausted) {
      SeenRow(rows, ids, max, at, id);
      if id in ids {
        var i :| 0 <= i < |ids| && ids[i] == id;
        assert Selectable(rows, ids[i], includeQueued, at);
      }
    }
    forall id | id in rows && id !in ids && Selectable(rows, id, includeQueued, at)
      ensures |ids| == limit
      ensures forall k | k in queued + exhausted :: k in rows && rows[k].updatedAt <= rows[id].updatedAt
    {
      forall k | k in queued + exhausted ensures k in rows && rows[k].updatedAt <= rows[id].updatedAt {
        var i :| 0 <= i < |ids| && ids[i] == k;
      }
    }
  }

  lemma {:induction false} SameKeys(rows: Rows, ids: seq<Id>, max: nat, at: Stamp)
    ensures RecoverSeen(rows, rows, ids, max, at).Keys == rows.Keys
  {
    if ids != [] {
      SameKeys(rows, ids[..|ids| - 1], max, at);
    }
  }

  lemma {:induction false} LongestIdle(rows: Rows, ids: set<Id>) returns (first: Id)
    requires ids != {} && ids <= rows.Keys
    ensures first in ids && forall id | id in ids :: rows[first].updatedAt <= rows[id].updatedAt
    decreases |ids|
  {
    var x :| x in ids;
    if ids == {x} {
      first := x;
    } else {
      var rest := LongestIdle(rows, ids - {x});
      first := if rows[x].updatedAt < rows[rest].updatedAt then x else rest;
      assert forall id | id in ids :: id == x || id in ids - {x};
    }
  }

  class SQLiteRunStore {
    var rows: Rows
    var events: seq<EventRow>

    constructor ()
      ensures rows == map[] && events == []
    {
      rows, events := map[], [];
    }

    /** False is the IntegrityError of a duplicate id. */
    method CreateRun(id: Id, at: Stamp) returns (created: bool)
      modifies this`rows
      ensures created == (id !in old(rows)) && rows == Create(old(rows), id, at)
    {
      created := id !in rows;
      if created {
        rows := rows[id := Row(Queued, 0, None, None, at)];
      }
    }

    method ReadHighest(run: Id) returns (highest: int)
      ensures highest == Highest(events, run)
    {
      highest := 0;
      var i := 0;
      while i < |events|
        invariant 0 <= i <= |events| && highest == Highest(events[..i], run)
      {
        assert events[..i + 1][..i] == events[..i];
        if events[i].run == run {
          highest := Max(events[i].sequence, highest);
        }
        i := i + 1;
      }
      assert events[..|events|] == events;
    }

    /** The inserts of an append behind a sequence that was read earlier; a UNIQUE violation rolls all of them back. */
    method WriteEvents(run: Id, read: int, entries: seq<Entry>) returns (committed: bool)
      modifies this`events
      ensures committed == InsertAll(old(events), run, read, entries).Some?
      ensures events == if committed then InsertAll(old(events), run, read, entries).value else old(events)
    {
      hide Taken;
      var grown := events;
      var i := 0;
      while i < |entries|
        invariant 0 <= i <= |entries|
        invariant InsertAll(events, run, read, entries[..i]) == Some(grown)
      {
        assert entries[..i + 1][..i] == entries[..i];
        if Taken(grown, run, read + i + 1) {
          BrokenInsert(events, run, read, entries, i + 1);
          return false;
        }
        grown := grown + [EventRow(run, read + i + 1, entries[i])];
        i := i + 1;
      }
      assert entries[..|entries|] == entries;
      events := grown;
      committed := true;
    }

    /** An append that nothing interleaves with. */
    method AppendEvents(run: Id, entries: seq<Entry>) returns (committed: bool)
      requires Dense(events)
      modifies this`events
      ensures committed && Dense(events)
      ensures events == old(events) + Fresh(run, |Of(old(events), run)|, entries)
    {
      hide Of, InsertAll, Taken, Counts, Fresh;
      if entries == [] {
        NothingToInsert(events, run, |Of(events, run)|);
        assert events + [] == events;
        return true;
      }
      assert Counts(Of(events, run), run);
      HighestIsCount(events, run);
      AppendExactly(events, run, |Of(events, run)|, entries);
      var current := ReadHighest(run);
      committed := WriteEvents(run, current, entries);
    }

    /** The events behind a cursor. */
    method GetEvents(run: Id, afterSequence: int) returns (found: seq<EventRow>)
      ensures found == After(events, run, afterSequence)
    {
      found := [];
      var i := 0;
      while i < |events|
        invariant 0 <= i <= |events| && found == After(events[..i], run, afterSequence)
      {
        assert events[..i + 1][..i] == events[..i];
        if events[i].run == run && events[i].sequence > afterSequence {
          found := found + [events[i]];
        }
        i := i + 1;
      }
      assert events[..|events|] == events;
    }

    method ClaimRun(id: Id, expires: Stamp, at: Stamp) returns (claimed: bool)
      modifies this`rows
      ensures claimed == (id in old(rows) && old(rows)[id].status == Queued)
                && rows == Claim(old(rows), id, expires, at)
    {
      claimed := id in rows && rows[id].status == Queued;
      if claimed {
        rows := rows[id := rows[id].(status := Running, attempts := rows[id].attempts + 1,
                                     leaseExpiresAt := Some(expires), updatedAt := at)];
      }
    }

    method RenewLease(id: Id, expires: Stamp, at: Stamp) returns (renewed: bool)
      modifies this`rows
      ensures renewed == (id in old(rows) && old(rows)[id].status == Running)
                && rows == Renew(old(rows), id, expires, at)
    {
      renewed := id in rows && rows[id].status == Running;
      if renewed {
        rows := rows[id := rows[id].(leaseExpiresAt := Some(expires), updatedAt := at)];
      }
    }

    method ReadAttempts(id: Id) returns (attempts: Option<nat>)
      ensures attempts == if id in rows then Some(rows[id].attempts) else None
    {
      attempts := if id in rows then Some(rows[id].attempts) else None;
    }

    /** The UPDATE of a release, with the attempts read before it. */
    method WriteRelease(id: Id, read: nat, error: string, max: nat, at: Stamp) returns (retry: bool)
      modifies this`rows
      ensures retry == (read < max) && rows == Release(old(rows), id, read, error, max, at)
    {
      retry := read < max;
      if id in rows {
        rows := rows[id := rows[id].(status := if retry then Queued
                                     else FAILED, leaseExpiresAt := None, lastError := Some(Clipped(error)),
                                         updatedAt := at)];
      }
    }

    /** A release that nothing interleaves with. */
    method ReleaseForRetry(id: Id, error: string, max: nat, at: Stamp) returns (retry: bool)
      modifies this`rows
      ensures retry == (id in old(rows) && old(rows)[id].attempts < max)
      ensures rows == if id in old(rows) then Release(old(rows), id, old(rows)[id].attempts, error, max, at)
                else old(rows)
    {
      var attempts := ReadAttempts(id);
      if attempts.None? {
        return false;
      }
      retry := WriteRelease(id, attempts.value, error, max, at);
    }

    method SelectStale(includeQueued: bool, at: Stamp, limit: nat) returns (ids: seq<Id>)
      ensures IsSelection(rows, includeQueued, at, limit, ids)
    {
      ids := [];
      var left := set id | id in rows && Selectable(rows, id, includeQueued, at);
      while |ids| < limit && left != {}
        invariant |ids| <= limit
        invariant forall id :: id in left <==> id in rows && Selectable(rows, id, includeQueued, at) && id !in ids
        invariant forall i | 0 <= i < |ids| :: Selectable(rows, ids[i], includeQueued, at)
        invariant forall i, j | 0 <= i < j < |ids| ::
                    ids[i] != ids[j] && rows[ids[i]].updatedAt <= rows[ids[j]].updatedAt
        invariant forall i, id | 0 <= i < |ids| && id in left :: rows[ids[i]].updatedAt <= rows[id].updatedAt
        decreases limit - |ids|
      {
        ghost var first := LongestIdle(rows, left);
        var id :| id in left && forall k | k in left :: rows[id].updatedAt <= rows[k].updatedAt;
        ids := ids + [id];
        left := left - {id};
      }
    }

    /** The loop of a recovery over rows as `seen` by its SELECT. */
    method WriteRecovery(seen: Rows, ids: seq<Id>, max: nat, at: Stamp) returns (queued: seq<Id>, exhausted: seq<Id>)
      requires forall i | 0 <= i < |ids| :: ids[i] in seen
      modifies this`rows
      ensures rows == RecoverSeen(old(rows), seen, ids, max, at)
      ensures queued == Reported(seen, ids, max, false) && exhausted == Reported(seen, ids, max, true)
    {
      queued, exhausted := [], [];
      var i := 0;
      while i < |ids|
        invariant 0 <= i <= |ids| && rows == RecoverSeen(old(rows), seen, ids[..i], max, at)
        invariant queued == Reported(seen, ids[..i], max, false) && exhausted == Reported(seen, ids[..i], max, true)
      {
        assert ids[..i + 1][..i] == ids[..i];
        var id, run := ids[i], seen[ids[i]];
        if run.status == Running && run.attempts >= max {
          if id in rows {
            rows := rows[id := rows[id].(status := FAILED, leaseExpiresAt := None, lastError := Some(EXHAUSTED),
                                         updatedAt := at)];
          }
          exhausted := exhausted + [id];
        } else {
          if run.status == Running && id in rows {
            rows := rows[id := rows[id].(status := Queued, leaseExpiresAt := None, lastError := Some(RECOVERED),
                                         updatedAt := at)];
          }
          queued := queued + [id];
        }
        i := i + 1;
      }
      assert ids[..|ids|] == ids;
    }

    /** A recovery that nothing interleaves with; `seen` are the rows as its SELECT returned them. */
    method RecoverRuns(max: nat, limit: nat, includeQueued: bool, at: Stamp)
      returns (seen: Rows, queued: seq<Id>, exhausted: seq<Id>, ghost ids: seq<Id>)
      modifies this`rows
      ensures seen == old(rows) && IsSelection(old(rows), includeQueued, at, limit, ids)
      ensures rows == RecoverSeen(old(rows), old(rows), ids, max, at)
      ensures queued == Reported(old(rows), ids, max, false) && exhausted == Reported(old(rows), ids, max, true)
      ensures RunLeases.RecoveredRight(old(rows), rows, includeQueued, at, limit, max, queued, exhausted)
    {
      hide RunLeases.RecoveredRight;
      var found := SelectStale(includeQueued, at, limit);
      seen, ids := rows, found;
      assert forall i | 0 <= i < |ids| :: Selectable(rows, ids[i], includeQueued, at);
      RecoveryIsRight(rows, includeQueued, at, limit, max, ids);
      queued, exhausted := WriteRecovery(seen, found, max, at);
    }

    method CompleteRun(id: Id, outcome: string, at: Stamp)
      modifies this`rows
      ensures rows == Complete(old(rows), id, outcome, at)
    {
      if id in rows {
        rows := rows[id := rows[id].(status := Settled(outcome), leaseExpiresAt := None, updatedAt := at)];
      }
    }
  }

  lemma {:induction false} BrokenInsert(rows: seq<EventRow>, run: Id, read: int, entries: seq<Entry>, n: nat)
    requires n <= |entries| && InsertAll(rows, run, read, entries[..n]).None?
    ensures InsertAll(rows, run, read, entries).None?
  {
    if n < |entries| {
      var few := entries[..|entries| - 1];
      assert few[..n] == entries[..n];
      BrokenInsert(rows, run, read, few, n);
    } else {
      assert entries[..n] == entries;
    }
  }
}
