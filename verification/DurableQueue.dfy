/**
 A durable queue table of the local runtime, shared by queued events and finished job results: rows are inserted once
 per key, stay until they are acknowledged, and are read oldest first.
 */
module DurableQueue {
  import opened Prelude

  datatype QueueRow<+T> = QueueRow(item: T, createdAt: Stamp, acknowledgedAt: Option<Stamp>)

  /** INSERT .. ON CONFLICT DO NOTHING. */
  function Put<T>(rows: map<Id, QueueRow<T>>, key: Id, item: T, at: Stamp): map<Id, QueueRow<T>> {
    if key in rows then rows else rows[key := QueueRow(item, at, None)]
  }

  /** One UPDATE per listed key; keys without a row change nothing. */
  function Mark<T>(rows: map<Id, QueueRow<T>>, keys: seq<Id>, at: Stamp): map<Id, QueueRow<T>> {
    map id | id in rows :: if id in keys then rows[id].(acknowledgedAt := Some(at)) else rows[id]
  }

  /** The items of the listed rows. */
  function ReadRows<T>(rows: map<Id, QueueRow<T>>, ids: seq<Id>): seq<T>
    requires forall i | 0 <= i < |ids| :: ids[i] in rows
  {
    seq(|ids|, i requires 0 <= i < |ids| => rows[ids[i]].item)
  }

  /** The ORDER BY created_at, event_id of the pending queue. */
  predicate Before<T>(rows: map<Id, QueueRow<T>>, a: Id, b: Id)
    requires a in rows && b in rows
  {
    rows[a].createdAt < rows[b].createdAt || (rows[a].createdAt == rows[b].createdAt && a < b)
  }

  predicate Unacknowledged<T>(rows: map<Id, QueueRow<T>>, id: Id) {
    id in rows && rows[id].acknowledgedAt.None?
  }

  /** The answer of the pending query: the first `limit` unacknowledged ids in queue order. */
  predicate IsPending<T>(rows: map<Id, QueueRow<T>>, limit: nat, ids: seq<Id>) {
    && |ids| <= limit
    && (forall i | 0 <= i < |ids| :: Unacknowledged(rows, ids[i]))
    && (forall i, j | 0 <= i < j < |ids| :: Before(rows, ids[i], ids[j]))
    && forall id | id in rows && Unacknowledged(rows, id) && id !in ids ::
         |ids| == limit && forall i | 0 <= i < |ids| :: Before(rows, ids[i], id)
  }

  /** The query has one answer. */
  lemma {:induction false} PendingIsUnique<T>(rows: map<Id, QueueRow<T>>, limit: nat, a: seq<Id>, b: seq<Id>)
    requires IsPending(rows, limit, a) && IsPending(rows, limit, b)
    ensures a == b
  {
    PendingPrefix(rows, limit, a, b, |a|);
    PendingPrefix(rows, limit, b, a, |b|);
  }

  /** Two answers that agree on n entries: the next entry of one is not after the next entry of the other. */
  lemma NextNotAfter<T>(rows: map<Id, QueueRow<T>>, limit: nat, a: seq<Id>, b: seq<Id>, n: nat)
    requires IsPending(rows, limit, a) && IsPending(rows, limit, b)
    requires n < |a| && n <= |b| && a[..n] == b[..n]
    ensures n < |b| && (a[n] == b[n] || Before(rows, b[n], a[n]))
  {}

  lemma {:induction false} PendingPrefix<T>(rows: map<Id, QueueRow<T>>, limit: nat, a: seq<Id>, b: seq<Id>, n: nat)
    requires IsPending(rows, limit, a) && IsPending(rows, limit, b) && n <= |a|
    ensures n <= |b| && a[..n] == b[..n]
  {
    if n > 0 {
      PendingPrefix(rows, limit, a, b, n - 1);
      NextNotAfter(rows, limit, a, b, n - 1);
      NextNotAfter(rows, limit, b, a, n - 1);
      assert a[..n] == a[..n - 1] + [a[n - 1]] && b[..n] == b[..n - 1] + [b[n - 1]];
    }
  }

  /** Some queue element comes first. */
  lemma {:induction false} FirstExists<T>(rows: map<Id, QueueRow<T>>, ids: set<Id>) returns (first: Id)
    requires ids != {} && ids <= rows.Keys
    ensures first in ids && forall id | id in ids :: id == first || Before(rows, first, id)
    decreases |ids|
  {
    var x :| x in ids;
    if ids == {x} {
      first := x;
    } else {
      var rest := FirstExists(rows, ids - {x});
      first := if Before(rows, x, rest) then x else rest;
      assert forall id | id in ids :: id == x || id in ids - {x};
    }
  }
}
