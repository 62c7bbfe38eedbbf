/** The run_events table: appends that read the highest sequence before they write, and reads by cursor. */
module RunEvents {
  import opened Prelude

  /** What the worker writes into a payload: an attempt number, or text this model does not look into. */
  datatype Payload = Numbered(attempt: nat) | Text(text: string)
  datatype Entry = Entry(kind: string, payload: Payload)
  datatype EventRow = EventRow(run: Id, sequence: int, entry: Entry)

  /** COALESCE(MAX(sequence), 0) over one run. */
  function Highest(rows: seq<EventRow>, run: Id): int {
    if rows == [] then 0
    else
      var last := rows[|rows| - 1];
      var rest := Highest(rows[..|rows| - 1], run);
      if last.run == run then Max(last.sequence, rest) else rest
  }

  /** UNIQUE(run_id, sequence) would be violated. */
  predicate Taken(rows: seq<EventRow>, run: Id, sequence: int) {
    exists r | r in rows :: r.run == run && r.sequence == sequence
  }

  /** The write block of an append, with the highest sequence that was read for it; `None` is the rolled-back
      IntegrityError. */
  function InsertAll(rows: seq<EventRow>, run: Id, read: int, entries: seq<Entry>): Option<seq<EventRow>> {
    if entries == [] then Some(rows)
    else
      var last := |entries| - 1;
      match InsertAll(rows, run, read, entries[..last])
      case None => None
      case Some(grown) =>
        if Taken(grown, run, read + last + 1) then None
            else Some(grown + [EventRow(run, read + last + 1, entries[last])])
  }

  /** The rows of one run in insertion order. */
  function Of(rows: seq<EventRow>, run: Id): seq<EventRow> {
    if rows == [] then []
    else
      var last := rows[|rows| - 1];
      var rest := Of(rows[..|rows| - 1], run);
      if last.run == run then rest + [last] else rest
  }

  /** SELECT .. WHERE run_id = ? AND sequence > ?; in a dense log the insertion order is the sequence order. */
  function After(rows: seq<EventRow>, run: Id, cursor: int): seq<EventRow> {
    if rows == [] then []
    else
      var last := rows[|rows| - 1];
      var rest := After(rows[..|rows| - 1], run, cursor);
      if last.run == run && last.sequence > cursor then rest + [last] else rest
  }

  /** A run's sequences are exactly 1..n, in insertion order. */
  predicate Counts(log: seq<EventRow>, run: Id) {
    forall i | 0 <= i < |log| :: log[i].run == run && log[i].sequence == i + 1
  }

  ghost predicate Dense(rows: seq<EventRow>) {
    forall run: Id :: Counts(Of(rows, run), run)
  }

  lemma OfSnoc(rows: seq<EventRow>, row: EventRow, run: Id)
    ensures Of(rows + [row], run) == if row.run == run then Of(rows, run) + [row] else Of(rows, run)
  {}

  lemma {:induction false} OfMembers(rows: seq<EventRow>, run: Id)
    ensures forall r | r in rows && r.run == run :: r in Of(rows, run)
    ensures forall r | r in Of(rows, run) :: r in rows && r.run == run
  {
    if rows != [] {
      OfMembers(rows[..|rows| - 1], run);
    }
  }

  lemma {:induction false} HighestIsCount(rows: seq<EventRow>, run: Id)
    requires Counts(Of(rows, run), run)
    ensures Highest(rows, run) == |Of(rows, run)|
  {
    if rows != [] {
      var few := rows[..|rows| - 1];
      var log := Of(rows, run);
      assert Counts(Of(few, run), run) by {
        forall i | 0 <= i < |Of(few, run)| ensures Of(few, run)[i] == log[i] {}
      }
      HighestIsCount(few, run);
      if rows[|rows| - 1].run == run {
        assert log[|log| - 1] == rows[|rows| - 1];
      }
    }
  }

  lemma TakenIsCounted(rows: seq<EventRow>, run: Id, sequence: int)
    requires Counts(Of(rows, run), run)
    ensures Taken(rows, run, sequence) <==> 1 <= sequence <= |Of(rows, run)|
  {
    OfMembers(rows, run);
    var log := Of(rows, run);
    if Taken(rows, run, sequence) {
      var r :| r in rows && r.run == run && r.sequence == sequence;
      assert r in log;
    }
    if 1 <= sequence <= |log| {
      assert log[sequence - 1] in rows;
    }
  }

  /** The rows an append adds. */
  function Fresh(run: Id, from: int, entries: seq<Entry>): seq<EventRow> {
    if entries == [] then []
    else Fresh(run, from, entries[..|entries| - 1]) + [EventRow(run, from + |entries|, entries[|entries| - 1])]
  }

  lemma NothingToInsert(rows: seq<EventRow>, run: Id, read: int)
    ensures InsertAll(rows, run, read, []) == Some(rows) && Fresh(run, read, []) == []
  {}

  lemma {:induction false} FreshShape(run: Id, from: int, entries: seq<Entry>)
    ensures |Fresh(run, from, entries)| == |entries|
    ensures forall i | 0 <= i < |entries| :: Fresh(run, from, entries)[i] == EventRow(run, from + i + 1, entries[i])
  {
    if entries != [] {
      FreshShape(run, from, entries[..|entries| - 1]);
    }
  }

  lemma {:induction false} OfFresh(rows: seq<EventRow>, run: Id, from: int, entries: seq<Entry>, other: Id)
    ensures Of(rows + Fresh(run, from, entries), other) ==
            if other == run then Of(rows, run) + Fresh(run, from, entries) else Of(rows, other)
  {
    hide Of;
    if entries == [] {
      assert rows + [] == rows && Of(rows, run) + [] == Of(rows, run);
    } else {
      var few := Fresh(run, from, entries[..|entries| - 1]);
      var row := EventRow(run, from + |entries|, entries[|entries| - 1]);
      OfFresh(rows, run, from, entries[..|entries| - 1], other);
      OfSnoc(rows + few, row, other);
      assert rows + (few + [row]) == rows + few + [row];
      assert Of(rows, run) + (few + [row]) == Of(rows, run) + few + [row];
    }
  }

  lemma CountsGrow(log: seq<EventRow>, run: Id, entries: seq<Entry>)
    requires Counts(log, run)
    ensures Counts(log + Fresh(run, |log|, entries), run)
  {
    FreshShape(run, |log|, entries);
  }

  lemma DenseGrows(rows: seq<EventRow>, run: Id, entries: seq<Entry>)
    requires Dense(rows)
    ensures Dense(rows + Fresh(run, |Of(rows, run)|, entries))
  {
    hide Of, Fresh, Counts;
    var grown := rows + Fresh(run, |Of(rows, run)|, entries);
    forall other: Id ensures Counts(Of(grown, other), other) {
      OfFresh(rows, run, |Of(rows, run)|, entries, other);
      assert Counts(Of(rows, other), other);
      CountsGrow(Of(rows, run), run, entries);
    }
  }

  lemma InsertSnoc(rows: seq<EventRow>, run: Id, read: int, few: seq<Entry>, entry: Entry, grown: seq<EventRow>)
    requires InsertAll(rows, run, read, few) == Some(grown) && !Taken(grown, run, read + |few| + 1)
    ensures InsertAll(rows, run, read, few + [entry]) == Some(grown + [EventRow(run, read + |few| + 1, entry)])
  {}

  lemma FreshSnoc(run: Id, from: int, few: seq<Entry>, entry: Entry)
    ensures Fresh(run, from, few + [entry]) == Fresh(run, from, few) + [EventRow(run, from + |few| + 1, entry)]
  {}

  lemma {:induction false} InsertAtEnd(rows: seq<EventRow>, run: Id, read: int, entries: seq<Entry>)
    requires Counts(Of(rows, run), run) && read == |Of(rows, run)|
    ensures InsertAll(rows, run, read, entries) == Some(rows + Fresh(run, read, entries))
  {
    hide Of, Taken, Counts;
    if entries == [] {
      assert rows + [] == rows;
    } else {
      var few, entry := entries[..|entries| - 1], entries[|entries| - 1];
      assert few + [entry] == entries;
      InsertAtEnd(rows, run, read, few);
      var grown := rows + Fresh(run, read, few);
      OfFresh(rows, run, read, few, run);
      CountsGrow(Of(rows, run), run, few);
      FreshShape(run, read, few);
      TakenIsCounted(grown, run, read + |entries|);
      InsertSnoc(rows, run, read, few, entry, grown);
      FreshSnoc(run, read, few, entry);
      assert rows + Fresh(run, read, entries) == grown + [EventRow(run, read + |few| + 1, entry)];
    }
  }

  lemma {:induction false} FirstClashAborts(rows: seq<EventRow>, run: Id, read: int, entries: seq<Entry>)
    requires entries != [] && Taken(rows, run, read + 1)
    ensures InsertAll(rows, run, read, entries).None?
  {
    if |entries| == 1 {
      assert entries[..0] == [];
      assert InsertAll(rows, run, read, entries[..0]) == Some(rows);
    } else {
      FirstClashAborts(rows, run, read, entries[..|entries| - 1]);
    }
  }

  /** Appends under concurrency: an append commits exactly when no other append of the run committed since it read, and
      then continues the run's sequence without gap; otherwise it raises and writes nothing. */
  lemma AppendExactly(rows: seq<EventRow>, run: Id, read: int, entries: seq<Entry>)
    requires Dense(rows) && 0 <= read <= |Of(rows, run)| && entries != []
    ensures InsertAll(rows, run, read, entries).Some? <==> read == |Of(rows, run)| == Highest(rows, run)
    ensures read == |Of(rows, run)| ==>
              var added := Fresh(run, read, entries);
              && InsertAll(rows, run, read, entries) == Some(rows + added) && Dense(rows + added)
              && Of(rows + added, run) == Of(rows, run) + added
                   && (forall other | other != run :: Of(rows + added, other) == Of(rows, other))
  {
    hide Of, Fresh, InsertAll, Taken, Counts;
    assert Counts(Of(rows, run), run);
    HighestIsCount(rows, run);
    if read == |Of(rows, run)| {
      InsertAtEnd(rows, run, read, entries);
      DenseGrows(rows, run, entries);
      forall other: Id { OfFresh(rows, run, read, entries, other); }
    } else {
      TakenIsCounted(rows, run, read + 1);
      FirstClashAborts(rows, run, read, entries);
    }
  }

  /** Reading behind a cursor returns the run's log from that position on, in order. */
  lemma {:induction false} AfterIsTail(rows: seq<EventRow>, run: Id, cursor: int)
    requires Counts(Of(rows, run), run)
    ensures var log := Of(rows, run);
            After(rows, run, cursor) == if cursor >= |log| then [] else log[Max(cursor, 0)..]
  {
    if rows != [] {
      var few := rows[..|rows| - 1];
      var log := Of(rows, run);
      assert Counts(Of(few, run), run) by {
        forall i | 0 <= i < |Of(few, run)| ensures Of(few, run)[i] == log[i] {}
      }
      AfterIsTail(few, run, cursor);
      if rows[|rows| - 1].run == run {
        assert log[|log| - 1].sequence == |log|;
      }
    }
  }
}
