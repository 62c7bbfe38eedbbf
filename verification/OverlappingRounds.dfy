/**
 Several synchronisation calls at once on one outbox, as two processes of one runtime make them: each call asks with
 the cursor it read, and answers are applied in any order or never. Module OverlappingCalls has the pushes; here the
 log grows by any rows, and the calls pull.
 */
module OverlappingRounds {
  import opened Prelude
  import opened CloudEvents
  import opened OutboxRows
  import opened DeviceSync

  /** `seen` is history: the length of the log when the answer was pulled. */
  datatype Round = Asked(cursor: nat) | Answered(cursor: nat, seen: nat, events: seq<Event>, serverCursor: nat)

  /** `adopted` is history: what the answer adopted last had seen. */
  datatype Device = Device(log: seq<Event>, outbox: Outbox, rounds: map<Id, Round>, adopted: nat)

  datatype Label = Grow(row: Event) | Ask(round: Id) | Pull(round: Id) | Adopt(round: Id)

  function Next(s: Device, project: Id, l: Label): Device {
    match l
    case Grow(row) => s.(log := s.log + [row.(sequence := |s.log| + 1)])
    case Ask(round) => s.(rounds := s.rounds[round := Asked(s.outbox.cursor)])
    case Pull(round) =>
      if round !in s.rounds || s.rounds[round].Answered? then s
      else
        var cursor := s.rounds[round].cursor;
        var answer := Answered(cursor, |s.log|, FirstPage(RowsAfter(s.log, project, cursor)),
                               MaxSequence(s.log, project));
        s.(rounds := s.rounds[round := answer])
    case Adopt(round) =>
      if round !in s.rounds || s.rounds[round].Asked? then s
      else
        var answer := s.rounds[round];
        s.(outbox := Apply(s.outbox, answer.events, answer.serverCursor), rounds := s.rounds - {round},
        adopted := answer.seen)
  }

  const NEW_DEVICE := Device([], EMPTY_OUTBOX, map[], 0)

  function Run(project: Id, labels: seq<Label>): Device {
    if labels == [] then NEW_DEVICE else Next(Run(project, labels[..|labels| - 1]), project, labels[|labels| - 1])
  }

  // ---------------------------------------------------------------- the cursor

  /** An answer is adopted after one that was pulled later, and the project gained a row between the two pulls. */
  predicate Crossed(s: Device, project: Id, l: Label) {
    && l.Adopt? && l.round in s.rounds && s.rounds[l.round].Answered? && s.adopted <= |s.log|
    && exists k | s.rounds[l.round].seen <= k < s.adopted :: s.log[k].project == project
  }

  predicate CrossedAt(project: Id, labels: seq<Label>, i: nat)
    requires i < |labels|
  {
    Crossed(Run(project, labels[..i]), project, labels[i])
  }

  function CursorAt(project: Id, labels: seq<Label>, i: nat): nat
    requires i <= |labels|
  {
    Run(project, labels[..i]).outbox.cursor
  }

  predicate Climbs(project: Id, labels: seq<Label>) {
    forall i, j | 0 <= i <= j <= |labels| :: CursorAt(project, labels, i) <= CursorAt(project, labels, j)
  }

  predicate Tracked(log: seq<Event>, project: Id, seen: nat, cursor: nat) {
    seen <= |log| && cursor == MaxSequence(log[..seen], project)
  }

  /** Cursors are the highest sequence of what was seen. */
  predicate Tracks(s: Device, project: Id) {
    && Dense(s.log) && Tracked(s.log, project, s.adopted, s.outbox.cursor)
    && forall k | k in s.rounds && s.rounds[k].Answered? ::
         Tracked(s.log, project, s.rounds[k].seen, s.rounds[k].serverCursor)
  }

  lemma TrackedLater(log: seq<Event>, row: Event, project: Id, seen: nat, cursor: nat)
    requires Tracked(log, project, seen, cursor)
    ensures Tracked(log + [row], project, seen, cursor)
  {
    assert (log + [row])[..seen] == log[..seen];
  }

  lemma NextTracks(s: Device, project: Id, l: Label)
    requires Tracks(s, project)
    ensures Tracks(Next(s, project, l), project)
  {
    hide MaxSequence, RowsAfter, Insert, Tracked;
    match l
    case Grow(row) =>
      var last := row.(sequence := |s.log| + 1);
      TrackedLater(s.log, last, project, s.adopted, s.outbox.cursor);
      forall k | k in s.rounds && s.rounds[k].Answered? {
        TrackedLater(s.log, last, project, s.rounds[k].seen, s.rounds[k].serverCursor);
      }
    case Ask(_) =>
    case Pull(_) => WholeTracked(s.log, project);
    case Adopt(_) =>
  }

  lemma WholeTracked(log: seq<Event>, project: Id)
    ensures Tracked(log, project, |log|, MaxSequence(log, project))
  {
    assert log[..|log|] == log;
  }

  lemma {:induction false} RunTracks(project: Id, labels: seq<Label>)
    ensures Tracks(Run(project, labels), project)
  {
    hide Next;
    if labels != [] {
      RunTracks(project, labels[..|labels| - 1]);
      NextTracks(Run(project, labels[..|labels| - 1]), project, labels[|labels| - 1]);
    }
  }

  /** Of two stretches of the log, the longer one has the higher sequence exactly when a row of the project lies
      between. */
  lemma MaxSequenceRises(log: seq<Event>, project: Id, a: nat, b: nat)
    requires Dense(log) && a <= |log| && b <= |log|
    ensures MaxSequence(log[..a], project) < MaxSequence(log[..b], project) <==>
            exists k | a <= k < b :: log[k].project == project
  {
    MaxSequenceBound(log[..a], project);
    if b <= a {
      assert log[..a][..b] == log[..b];
      MaxSequenceGrows(log[..b], log[..a], project);
    } else if k :| a <= k < b && log[k].project == project {
      MaxSequenceBound(log[..b], project);
      assert log[..b][k] == log[k];
    } else {
      NothingBetween(log, project, a, b);
    }
  }

  lemma {:induction false} NothingBetween(log: seq<Event>, project: Id, a: nat, b: nat)
    requires a <= b <= |log| && forall k | a <= k < b :: log[k].project != project
    ensures MaxSequence(log[..a], project) == MaxSequence(log[..b], project)
  {
    if a < b {
      assert log[..b][..b - 1] == log[..b - 1];
      NothingBetween(log, project, a, b - 1);
    }
  }

  lemma CursorFalls(s: Device, project: Id, l: Label)
    requires Tracks(s, project)
    ensures Next(s, project, l).outbox.cursor < s.outbox.cursor <==> Crossed(s, project, l)
  {
    hide MaxSequence, RowsAfter, Insert;
    if l.Adopt? && l.round in s.rounds && s.rounds[l.round].Answered? {
      MaxSequenceRises(s.log, project, s.rounds[l.round].seen, s.adopted);
    }
  }

  lemma CursorStep(project: Id, labels: seq<Label>, i: nat)
    requires i < |labels|
    ensures CursorAt(project, labels, i + 1) < CursorAt(project, labels, i) <==> CrossedAt(project, labels, i)
  {
    hide Next, Tracks, Crossed;
    assert labels[..i + 1][..i] == labels[..i];
    RunTracks(project, labels[..i]);
    CursorFalls(Run(project, labels[..i]), project, labels[i]);
  }

  lemma {:induction false} ClimbsFrom(project: Id, labels: seq<Label>, i: nat, j: nat)
    requires i <= j <= |labels| && forall k | 0 <= k < |labels| :: !CrossedAt(project, labels, k)
    ensures CursorAt(project, labels, i) <= CursorAt(project, labels, j)
  {
    hide CursorAt, CrossedAt;
    if i < j {
      ClimbsFrom(project, labels, i, j - 1);
      CursorStep(project, labels, j - 1);
    }
  }

  /** With overlapping calls the cursor never decreases if and only if no answer is adopted after one that was pulled
      later, with a row of the project appended between the two pulls. */
  lemma CursorClimbsExactly(project: Id, labels: seq<Label>)
    ensures Climbs(project, labels) <==> forall i | 0 <= i < |labels| :: !CrossedAt(project, labels, i)
  {
    hide CursorAt, CrossedAt;
    if Climbs(project, labels) {
      forall i | 0 <= i < |labels| ensures !CrossedAt(project, labels, i) {
        CursorStep(project, labels, i);
        assert CursorAt(project, labels, i) <= CursorAt(project, labels, i + 1);
      }
    }
    if forall i | 0 <= i < |labels| :: !CrossedAt(project, labels, i) {
      forall i, j | 0 <= i <= j <= |labels| ensures CursorAt(project, labels, i) <= CursorAt(project, labels, j) {
        ClimbsFrom(project, labels, i, j);
      }
    }
  }

  // ---------------------------------------------------------------- calls that do not overlap

  /** The answer at i is adopted by a call that began after every earlier adoption. */
  predicate Undisturbed(labels: seq<Label>, i: nat)
    requires i < |labels| && labels[i].Adopt?
  {
    exists j | 0 <= j < i :: labels[j] == Ask(labels[i].round) && forall k | j < k < i :: !labels[k].Adopt?
  }

  /** From its question on, a round has seen at least what was adopted before. */
  predicate SeesAdopted(s: Device, round: Id) {
    && s.adopted <= |s.log| && round in s.rounds
    && (s.rounds[round].Answered? ==> s.adopted <= s.rounds[round].seen)
  }

  lemma {:induction false} AskedSees(project: Id, labels: seq<Label>, round: Id, j: nat)
    requires j < |labels| && labels[j] == Ask(round) && forall k | j < k < |labels| :: !labels[k].Adopt?
    ensures SeesAdopted(Run(project, labels), round)
  {
    hide Tracks, MaxSequence, RowsAfter;
    var few := labels[..|labels| - 1];
    if |few| > j {
      AskedSees(project, few, round, j);
    } else {
      AdoptedFits(project, few);
    }
  }

  lemma AdoptedFits(project: Id, labels: seq<Label>)
    ensures Run(project, labels).adopted <= |Run(project, labels).log|
  {
    hide Run;
    RunTracks(project, labels);
  }

  /** Calls that do not overlap never move the cursor back. */
  lemma SequentialCallsClimb(project: Id, labels: seq<Label>)
    requires forall i | 0 <= i < |labels| && labels[i].Adopt? :: Undisturbed(labels, i)
    ensures Climbs(project, labels)
  {
    hide Run, Climbs;
    forall i | 0 <= i < |labels| ensures !CrossedAt(project, labels, i) {
      if labels[i].Adopt? {
        assert Undisturbed(labels, i);
        var j :| 0 <= j < i && labels[j] == Ask(labels[i].round) && forall k | j < k < i :: !labels[k].Adopt?;
        AskedSees(project, labels[..i], labels[i].round, j);
      }
    }
    CursorClimbsExactly(project, labels);
  }

  // ---------------------------------------------------------------- the replica

  /** The project's rows up to a position are all received. */
  predicate Holds(s: Device, project: Id, position: nat) {
    forall i | 0 <= i < |s.log| && s.log[i].project == project && s.log[i].sequence <= position ::
      s.log[i].sequence in s.outbox.received
  }

  predicate RoundOk(s: Device, project: Id, r: Round) {
    && r.cursor <= MaxSequence(s.log, project) && Holds(s, project, r.cursor)
    && (r.Answered? ==>
          && r.cursor <= r.serverCursor <= MaxSequence(s.log, project)
          && r.events == FirstPage(Window(s.log, project, r.cursor, r.serverCursor)))
  }

  predicate Sound(s: Device, project: Id) {
    && Dense(s.log)
    && s.outbox.cursor <= MaxSequence(s.log, project) && Holds(s, project, s.outbox.cursor)
    && forall k | k in s.rounds :: RoundOk(s, project, s.rounds[k])
  }

  /** An answer is adopted that was cut at 500 events, and the device lacks a row that was cut off. */
  predicate Skips(s: Device, project: Id, l: Label) {
    && l.Adopt? && l.round in s.rounds && s.rounds[l.round].Answered?
    && var backlog := Window(s.log, project, s.rounds[l.round].cursor, s.rounds[l.round].serverCursor);
    exists k | PAGE <= k < |backlog| :: backlog[k].sequence !in s.outbox.received
  }

  predicate SkipsAt(project: Id, labels: seq<Label>, i: nat)
    requires i < |labels|
  {
    Skips(Run(project, labels[..i]), project, labels[i])
  }

  predicate CompleteAt(project: Id, labels: seq<Label>, i: nat)
    requires i <= |labels|
  {
    var s := Run(project, labels[..i]); Holds(s, project, s.outbox.cursor)
  }

  lemma GrowSound(s: Device, project: Id, row: Event)
    requires Sound(s, project)
    ensures Sound(Next(s, project, Grow(row)), project)
  {
    hide Window, MaxSequence;
    var t := Next(s, project, Grow(row));
    MaxSequenceBound(s.log, project);
    MaxSequenceGrows(s.log, t.log, project);
    forall k | k in t.rounds ensures RoundOk(t, project, t.rounds[k]) {
      var r := s.rounds[k];
      assert RoundOk(s, project, r);
      if r.Answered? {
        WindowStable(s.log, t.log, project, r.cursor, r.serverCursor);
      }
    }
  }

  lemma AnswerSound(s: Device, project: Id, round: Id)
    requires Sound(s, project)
    ensures Sound(Next(s, project, Pull(round)), project)
  {
    hide Window, MaxSequence, RowsAfter;
    if round in s.rounds && s.rounds[round].Asked? {
      assert RoundOk(s, project, s.rounds[round]);
      MaxSequenceBound(s.log, project);
      RowsAfterIsWindow(s.log, project, s.rounds[round].cursor, MaxSequence(s.log, project));
      var t := Next(s, project, Pull(round));
      forall k | k in t.rounds ensures RoundOk(t, project, t.rounds[k]) {
        assert RoundOk(s, project, s.rounds[k]);
      }
    }
  }

  /** Adopting an answer fills the stretch it was asked for, wherever the cursor has moved meanwhile, unless a missing
      row was cut off. */
  lemma AdoptFills(s: Device, project: Id, round: Id)
    requires Sound(s, project) && round in s.rounds && s.rounds[round].Answered? && !Skips(s, project, Adopt(round))
    ensures Holds(Next(s, project, Adopt(round)), project, s.rounds[round].serverCursor)
  {
    hide Window, MaxSequence, Insert;
    var r := s.rounds[round];
    assert RoundOk(s, project, r);
    var t := Next(s, project, Adopt(round));
    var backlog := Window(s.log, project, r.cursor, r.serverCursor);
    WindowMeaning(s.log, project, r.cursor, r.serverCursor);
    forall i | 0 <= i < |t.log| && t.log[i].project == project && t.log[i].sequence <= r.serverCursor
      ensures t.log[i].sequence in t.outbox.received {
      InsertMeaning(s.outbox.received, r.events, t.log[i].sequence);
      if t.log[i].sequence > r.cursor {
        var k :| 0 <= k < |backlog| && backlog[k] == s.log[i];
        if k < PAGE {
          assert r.events[k] == backlog[k];
        }
      }
    }
  }

  /** A missing row that was cut off stays missing, below the cursor. */
  lemma SkipLeavesGap(s: Device, project: Id, round: Id)
    requires Sound(s, project) && Skips(s, project, Adopt(round))
    ensures var t := Next(s, project, Adopt(round)); !Holds(t, project, t.outbox.cursor)
  {
    hide Window, MaxSequence, Insert;
    var r := s.rounds[round];
    assert RoundOk(s, project, r);
    var backlog := Window(s.log, project, r.cursor, r.serverCursor);
    WindowMeaning(s.log, project, r.cursor, r.serverCursor);
    var k :| PAGE <= k < |backlog| && backlog[k].sequence !in s.outbox.received;
    forall j | 0 <= j < |r.events| ensures r.events[j].sequence != backlog[k].sequence {
      assert r.events[j] == backlog[j];
    }
    InsertMeaning(s.outbox.received, r.events, backlog[k].sequence);
    assert s.log[backlog[k].sequence - 1] == backlog[k];
  }

  lemma AdoptKeeps(s: Device, project: Id, round: Id, position: nat)
    requires round in s.rounds && s.rounds[round].Answered? && Holds(s, project, position)
    ensures Holds(Next(s, project, Adopt(round)), project, position)
  {
    hide Insert;
    var t := Next(s, project, Adopt(round));
    forall i | 0 <= i < |t.log| && t.log[i].project == project && t.log[i].sequence <= position
      ensures t.log[i].sequence in t.outbox.received {
      InsertMeaning(s.outbox.received, s.rounds[round].events, t.log[i].sequence);
    }
  }

  lemma AdoptSound(s: Device, project: Id, round: Id)
    requires Sound(s, project) && !Skips(s, project, Adopt(round))
    ensures Sound(Next(s, project, Adopt(round)), project)
  {
    hide Window, MaxSequence, Insert, Holds, Skips;
    if round in s.rounds && s.rounds[round].Answered? {
      assert RoundOk(s, project, s.rounds[round]);
      AdoptFills(s, project, round);
      var t := Next(s, project, Adopt(round));
      forall k | k in t.rounds ensures RoundOk(t, project, t.rounds[k]) {
        assert RoundOk(s, project, s.rounds[k]);
        AdoptKeeps(s, project, round, s.rounds[k].cursor);
      }
    }
  }

  lemma AskSound(s: Device, project: Id, round: Id)
    requires Sound(s, project)
    ensures Sound(Next(s, project, Ask(round)), project)
  {
    hide Window, MaxSequence;
    var t := Next(s, project, Ask(round));
    forall k | k in t.rounds ensures RoundOk(t, project, t.rounds[k]) {
      assert k != round ==> RoundOk(s, project, s.rounds[k]);
    }
  }

  lemma NextSound(s: Device, project: Id, l: Label)
    requires Sound(s, project) && !Skips(s, project, l)
    ensures Sound(Next(s, project, l), project)
  {
    hide Sound, Skips, Next;
    match l
    case Grow(row) => GrowSound(s, project, row);
    case Ask(round) => AskSound(s, project, round);
    case Pull(round) => AnswerSound(s, project, round);
    case Adopt(round) => AdoptSound(s, project, round);
  }

  lemma {:induction false} UnskippedIsSound(project: Id, labels: seq<Label>)
    requires forall i | 0 <= i < |labels| :: !SkipsAt(project, labels, i)
    ensures Sound(Run(project, labels), project)
  {
    hide Next, Sound, Skips;
    if labels == [] {
      NewIsSound(project);
    } else {
      var few := labels[..|labels| - 1];
      forall i | 0 <= i < |few| ensures !SkipsAt(project, few, i) {
        assert few[..i] == labels[..i];
        assert !SkipsAt(project, labels, i);
      }
      UnskippedIsSound(project, few);
      assert !SkipsAt(project, labels, |labels| - 1);
      NextSound(Run(project, few), project, labels[|labels| - 1]);
    }
  }

  /** The first skip leaves a gap. */
  lemma {:induction false} CompleteNeverSkipped(project: Id, labels: seq<Label>, n: nat)
    requires n <= |labels| && forall i | 0 <= i <= |labels| :: CompleteAt(project, labels, i)
    ensures forall i | 0 <= i < n :: !SkipsAt(project, labels, i)
  {
    hide Next, Sound, Skips, Holds;
    if n > 0 {
      CompleteNeverSkipped(project, labels, n - 1);
      var few := labels[..n - 1];
      forall i | 0 <= i < |few| ensures !SkipsAt(project, few, i) {
        assert few[..i] == labels[..i];
        assert !SkipsAt(project, labels, i);
      }
      UnskippedIsSound(project, few);
      assert labels[..n][..n - 1] == few && CompleteAt(project, labels, n);
      if SkipsAt(project, labels, n - 1) {
        SkipIsAdoption(Run(project, few), project, labels[n - 1]);
        SkipLeavesGap(Run(project, few), project, labels[n - 1].round);
      }
    }
  }

  lemma SkipIsAdoption(s: Device, project: Id, l: Label)
    requires Skips(s, project, l)
    ensures l.Adopt?
  {}

  /** However calls overlap, and although the cursor may move back: at every moment everything up to the cursor is
      received, if and only if no answer that was cut at 500 events is adopted while a row that was cut off is
      missing. */
  lemma OverlapsCompleteExactly(project: Id, labels: seq<Label>)
    ensures (forall i | 0 <= i <= |labels| :: CompleteAt(project, labels, i)) <==>
            (forall i | 0 <= i < |labels| :: !SkipsAt(project, labels, i))
  {
    hide SkipsAt, CompleteAt;
    if forall i | 0 <= i <= |labels| :: CompleteAt(project, labels, i) {
      CompleteNeverSkipped(project, labels, |labels|);
    }
    if forall i | 0 <= i < |labels| :: !SkipsAt(project, labels, i) {
      forall i | 0 <= i <= |labels| ensures CompleteAt(project, labels, i) {
        UnskippedSoFar(project, labels, i);
      }
    }
  }

  lemma UnskippedSoFar(project: Id, labels: seq<Label>, i: nat)
    requires i <= |labels| && forall k | 0 <= k < |labels| :: !SkipsAt(project, labels, k)
    ensures CompleteAt(project, labels, i)
  {
    hide Run, Skips, Holds;
    forall k | 0 <= k < i ensures !SkipsAt(project, labels[..i], k) {
      assert labels[..i][..k] == labels[..k];
      assert !SkipsAt(project, labels, k);
    }
    UnskippedIsSound(project, labels[..i]);
  }

  lemma NewIsSound(project: Id)
    ensures Sound(NEW_DEVICE, project)
  {}

  // ---------------------------------------------------------------- an answer that comes late

  function RowOfOne(eventId: Id): Event {
    Event(0, 1, eventId, None, None, TaskStatusChanged(None), 7, 0, 1, 0, 0)
  }

  const CROSSED: seq<Label> := [Grow(RowOfOne(10)), Ask(1), Pull(1), Grow(RowOfOne(11)), Ask(2), Pull(2), Adopt(2),
                                Adopt(1)]

  lemma StepOf(i: nat)
    requires i < |CROSSED|
    ensures Run(1, CROSSED[..i + 1]) == Next(Run(1, CROSSED[..i]), 1, CROSSED[i])
  {
    assert CROSSED[..i + 1][..i] == CROSSED[..i];
  }

  lemma Sequences()
    ensures var one, two := RowOfOne(10).(sequence := 1), RowOfOne(11).(sequence := 2);
            MaxSequence([one], 1) == 1 && MaxSequence([one, two], 1) == 2
  {
    var one, two := RowOfOne(10).(sequence := 1), RowOfOne(11).(sequence := 2);
    assert [one][..0] == [] && [one, two][..1] == [one];
  }

  /** Two calls whose answers cross: the older one is adopted last and moves the cursor from 2 back to 1. */
  lemma CrossedAnswersMoveBack()
    ensures CursorAt(1, CROSSED, 7) == 2 && CursorAt(1, CROSSED, 8) == 1 && !Climbs(1, CROSSED)
  {
    hide Run, MaxSequence, RowsAfter, FirstPage, Insert;
    assert CROSSED[..0] == [];
    assert Run(1, []) == NEW_DEVICE by { NothingRun(); }
    Sequences();
    StepOf(0);
    StepOf(1);
    StepOf(2);
    StepOf(3);
    StepOf(4);
    StepOf(5);
    StepOf(6);
    StepOf(7);
    var one, two := RowOfOne(10).(sequence := 1), RowOfOne(11).(sequence := 2);
    assert [] + [one] == [one] && [one] + [two] == [one, two];
    assert Run(1, CROSSED[..3]).log == [one];
    assert Run(1, CROSSED[..6]).log == [one, two];
    assert CursorAt(1, CROSSED, 8) < CursorAt(1, CROSSED, 7);
  }

  lemma NothingRun()
    ensures Run(1, []) == NEW_DEVICE
  {}
}
