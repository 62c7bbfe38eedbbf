/** When a device's batch aborts: a violated key leaves the loop as an exception and takes the whole transaction with
    it. */
module BatchAborts {
  import opened Prelude
  import opened CloudEvents

  /** The projection passes its checks and its INSERT meets a key that is already there. */
  predicate TakesKey(t: Tables, project: Id, m: Mutation, drawn: Id) {
    match m.change
    case NoteCreated(Some(r)) => Owns(t, project, r.moduleId) && (m.entityId in t.notes || drawn in t.markers)
    case TaskCreated(Some(r)) => Owns(t, project, r.moduleId) && (m.entityId in t.tasks || drawn in t.markers)
    case MarkerCreated(Some(r)) =>
      Owns(t, project, r.moduleId) && (if r.id.Some? then r.id.value else m.entityId) in t.markers
    case _ => false
  }

  /** The mutation is new and up to date, and its row's key is taken. */
  predicate Clashes(w: Workspace, project: Id, draft: Draft) {
    && !Logged(w.events, project, draft.mutation.eventId)
    && draft.mutation.baseRevision == StoredRevision(w.revisions, project, draft.mutation.entityId)
    && TakesKey(w.tables, project, draft.mutation, draft.drawn)
  }

  lemma BrokenExactly(w: Workspace, project: Id, device: Id, draft: Draft, at: Stamp)
    ensures Judge(w, project, device, draft, at).Broken? <==> Clashes(w, project, draft)
  {}

  /** The mutations before the i-th leave a workspace in which the i-th clashes. */
  predicate ClashesAt(w: Workspace, project: Id, device: Id, drafts: seq<Draft>, at: Stamp, i: nat)
    requires i < |drafts|
  {
    var before := Batch(w, project, device, drafts[..i], at);
    before.Some? && Clashes(before.value.workspace, project, drafts[i])
  }

  /** A batch aborts if and only if one of its mutations clashes with what the earlier ones left. */
  lemma {:induction false} BatchAbortsExactly(w: Workspace, project: Id, device: Id, drafts: seq<Draft>, at: Stamp)
    ensures Batch(w, project, device, drafts, at).None? <==>
            exists i | 0 <= i < |drafts| :: ClashesAt(w, project, device, drafts, at, i)
  {
    hide Batch, AcceptedPart, StoredPart, Judge, Clashes;
    if drafts == [] {
      BatchNil(w, project, device, at);
    } else {
      var last := |drafts| - 1;
      var few := drafts[..last];
      BatchAbortsExactly(w, project, device, few, at);
      BatchStep(w, project, device, drafts, at);
      forall i | 0 <= i < last
        ensures ClashesAt(w, project, device, drafts, at, i) == ClashesAt(w, project, device, few, at, i) {
        assert few[..i] == drafts[..i];
      }
      if Batch(w, project, device, few, at).Some? {
        BrokenExactly(Batch(w, project, device, few, at).value.workspace, project, device, drafts[last], at);
      }
      if Batch(w, project, device, drafts, at).None? && Batch(w, project, device, few, at).Some? {
        assert ClashesAt(w, project, device, drafts, at, last);
      }
    }
  }

  function NoteDraft(eventId: Id, note: Id, moduleId: Id, drawn: Id): Draft {
    Draft(Mutation(eventId, NoteCreated(Some(NoteRequest(moduleId, "t", "c", "note", "pc"))), note, 0, 0), drawn)
  }

  /** Module 2 belongs to project 1 and module 3 to project 6. */
  const TWO_PROJECTS := Workspace(Tables(map[2 := 1, 3 := 6], map[], map[], map[], map[]), map[], [])

  lemma TwoDrafts(w: Workspace, project: Id, device: Id, one: Draft, two: Draft, at: Stamp)
    ensures Batch(w, project, device, [one], at) == Advance(Progress(w, [], []), project, device, one, at)
    ensures Batch(w, project, device, [one], at).Some? ==>
              Batch(w, project, device, [one, two], at)
                == Advance(Batch(w, project, device, [one], at).value, project, device, two, at)
  {
    assert [one][..0] == [] && [one, two][..1] == [one];
  }

  /** The same after a device of project 1 has pushed note 4. */
  const WITH_NOTE := Workspace(
    Tables(map[2 := 1, 3 := 6], map[4 := Note(1, 2, "t", "c", "note", "pc", 0)], map[],
           map[20 := Marker(1, 2, "note", "t", "open", "note", 4, 0)], map[]),
    map[(1, 4) := 1],
    [Event(1, 1, 10, Some(5), None, NoteDraft(10, 4, 2, 20).mutation.change, 4, 0, 1, 0, 0)])

  lemma FirstNote()
    ensures Batch(TWO_PROJECTS, 1, 5, [NoteDraft(10, 4, 2, 20)], 0) == Some(Progress(WITH_NOTE, [10], []))
  {
    hide Batch;
    var draft := NoteDraft(10, 4, 2, 20);
    TwoDrafts(TWO_PROJECTS, 1, 5, draft, draft, 0);
    var stored := Judge(TWO_PROJECTS, 1, 5, draft, 0);
    assert stored.Stored?;
    assert stored.next.tables == WITH_NOTE.tables;
    assert stored.next.revisions == WITH_NOTE.revisions;
    assert stored.next.events == WITH_NOTE.events;
    assert [] + [10] == [10];
  }

  lemma SecondStored()
    ensures var v := Judge(WITH_NOTE, 6, 7, NoteDraft(11, 8, 3, 21), 1);
            && v.Stored? && v.next.tables.modules == WITH_NOTE.tables.modules && 4 in v.next.tables.notes
            && v.next.revisions == map[(1, 4) := 1, (6, 8) := 1]
            && |v.next.events| == 2 && v.next.events[0] == WITH_NOTE.events[0] && v.next.events[1].eventId == 11
  {
    assert WITH_NOTE.revisions[(6, 8) := 1] == map[(1, 4) := 1, (6, 8) := 1];
  }

  lemma SecondNote()
    ensures var p := Batch(WITH_NOTE, 6, 7, [NoteDraft(11, 8, 3, 21)], 1);
            && p.Some? && p.value.accepted == [11] && Clashes(p.value.workspace, 6, NoteDraft(12, 4, 3, 22))
  {
    hide Batch, Judge, Project;
    SecondStored();
    TwoDrafts(WITH_NOTE, 6, 7, NoteDraft(11, 8, 3, 21), NoteDraft(11, 8, 3, 21), 1);
  }

  /** A reachable abort: note ids are keys of one table for all projects, revisions are not, so a note that another
      project already has passes every check. The good mutation before it is rolled back with it. */
  lemma ForeignNoteAborts()
    ensures Batch(TWO_PROJECTS, 1, 5, [NoteDraft(10, 4, 2, 20)], 0) == Some(Progress(WITH_NOTE, [10], []))
    ensures var good, bad := NoteDraft(11, 8, 3, 21), NoteDraft(12, 4, 3, 22);
            && Batch(WITH_NOTE, 6, 7, [good], 1).Some? && Batch(WITH_NOTE, 6, 7, [good], 1).value.accepted == [11]
            && Batch(WITH_NOTE, 6, 7, [good, bad], 1).None?
  {
    hide Batch, Judge, Clashes;
    FirstNote();
    SecondNote();
    var good, bad := NoteDraft(11, 8, 3, 21), NoteDraft(12, 4, 3, 22);
    TwoDrafts(WITH_NOTE, 6, 7, good, bad, 1);
    BrokenExactly(Batch(WITH_NOTE, 6, 7, [good], 1).value.workspace, 6, 7, bad, 1);
  }
}
