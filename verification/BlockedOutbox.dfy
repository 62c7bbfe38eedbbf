/** A pending mutation that meets a taken key blocks its device: every call aborts, so nothing it queued before or after
    is acknowledged and nothing is pulled. */
module BlockedOutbox {
  import opened Prelude
  import opened CloudEvents
  import opened DurableQueue
  import opened OutboxRows
  import opened DeviceSync
  import opened BatchAborts
  import CloudLog
  import SyncRounds

  // ---------------------------------------------------------------- one batch

  /** The row that the mutation would insert is there already. */
  predicate HoldsKey(t: Tables, project: Id, m: Mutation) {
    match m.change
    case NoteCreated(Some(r)) => Owns(t, project, r.moduleId) && m.entityId in t.notes
    case TaskCreated(Some(r)) => Owns(t, project, r.moduleId) && m.entityId in t.tasks
    case MarkerCreated(Some(r)) =>
      Owns(t, project, r.moduleId) && (if r.id.Some? then r.id.value else m.entityId) in t.markers
    case _ => false
  }

  /** New, up to date, and its key is taken. */
  predicate Blocked(w: Workspace, project: Id, m: Mutation) {
    && !Logged(w.events, project, m.eventId)
    && m.baseRevision == StoredRevision(w.revisions, project, m.entityId)
    && HoldsKey(w.tables, project, m)
  }

  /** The mutation is among those given, behind mutations of other entities only. */
  predicate Carries(mutations: seq<Mutation>, m: Mutation) {
    exists i | 0 <= i < |mutations| :: mutations[i] == m && OthersBefore(mutations, i)
  }

  predicate OthersBefore(mutations: seq<Mutation>, i: nat)
    requires i < |mutations|
  {
    forall j | 0 <= j < i ::
      mutations[j].entityId != mutations[i].entityId && mutations[j].eventId != mutations[i].eventId
  }

  lemma ProjectionKeepsKey(t: Tables, project: Id, other: Mutation, drawn: Id, m: Mutation)
    requires HoldsKey(t, project, m) && Project(t, project, other, drawn).Applied?
    ensures HoldsKey(Project(t, project, other, drawn).tables, project, m)
  {}

  lemma StoredKeepsBlocked(w: Workspace, project: Id, device: Id, draft: Draft, at: Stamp, m: Mutation)
    requires Blocked(w, project, m) && Judge(w, project, device, draft, at).Stored?
    requires draft.mutation.entityId != m.entityId && draft.mutation.eventId != m.eventId
    ensures Blocked(Judge(w, project, device, draft, at).next, project, m)
  {
    hide Project, HoldsKey;
    ProjectionKeepsKey(w.tables, project, draft.mutation, draft.drawn, m);
  }

  lemma {:induction false} OthersKeepBlocked(w: Workspace, project: Id, device: Id, drafts: seq<Draft>, at: Stamp,
                                             m: Mutation)
    requires Blocked(w, project, m) && Batch(w, project, device, drafts, at).Some?
    requires forall j | 0 <= j < |drafts| ::
               drafts[j].mutation.entityId != m.entityId && drafts[j].mutation.eventId != m.eventId
    ensures Blocked(Batch(w, project, device, drafts, at).value.workspace, project, m)
  {
    hide Judge, Blocked;
    if drafts != [] {
      var last := |drafts| - 1;
      OthersKeepBlocked(w, project, device, drafts[..last], at, m);
      var before := Batch(w, project, device, drafts[..last], at).value.workspace;
      if Judge(before, project, device, drafts[last], at).Stored? {
        StoredKeepsBlocked(before, project, device, drafts[last], at, m);
      }
    }
  }

  lemma BlockedClashes(w: Workspace, project: Id, draft: Draft)
    requires Blocked(w, project, draft.mutation)
    ensures Clashes(w, project, draft)
  {}

  /** A batch that carries a blocked mutation aborts, whatever else is in it and whatever ids are drawn. */
  lemma BlockedBatchAborts(w: Workspace, project: Id, device: Id, drafts: seq<Draft>, at: Stamp, m: Mutation)
    requires Blocked(w, project, m) && Carries(MutationsOf(drafts), m)
    ensures Batch(w, project, device, drafts, at).None?
  {
    hide Batch, Blocked, Clashes;
    var mutations := MutationsOf(drafts);
    var i :| 0 <= i < |mutations| && mutations[i] == m && OthersBefore(mutations, i);
    var few := drafts[..i];
    BatchAbortsExactly(w, project, device, drafts, at);
    BatchAbortsExactly(w, project, device, few, at);
    if Batch(w, project, device, few, at).Some? {
      forall j | 0 <= j < |few|
        ensures few[j].mutation.entityId != m.entityId && few[j].mutation.eventId != m.eventId {
        assert mutations[j] == few[j].mutation;
      }
      OthersKeepBlocked(w, project, device, few, at, m);
      BlockedClashes(Batch(w, project, device, few, at).value.workspace, project, drafts[i]);
      assert ClashesAt(w, project, device, drafts, at, i);
    } else {
      var k :| 0 <= k < i && ClashesAt(w, project, device, few, at, k);
      assert few[..k] == drafts[..k];
      assert ClashesAt(w, project, device, drafts, at, k);
    }
  }

  // ---------------------------------------------------------------- one outbox

  type Rows = map<Id, QueueRow<Mutation>>

  function Older(rows: Rows, id: Id): set<Id>
    requires id in rows
  {
    set k | k in rows && Unacknowledged(rows, k) && Before(rows, k, id)
  }

  predicate Keyed(rows: Rows) {
    forall k | k in rows :: rows[k].item.eventId == k
  }

  /** The row is pending, among the first 100, and no older pending row concerns its entity. */
  predicate NextOfItsEntity(rows: Rows, id: Id) {
    && id in rows && Unacknowledged(rows, id) && |Older(rows, id)| < PENDING_LIMIT
    && forall k | k in Older(rows, id) :: rows[k].item.entityId != rows[id].item.entityId
  }

  function Elements(ids: seq<Id>): set<Id> {
    set i | 0 <= i < |ids| :: ids[i]
  }

  lemma {:induction false} DistinctCount(ids: seq<Id>)
    requires forall i, j | 0 <= i < j < |ids| :: ids[i] != ids[j]
    ensures |Elements(ids)| == |ids|
  {
    if ids != [] {
      var few := ids[..|ids| - 1];
      DistinctCount(few);
      assert Elements(ids) == Elements(few) + {ids[|ids| - 1]};
    }
  }

  lemma SubsetCount(a: set<Id>, b: set<Id>)
    requires a <= b
    ensures |a| <= |b|
  {
    assert b == a + (b - a);
  }

  /** The pending query returns such a row, behind rows of other entities. */
  lemma PendingCarries(rows: Rows, pending: seq<Id>, id: Id)
    requires Keyed(rows) && NextOfItsEntity(rows, id) && IsPending(rows, PENDING_LIMIT, pending)
    ensures Carries(ReadRows(rows, pending), rows[id].item)
  {
    var older := Older(rows, id);
    if id !in pending {
      DistinctCount(pending);
      SubsetCount(Elements(pending), older);
      assert false;
    }
    var i :| 0 <= i < |pending| && pending[i] == id;
    var mutations := ReadRows(rows, pending);
    forall j | 0 <= j < i
      ensures mutations[j].entityId != mutations[i].entityId && mutations[j].eventId != mutations[i].eventId {
      assert pending[j] in older;
    }
    assert OthersBefore(mutations, i);
  }

  /** Rows were only added, behind the given one. */
  predicate GrownBehind(rows: Rows, later: Rows, id: Id)
    requires id in rows
  {
    && (forall k | k in rows :: k in later && later[k] == rows[k])
    && forall k | k in later && k !in rows :: !Before(later, k, id)
  }

  lemma GrownStaysNext(rows: Rows, later: Rows, id: Id)
    requires id in rows && GrownBehind(rows, later, id) && NextOfItsEntity(rows, id)
    ensures NextOfItsEntity(later, id)
  {
    assert Older(later, id) == Older(rows, id);
  }

  // ---------------------------------------------------------------- the whole system

  /** A device queues behind the row, as a clock that moves on makes it. */
  predicate QueuesBehind(row: QueueRow<Mutation>, id: Id, d: Id, l: Label) {
    l.Queue? && l.device == d
    ==> row.createdAt < l.at || (row.createdAt == l.at && id < l.mutation.eventId) || l.mutation.eventId == id
  }

  /** No request from `since` on of the device is answered. */
  predicate Unanswered(s: System, d: Id, since: nat) {
    forall j | 0 <= j < |s.answers| :: since <= s.answers[j].request < |s.sent| ==>
        s.sent[s.answers[j].request].device != d
  }

  predicate RequestsCarry(s: System, d: Id, project: Id, m: Mutation, since: nat) {
    forall k | since <= k < |s.sent| && s.sent[k].device == d ::
      s.sent[k].project == project && Carries(s.sent[k].mutations, m)
  }

  /** Since `c` was the state of the device it has only queued, behind the row, and asked in vain. */
  predicate Stuck(s: System, c: Client, d: Id, id: Id, since: nat)
    requires id in c.outbox.rows
  {
    && d in s.clients && s.clients[d].project == c.project
    && s.clients[d].outbox.cursor == c.outbox.cursor && s.clients[d].outbox.received == c.outbox.received
    && GrownBehind(c.outbox.rows, s.clients[d].outbox.rows, id) && Keyed(s.clients[d].outbox.rows)
    && (match s.clients[d].phase
        case Idle => true
        case Waiting(k) => since <= k < |s.sent| && s.sent[k].device == d
        case _ => false)
    && (forall j | 0 <= j < |s.answers| :: s.answers[j].request < |s.sent|)
    && since <= |s.sent| && Unanswered(s, d, since)
    && RequestsCarry(s, d, c.project, c.outbox.rows[id].item, since)
  }

  /** A request that carries a blocked mutation is not served. */
  lemma BlockedRequestFails(c: Cloud, r: Request, drafts: seq<Draft>, at: Stamp, m: Mutation)
    requires Blocked(c.workspace, r.project, m) && MutationsOf(drafts) == r.mutations && Carries(r.mutations, m)
    ensures !Sync(c, r.project, r.device, r.cursor, drafts, r.inventory, at).Served?
  {
    BlockedBatchAborts(c.workspace, r.project, r.device, drafts, at, m);
  }

  lemma QueueStuck(s: System, l: Label, c: Client, d: Id, id: Id, since: nat)
    requires id in c.outbox.rows && Stuck(s, c, d, id, since) && l.Queue?
    requires QueuesBehind(c.outbox.rows[id], id, d, l)
    ensures Stuck(Next(s, l), c, d, id, since)
  {
    hide Carries, RequestsCarry;
    SentKept(s, l, d, c, id, since);
  }

  lemma SentKept(s: System, l: Label, d: Id, c: Client, id: Id, since: nat)
    requires id in c.outbox.rows && RequestsCarry(s, d, c.project, c.outbox.rows[id].item, since)
    requires Next(s, l).sent == s.sent
    ensures RequestsCarry(Next(s, l), d, c.project, c.outbox.rows[id].item, since)
  {
    hide Next, Carries;
  }

  lemma SendStuck(s: System, l: Label, c: Client, d: Id, id: Id, since: nat)
    requires id in c.outbox.rows && Stuck(s, c, d, id, since) && NextOfItsEntity(c.outbox.rows, id) && l.Send?
    ensures Stuck(Next(s, l), c, d, id, since)
  {
    hide Carries, IsPending, NextOfItsEntity, GrownBehind, Keyed;
    if Enabled(s, l) && l.device == d {
      var rows := s.clients[d].outbox.rows;
      GrownStaysNext(c.outbox.rows, rows, id);
      PendingCarries(rows, l.pending, id);
      assert rows[id] == c.outbox.rows[id] by { GrownMeaning(c.outbox.rows, rows, id); }
    }
  }

  lemma GrownMeaning(rows: Rows, later: Rows, id: Id)
    requires id in rows && GrownBehind(rows, later, id)
    ensures id in later && later[id] == rows[id]
  {}

  lemma ServeStuck(s: System, l: Label, c: Client, d: Id, id: Id, since: nat)
    requires id in c.outbox.rows && Stuck(s, c, d, id, since) && l.Serve?
    requires Blocked(s.cloud.workspace, c.project, c.outbox.rows[id].item)
    ensures Stuck(Next(s, l), c, d, id, since)
  {
    hide Carries, GrownBehind, Keyed, Sync, Blocked;
    if Enabled(s, l) && since <= l.request && s.sent[l.request].device == d {
      BlockedRequestFails(s.cloud, s.sent[l.request], l.drafts, l.at, c.outbox.rows[id].item);
    }
  }

  lemma OtherStuck(s: System, l: Label, c: Client, d: Id, id: Id, since: nat)
    requires id in c.outbox.rows && Stuck(s, c, d, id, since) && !l.Queue? && !l.Send? && !l.Serve?
    ensures Stuck(Next(s, l), c, d, id, since)
  {
    hide Carries, GrownBehind, Keyed, CloudLog.After, Insert;
  }

  lemma NextStuck(s: System, l: Label, c: Client, d: Id, id: Id, since: nat)
    requires id in c.outbox.rows && Stuck(s, c, d, id, since) && NextOfItsEntity(c.outbox.rows, id)
    requires Blocked(s.cloud.workspace, c.project, c.outbox.rows[id].item) && QueuesBehind(c.outbox.rows[id], id, d, l)
    ensures Stuck(Next(s, l), c, d, id, since)
  {
    hide Stuck, Next, Blocked, NextOfItsEntity;
    match l
    case Queue(_, _, _) => QueueStuck(s, l, c, d, id, since);
    case Send(_, _, _) => SendStuck(s, l, c, d, id, since);
    case Serve(_, _, _) => ServeStuck(s, l, c, d, id, since);
    case _ => OtherStuck(s, l, c, d, id, since);
  }

  lemma {:induction false} RunStuck(s: System, more: seq<Label>, c: Client, d: Id, id: Id, since: nat)
    requires id in c.outbox.rows && Stuck(s, c, d, id, since) && NextOfItsEntity(c.outbox.rows, id)
    requires forall i | 0 <= i < |more| ::
               Blocked(Run(s, more[..i]).cloud.workspace, c.project, c.outbox.rows[id].item)
    requires forall i | 0 <= i < |more| :: QueuesBehind(c.outbox.rows[id], id, d, more[i])
    ensures Stuck(Run(s, more), c, d, id, since)
  {
    hide Stuck, Next, Blocked, NextOfItsEntity, QueuesBehind;
    if more != [] {
      var few := more[..|more| - 1];
      forall i | 0 <= i < |few| ensures few[..i] == more[..i] && few[i] == more[i] {}
      RunStuck(s, few, c, d, id, since);
      assert more[..|few|] == few;
      NextStuck(Run(s, few), more[|few|], c, d, id, since);
    }
  }

  lemma {:induction false} RunKeyed(s: System, labels: seq<Label>, d: Id)
    requires Start(s)
    ensures var t := Run(s, labels);
            d in t.clients ==> Keyed(t.clients[d].outbox.rows)
    ensures forall j | 0 <= j < |Run(s, labels).answers| ::
              Run(s, labels).answers[j].request < |Run(s, labels).sent|
  {
    hide Sync, Insert, CloudLog.After;
    if labels != [] {
      RunKeyed(s, labels[..|labels| - 1], d);
    }
  }

  /** What a device holds, and what it has of its requests, after a continuation in which its calls abort. */
  predicate NothingMoved(t: System, c: Client, d: Id, since: nat) {
    && d in t.clients && t.clients[d].outbox.cursor == c.outbox.cursor
    && t.clients[d].outbox.received == c.outbox.received
    && (forall k | k in c.outbox.rows ::
          k in t.clients[d].outbox.rows && t.clients[d].outbox.rows[k] == c.outbox.rows[k])
    && Unanswered(t, d, since)
  }

  ghost predicate NextCallAborts(t: System, d: Id) {
    && d in t.clients
    && forall pending, drafts, inventory, at |
         IsPending(t.clients[d].outbox.rows, PENDING_LIMIT, pending)
         && MutationsOf(drafts) == ReadRows(t.clients[d].outbox.rows, pending) ::
         !Sync(t.cloud, t.clients[d].project, d, t.clients[d].outbox.cursor, drafts, inventory, at).Served?
  }

  lemma StuckMeans(t: System, c: Client, d: Id, id: Id, since: nat)
    requires id in c.outbox.rows && Stuck(t, c, d, id, since) && NextOfItsEntity(c.outbox.rows, id)
    requires Blocked(t.cloud.workspace, c.project, c.outbox.rows[id].item)
    ensures NothingMoved(t, c, d, since) && NextCallAborts(t, d)
  {
    hide Sync, Carries, NextOfItsEntity, Keyed, Blocked;
    var rows := t.clients[d].outbox.rows;
    GrownStaysNext(c.outbox.rows, rows, id);
    forall pending, drafts, inventory, at | IsPending(rows, PENDING_LIMIT, pending)
        && MutationsOf(drafts) == ReadRows(rows, pending)
      ensures !Sync(t.cloud, c.project, d, t.clients[d].outbox.cursor, drafts, inventory, at).Served? {
      PendingCarries(rows, pending, id);
      BlockedRequestFails(t.cloud, Request(d, c.project, t.clients[d].outbox.cursor, MutationsOf(drafts), inventory),
                          drafts, at, c.outbox.rows[id].item);
    }
  }

  /** A blocked device, over every continuation: as long as a pending mutation of an idle device finds its key taken and
      its revision stored, none of its requests is answered, nothing it queued is acknowledged, neither before nor
      behind that mutation, nothing is received, and its next call aborts again. */
  lemma BlockedForever(s: System, labels: seq<Label>, more: seq<Label>, d: Id, id: Id)
    requires Start(s) && d in Run(s, labels).clients && Run(s, labels).clients[d].phase == Idle
    requires var c := Run(s, labels).clients[d];
             && NextOfItsEntity(c.outbox.rows, id)
             && (forall i | 0 <= i <= |more| ::
                   Blocked(Run(Run(s, labels), more[..i]).cloud.workspace, c.project, c.outbox.rows[id].item))
             && forall i | 0 <= i < |more| :: QueuesBehind(c.outbox.rows[id], id, d, more[i])
    ensures var before, t := Run(s, labels), Run(Run(s, labels), more);
            NothingMoved(t, before.clients[d], d, |before.sent|) && NextCallAborts(t, d)
  {
    hide Run, Stuck, Blocked, NothingMoved, NextCallAborts, QueuesBehind;
    var before := Run(s, labels);
    var c := before.clients[d];
    RunKeyed(s, labels, d);
    StartStuck(before, d, id);
    RunStuck(before, more, c, d, id, |before.sent|);
    assert more[..|more|] == more;
    assert Blocked(Run(before, more[..|more|]).cloud.workspace, c.project, c.outbox.rows[id].item);
    StuckMeans(Run(before, more), c, d, id, |before.sent|);
  }

  lemma StartStuck(s: System, d: Id, id: Id)
    requires d in s.clients && s.clients[d].phase == Idle && NextOfItsEntity(s.clients[d].outbox.rows, id)
    requires Keyed(s.clients[d].outbox.rows)
    requires forall j | 0 <= j < |s.answers| :: s.answers[j].request < |s.sent|
    ensures Stuck(s, s.clients[d], d, id, |s.sent|)
  {}

  // ---------------------------------------------------------------- a blocked device, from the start

  /** Module 2 belongs to project 1; note 4 belongs to project 6. */
  const FOREIGN_NOTE :=
    Tables(map[2 := 1, 3 := 6], map[4 := Note(6, 3, "t", "c", "note", "pc", 0)], map[], map[], map[])

  const GOOD := NoteDraft(11, 8, 2, 21).mutation
  const BAD := NoteDraft(12, 4, 2, 22).mutation

  /** The device of project 1 queues a good note and then one whose id is taken. */
  const BLOCKING: seq<Label> := [CloudStep(CloudLog.Elsewhere(FOREIGN_NOTE)), Queue(5, GOOD, 0), Queue(5, BAD, 1)]

  lemma BlockingSteps()
    ensures var s := Run(SyncRounds.FRESH_PAIR, BLOCKING);
            && s.cloud.workspace == CloudLog.NO_EVENTS.(tables := FOREIGN_NOTE)
            && s.clients == map[5 := Client(1, EMPTY_OUTBOX.(rows := map[11 := QueueRow(GOOD, 0, None),
                                                                         12 := QueueRow(BAD, 1, None)]), Idle)]
  {
    hide Run;
    var s := SyncRounds.FRESH_PAIR;
    SyncRounds.RunThree(s, BLOCKING[0], BLOCKING[1], BLOCKING[2]);
    var one := Next(s, BLOCKING[0]);
    var two := Next(one, BLOCKING[1]);
    assert two.clients[5].outbox.rows == map[11 := QueueRow(GOOD, 0, None)];
    var three := Next(two, BLOCKING[2]);
    assert three.clients[5].outbox.rows == map[11 := QueueRow(GOOD, 0, None), 12 := QueueRow(BAD, 1, None)];
  }

  /** A reachable device that is blocked: its next call aborts, and the good mutation before the bad one is not
      acknowledged either. */
  lemma BlockedRun()
    ensures var s := Run(SyncRounds.FRESH_PAIR, BLOCKING);
            && Start(SyncRounds.FRESH_PAIR) && 5 in s.clients && s.clients[5].phase == Idle
            && NextOfItsEntity(s.clients[5].outbox.rows, 12)
            && Blocked(s.cloud.workspace, 1, BAD) && NextCallAborts(s, 5)
  {
    hide Run, NextCallAborts;
    BlockingSteps();
    var s := Run(SyncRounds.FRESH_PAIR, BLOCKING);
    var rows := s.clients[5].outbox.rows;
    assert Older(rows, 12) == {11};
    NothingRun(s);
    var none: seq<Label> := [];
    assert none[..0] == none;
    BlockedForever(SyncRounds.FRESH_PAIR, BLOCKING, none, 5, 12);
  }

  lemma NothingRun(s: System)
    ensures Run(s, []) == s
  {}
}
