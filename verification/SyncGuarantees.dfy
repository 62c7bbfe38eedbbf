/** What device synchronisation guarantees over every run: exactly-once effect, and what a replica holds. */
module SyncGuarantees {
  import opened Prelude
  import opened CloudEvents
  import opened DurableQueue
  import opened OutboxRows
  import opened DeviceSync
  import CloudLog

  // ---------------------------------------------------------------- exactly once

  /** Exactly-once effect over at-least-once delivery, for every interleaving of enqueues, repeated, lost and
      re-served requests, aborts and crashes: an event id is logged at most once, everything a device holds as
      acknowledged is logged, and projecting each newly logged row once, in log order, gives the tables. */
  lemma ExactlyOnce(s: System, labels: seq<Label>)
    requires Start(s)
    ensures var final := Run(s, labels);
            var journal := CloudLog.Journal(s.cloud.workspace, CloudSteps(s, labels));
            && CloudLog.LogWellFormed(final.cloud.workspace.events)
            && (forall d | d in final.clients :: AcksLogged(final.cloud.workspace.events, final.clients[d]))
            && final.cloud.workspace.events == s.cloud.workspace.events + CloudLog.LogOf(journal)
            && CloudLog.RedoAll(s.cloud.workspace.tables, journal) == Applied(final.cloud.workspace.tables)
  {
    RunKeeps(s, labels);
    var final := Run(s, labels);
    forall d | d in final.clients ensures AcksLogged(final.cloud.workspace.events, final.clients[d]) {
      assert ClientOk(final.cloud.workspace.events, d, final.clients[d], final.sent);
    }
    CloudRunsTheStore(s, labels);
    CloudLog.LogDeterminesTables(s.cloud.workspace, CloudSteps(s, labels));
  }

  // ---------------------------------------------------------------- what is logged is what was queued

  /** The mutation that owns each event id of a project. */
  type Registry = map<(Id, Id), Mutation>

  /** The run uses ids as drawn once: a device queues a mutation only under its own id, the cloud draws others. */
  predicate FreshIds(s: System, labels: seq<Label>, owner: Registry) {
    forall i | 0 <= i < |labels| :: FreshLabel(s, labels[i], owner)
  }

  predicate FreshLabel(s: System, l: Label, owner: Registry) {
    match l
    case Queue(d, m, _) => d in s.clients
        ==> (s.clients[d].project, m.eventId) in owner && owner[(s.clients[d].project, m.eventId)] == m
    case CloudStep(Record(project, _, _, _, _, eventId, _, _)) => (project, eventId) !in owner
    case _ => true
  }

  predicate OwnedRow(e: Event, owner: Registry) {
    (e.project, e.eventId) in owner ==> CloudLog.MutationOf(e) == owner[(e.project, e.eventId)]
  }

  predicate Owned(project: Id, m: Mutation, owner: Registry) {
    (project, m.eventId) in owner && owner[(project, m.eventId)] == m
  }

  predicate AllOwned(s: System, owner: Registry) {
    && (forall d | d in s.clients :: forall id | id in s.clients[d].outbox.rows ::
          s.clients[d].outbox.rows[id].item.eventId == id
              && Owned(s.clients[d].project, s.clients[d].outbox.rows[id].item, owner))
    && (forall k | 0 <= k < |s.sent| :: forall m | m in s.sent[k].mutations :: Owned(s.sent[k].project, m, owner))
    && (forall e | e in s.cloud.workspace.events :: OwnedRow(e, owner))
  }

  lemma BatchOwned(w: Workspace, project: Id, device: Id, drafts: seq<Draft>, at: Stamp, owner: Registry)
    requires Batch(w, project, device, drafts, at).Some?
    requires forall d | d in drafts :: Owned(project, d.mutation, owner)
    requires forall e | e in w.events :: OwnedRow(e, owner)
    ensures forall e | e in Batch(w, project, device, drafts, at).value.workspace.events :: OwnedRow(e, owner)
  {}

  lemma ServeOwned(s: System, l: Label, owner: Registry)
    requires AllOwned(s, owner) && l.Serve? && Enabled(s, l)
    ensures AllOwned(Next(s, l), owner)
  {
    hide RowsAfter, MaxSequence, Batch;
    var r := s.sent[l.request];
    if Sync(s.cloud, r.project, r.device, r.cursor, l.drafts, r.inventory, l.at).Served? {
      forall i | 0 <= i < |l.drafts| ensures Owned(r.project, l.drafts[i].mutation, owner) {
        assert MutationsOf(l.drafts)[i] in r.mutations;
      }
      BatchOwned(s.cloud.workspace, r.project, r.device, l.drafts, l.at, owner);
    }
  }

  lemma NextOwned(s: System, l: Label, owner: Registry)
    requires AllOwned(s, owner) && FreshLabel(s, l, owner)
    ensures AllOwned(Next(s, l), owner)
  {
    hide Sync, Insert;
    if Enabled(s, l) {
      match l
      case Serve(k, drafts, at) => ServeOwned(s, l, owner);
      case Send(d, pending, inventory) =>
        var mutations := ReadRows(s.clients[d].outbox.rows, pending);
        forall i | 0 <= i < |mutations| ensures Owned(s.clients[d].project, mutations[i], owner) {
          assert pending[i] in s.clients[d].outbox.rows;
        }
      case _ =>
    }
  }

  lemma {:induction false} ProjectsFixed(s: System, labels: seq<Label>)
    ensures Run(s, labels).clients.Keys == s.clients.Keys
    ensures forall d | d in s.clients :: Run(s, labels).clients[d].project == s.clients[d].project
  {
    if labels != [] {
      ProjectsFixed(s, labels[..|labels| - 1]);
    }
  }

  lemma {:induction false} RunOwned(s: System, labels: seq<Label>, owner: Registry)
    requires AllOwned(s, owner) && FreshIds(s, labels, owner)
    ensures AllOwned(Run(s, labels), owner)
  {
    if labels != [] {
      var last := |labels| - 1;
      RunOwned(s, labels[..last], owner);
      ProjectsFixed(s, labels[..last]);
      assert FreshLabel(s, labels[last], owner);
      NextOwned(Run(s, labels[..last]), labels[last], owner);
    }
  }

  /** With ids drawn fresh, an acknowledged event is in the log exactly as its device queued it. */
  lemma AcknowledgedIsLoggedVerbatim(s: System, labels: seq<Label>, owner: Registry, d: Id, id: Id)
    requires Start(s) && FreshIds(s, labels, owner)
    requires forall e | e in s.cloud.workspace.events :: (e.project, e.eventId) !in owner
    requires d in Run(s, labels).clients && id in Run(s, labels).clients[d].outbox.rows
    requires Run(s, labels).clients[d].outbox.rows[id].acknowledgedAt.Some?
    ensures exists e | e in Run(s, labels).cloud.workspace.events ::
              e.project == Run(s, labels).clients[d].project
                  && CloudLog.MutationOf(e) == Run(s, labels).clients[d].outbox.rows[id].item
  {
    ExactlyOnce(s, labels);
    RunOwned(s, labels, owner);
    ProjectsFixed(s, labels);
    var final := Run(s, labels);
    assert AcksLogged(final.cloud.workspace.events, final.clients[d]);
    var e :| e in final.cloud.workspace.events && e.project == final.clients[d].project && e.eventId == id;
    assert OwnedRow(e, owner);
  }

  // ---------------------------------------------------------------- the replica

  /** The device holds every row of its project up to its cursor. */
  predicate Complete(events: seq<Event>, c: Client) {
    forall i | 0 <= i < |events| && events[i].project == c.project && events[i].sequence <= c.outbox.cursor ::
      events[i].sequence in c.outbox.received
  }

  /** The backlog behind a reply: the rows between the device's cursor and the cursor it is told to adopt. */
  function Backlog(events: seq<Event>, c: Client, reply: Reply): seq<Event> {
    Window(events, c.project, c.outbox.cursor, reply.serverCursor)
  }

  /** The device applies a reply whose backlog is longer than one page. */
  predicate Truncated(s: System, l: Label, d: Id) {
    && l == ApplyLocally(d) && d in s.clients && s.clients[d].phase.Acknowledged?
    && |Backlog(s.cloud.workspace.events, s.clients[d], s.clients[d].phase.reply)| > PAGE
  }

  /** Applying a reply leaves a complete replica exactly when it was complete and the backlog fits one page. */
  lemma ApplyCompletes(events: seq<Event>, c: Client)
    requires Dense(events) && ReceivedFromLog(events, c) && c.phase.Acknowledged?
               && ReplyOk(events, c.project, c.outbox.cursor, c.phase.reply)
    ensures var after := c.(outbox := Apply(c.outbox, c.phase.reply.events, c.phase.reply.serverCursor), phase := Idle);
            Complete(events, after) <==> Complete(events, c) && |Backlog(events, c, c.phase.reply)| <= PAGE
  {
    hide Window, MaxSequence, Insert;
    var reply := c.phase.reply;
    var w := Backlog(events, c, reply);
    var received := Insert(c.outbox.received, reply.events);
    WindowMeaning(events, c.project, c.outbox.cursor, reply.serverCursor);
    forall n ensures n in received <==> n in c.outbox.received || exists e | e in reply.events :: e.sequence == n {
      InsertMeaning(c.outbox.received, reply.events, n);
    }
    var after := c.(outbox := Apply(c.outbox, reply.events, reply.serverCursor), phase := Idle);
    if |w| > PAGE {
      var missed := w[PAGE];
      forall k | 0 <= k < |reply.events| ensures reply.events[k].sequence != missed.sequence {
        assert reply.events[k] == w[k];
      }
      assert events[missed.sequence - 1] == missed;
      assert missed.sequence !in received;
    } else if !Complete(events, c) {
      var i :| 0 <= i < |events| && events[i].project == c.project && events[i].sequence <= c.outbox.cursor
               && events[i].sequence !in c.outbox.received;
      forall k | 0 <= k < |reply.events| ensures reply.events[k].sequence != events[i].sequence {
        assert reply.events[k] == w[k];
      }
      assert events[i].sequence !in received;
    } else {
      forall i | 0 <= i < |events| && events[i].project == c.project && events[i].sequence <= reply.serverCursor
        ensures events[i].sequence in received
      {
        if events[i].sequence > c.outbox.cursor {
          assert events[i] in w;
        }
      }
    }
  }

  /** Rows that the log gains lie above every cursor. */
  lemma CompleteIgnoresGrowth(events: seq<Event>, longer: seq<Event>, c: Client)
    requires events <= longer && Dense(longer) && c.outbox.cursor <= |events|
    ensures Complete(longer, c) <==> Complete(events, c)
  {}

  lemma NextComplete(s: System, l: Label, d: Id)
    requires Invariant(s) && d in s.clients
    ensures d in Next(s, l).clients
    ensures Complete(Next(s, l).cloud.workspace.events, Next(s, l).clients[d]) <==>
            Complete(s.cloud.workspace.events, s.clients[d]) && !Truncated(s, l, d)
  {
    hide Window, MaxSequence, RowsAfter, Batch, CloudLog.After, Logged, Insert;
    var events, longer := s.cloud.workspace.events, Next(s, l).cloud.workspace.events;
    var c := s.clients[d];
    NextKeeps(s, l);
    assert ClientOk(events, d, c, s.sent);
    MaxSequenceBound(events, c.project);
    if l == ApplyLocally(d) && Enabled(s, l) {
      ApplyCompletes(events, c);
    } else {
      CompleteIgnoresGrowth(events, longer, c);
    }
  }

  predicate TruncatedAt(s: System, labels: seq<Label>, d: Id, i: nat)
    requires i < |labels|
  {
    Truncated(Run(s, labels[..i]), labels[i], d)
  }

  /** The replica, for every run with crashes and replays: what a device received is always a part of its
      project's log at or below its cursor, and it is all of that part exactly when the device never applied a
      reply whose backlog exceeded 500 events. A skipped event is never delivered later. */
  lemma {:induction false} ReplicaExactly(s: System, labels: seq<Label>, d: Id)
    requires Start(s) && d in s.clients
    ensures d in Run(s, labels).clients
    ensures ReceivedFromLog(Run(s, labels).cloud.workspace.events, Run(s, labels).clients[d])
    ensures Complete(Run(s, labels).cloud.workspace.events, Run(s, labels).clients[d]) <==>
            forall i | 0 <= i < |labels| :: !TruncatedAt(s, labels, d, i)
  {
    hide Next, Window, Insert, MaxSequence;
    ProjectsFixed(s, labels);
    RunKeeps(s, labels);
    var final := Run(s, labels);
    assert ClientOk(final.cloud.workspace.events, d, final.clients[d], final.sent);
    if labels == [] {
      assert s.clients[d].outbox == EMPTY_OUTBOX;
    } else {
      var last := |labels| - 1;
      ReplicaExactly(s, labels[..last], d);
      RunKeeps(s, labels[..last]);
      NextComplete(Run(s, labels[..last]), labels[last], d);
      forall i | 0 <= i < last ensures TruncatedAt(s, labels, d, i) == TruncatedAt(s, labels[..last], d, i) {
        assert labels[..last][..i] == labels[..i];
      }
      assert TruncatedAt(s, labels, d, last) == Truncated(Run(s, labels[..last]), labels[last], d);
    }
  }

  lemma {:induction false} RunConcat(s: System, a: seq<Label>, b: seq<Label>)
    ensures Run(s, a + b) == Run(Run(s, a), b)
  {
    if b == [] {
      assert a + b == a;
    } else {
      RunConcat(s, a, b[..|b| - 1]);
      assert (a + b)[..|a + b| - 1] == a + b[..|b| - 1];
    }
  }

  predicate Remembers(after: Outbox, before: Outbox) {
    && before.cursor <= after.cursor
    && (forall n | n in before.received :: n in after.received && after.received[n] == before.received[n])
    && forall id | id in before.rows ::
         id in after.rows && after.rows[id].item == before.rows[id].item
         && (before.rows[id].acknowledgedAt.Some? ==> after.rows[id].acknowledgedAt.Some?)
  }

  lemma NextRemembers(s: System, l: Label, d: Id)
    requires Invariant(s) && d in s.clients
    ensures d in Next(s, l).clients && Remembers(Next(s, l).clients[d].outbox, s.clients[d].outbox)
  {
    hide RowsAfter, Batch, MaxSequence, Window, Insert, IsPending;
    var c := s.clients[d];
    assert ClientOk(s.cloud.workspace.events, d, c, s.sent);
    if l == ApplyLocally(d) && Enabled(s, l) {
      forall n | n in c.outbox.received
        ensures n in Insert(c.outbox.received, c.phase.reply.events)
        ensures Insert(c.outbox.received, c.phase.reply.events)[n] == c.outbox.received[n]
      {
        InsertMeaning(c.outbox.received, c.phase.reply.events, n);
      }
    }
  }

  lemma RemembersTransitive(a: Outbox, b: Outbox, c: Outbox)
    requires Remembers(b, a) && Remembers(c, b)
    ensures Remembers(c, a)
  {}

  /** Cursors never move back, and nothing queued, received or acknowledged is ever forgotten. */
  lemma {:induction false} DeviceNeverForgets(s: System, labels: seq<Label>, more: seq<Label>, d: Id)
    requires Start(s) && d in s.clients
    ensures d in Run(s, labels).clients && d in Run(s, labels + more).clients
    ensures Remembers(Run(s, labels + more).clients[d].outbox, Run(s, labels).clients[d].outbox)
  {
    ProjectsFixed(s, labels);
    if more == [] {
      assert labels + more == labels;
    } else {
      var fewer := labels + more[..|more| - 1];
      assert (labels + more)[..|labels + more| - 1] == fewer;
      DeviceNeverForgets(s, labels, more[..|more| - 1], d);
      RunKeeps(s, fewer);
      NextRemembers(Run(s, fewer), more[|more| - 1], d);
      var mid := Run(s, fewer);
      var end := Next(mid, more[|more| - 1]);
      assert Run(s, labels + more) == end;
      RemembersTransitive(Run(s, labels).clients[d].outbox, mid.clients[d].outbox, end.clients[d].outbox);
    }
  }
}
