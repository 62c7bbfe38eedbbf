/** What one synchronisation call leaves on the device: which queued events are acknowledged, what is received, and
    where the cursor stands, for every point at which it may stop. */
module RoundOutcomes {
  import opened Prelude
  import opened CloudEvents
  import opened DurableQueue
  import opened OutboxRows
  import opened DeviceSync
  import opened SyncRounds
  import CloudLog
  import BatchAnswers
  import BlockedOutbox

  /** Acknowledgements are never taken out of an answer. */
  lemma {:induction false} AcceptedGrows(w: Workspace, project: Id, device: Id, drafts: seq<Draft>, at: Stamp, n: nat)
    requires n <= |drafts| && Batch(w, project, device, drafts, at).Some?
    ensures Batch(w, project, device, drafts[..n], at).Some?
    ensures Batch(w, project, device, drafts[..n], at).value.accepted
              <= Batch(w, project, device, drafts, at).value.accepted
    ensures Batch(w, project, device, drafts[..n], at).value.workspace.events
              <= Batch(w, project, device, drafts, at).value.workspace.events
  {
    hide Batch, Judge;
    if n < |drafts| {
      var few := drafts[..|drafts| - 1];
      BatchStep(w, project, device, drafts, at);
      AcceptedGrows(w, project, device, few, at, n);
      assert few[..n] == drafts[..n];
      StoredExtends(Batch(w, project, device, few, at).value.workspace, project, device, drafts[|few|], at);
    } else {
      assert drafts[..n] == drafts;
    }
  }

  lemma StoredExtends(w: Workspace, project: Id, device: Id, draft: Draft, at: Stamp)
    ensures var v := Judge(w, project, device, draft, at); v.Stored? ==> w.events <= v.next.events
  {}

  lemma {:induction false} AcceptedArePushed(w: Workspace, project: Id, device: Id, drafts: seq<Draft>, at: Stamp,
                                             id: Id)
    requires Batch(w, project, device, drafts, at).Some? && id in Batch(w, project, device, drafts, at).value.accepted
    ensures exists i | 0 <= i < |drafts| :: drafts[i].mutation.eventId == id
  {
    hide Batch, Judge;
    if drafts == [] {
      BatchNil(w, project, device, at);
    } else {
      var few := drafts[..|drafts| - 1];
      BatchStep(w, project, device, drafts, at);
      if id in Batch(w, project, device, few, at).value.accepted {
        AcceptedArePushed(w, project, device, few, at, id);
        var i :| 0 <= i < |few| && few[i].mutation.eventId == id;
        assert drafts[i].mutation.eventId == id;
      } else {
        assert drafts[|few|].mutation.eventId == id;
      }
    }
  }

  /** A pushed mutation is acknowledged if and only if the log holds its event afterwards. */
  lemma AcceptedExactlyLogged(w: Workspace, project: Id, device: Id, drafts: seq<Draft>, at: Stamp, i: nat)
    requires i < |drafts| && Batch(w, project, device, drafts, at).Some?
    ensures var p := Batch(w, project, device, drafts, at).value;
            drafts[i].mutation.eventId in p.accepted <==>
            Logged(p.workspace.events, project, drafts[i].mutation.eventId)
  {
    hide Batch, Logged;
    var id := drafts[i].mutation.eventId;
    BatchExtendsLog(w, project, device, drafts, at);
    if Logged(w.events, project, id) {
      BatchAnswers.BatchAnswered(w, project, device, drafts, at, i);
      AcceptedGrows(w, project, device, drafts, at, i + 1);
      BatchExtendsLog(w, project, device, drafts[..i], at);
      var before := Batch(w, project, device, drafts[..i], at).value;
      var after := Batch(w, project, device, drafts[..i + 1], at).value;
      KnownIsLogged(before.workspace, project, drafts[i].mutation);
      assert after.accepted == before.accepted + [id];
      assert after.accepted[|before.accepted|] == id;
    }
  }

  lemma KnownIsLogged(w: Workspace, project: Id, m: Mutation)
    ensures BatchAnswers.Known(w, project, m) <==> Logged(w.events, project, m.eventId)
  {}

  /** The row of a queued event after a call. */
  predicate EventSettled(before: QueueRow<Mutation>, after: QueueRow<Mutation>, sent: bool, logged: bool,
                         localAt: Stamp, reach: Reach) {
    && after.item == before.item && after.createdAt == before.createdAt
    && after.acknowledgedAt == if reach != ReplyLost && sent && logged then Some(localAt) else before.acknowledgedAt
  }

  /** The received events after a call: those that were there, and, when it finished, each delivered one under its
      sequence unless there was one. */
  predicate EventsReceived(before: map<nat, Event>, after: map<nat, Event>, delivered: seq<Event>, finished: bool) {
    && (forall n | n in before :: n in after && after[n] == before[n])
    && (forall n | n in after && n !in before :: finished && after[n] in delivered && after[n].sequence == n)
    && (finished ==> forall e | e in delivered :: e.sequence in after)
  }

  lemma ReceivedSettles(received: map<nat, Event>, delivered: seq<Event>)
    ensures EventsReceived(received, Insert(received, delivered), delivered, true)
  {
    hide Insert;
    forall n: nat {
      InsertMeaning(received, delivered, n);
    }
  }

  /** After a call that the server answers, however far the device gets: exactly the events it sent and the cloud now
      holds are acknowledged, provided the answer arrived; and exactly when the call finished, the delivered events are
      received and the cursor is the server's. */
  lemma RoundSettles(s: System, labels: seq<Label>, d: Id, pending: seq<Id>, inventory: Option<string>,
                     drafts: seq<Draft>, at: Stamp, localAt: Stamp, reach: Reach, id: Id)
    requires Start(s) && CanRound(Run(s, labels), d, pending, inventory, drafts, at)
    ensures var before := Run(s, labels);
            var c := before.clients[d];
            var reply := Sync(before.cloud, c.project, d, c.outbox.cursor, drafts, inventory, at).reply;
            var t := Run(before, RoundUpTo(before, d, pending, inventory, drafts, at, localAt, reach));
            && d in t.clients
            && (id in c.outbox.rows ==>
                  && id in t.clients[d].outbox.rows
                  && EventSettled(c.outbox.rows[id], t.clients[d].outbox.rows[id], id in pending,
                                  Logged(t.cloud.workspace.events, c.project, id), localAt, reach))
            && EventsReceived(c.outbox.received, t.clients[d].outbox.received, reply.events, reach == Finished)
            && t.clients[d].outbox.cursor == if reach == Finished then reply.serverCursor else c.outbox.cursor
  {
    hide Run, Sync, RoundUpTo, Insert, IsPending, Logged, EventsReceived, Start;
    var before := Run(s, labels);
    var c := before.clients[d];
    var served := Sync(before.cloud, c.project, d, c.outbox.cursor, drafts, inventory, at);
    RoundIsRun(before, d, pending, inventory, drafts, at, localAt, reach);
    BlockedOutbox.RunKeyed(s, labels, d);
    ReceivedSettles(c.outbox.received, served.reply.events);
    NothingReceived(c.outbox.received, served.reply.events);
    if id in c.outbox.rows {
      AcknowledgedExactly(before, d, pending, inventory, drafts, at, id);
    }
  }

  lemma NothingReceived(received: map<nat, Event>, delivered: seq<Event>)
    ensures EventsReceived(received, received, delivered, false)
  {}

  lemma AcknowledgedExactly(s: System, d: Id, pending: seq<Id>, inventory: Option<string>, drafts: seq<Draft>,
                            at: Stamp, id: Id)
    requires CanRound(s, d, pending, inventory, drafts, at) && BlockedOutbox.Keyed(s.clients[d].outbox.rows)
    ensures var c := s.clients[d];
            var served := Sync(s.cloud, c.project, d, c.outbox.cursor, drafts, inventory, at);
            id in served.reply.accepted <==> id in pending && Logged(served.cloud.workspace.events, c.project, id)
  {
    hide Batch, Logged, RowsAfter, MaxSequence;
    var c := s.clients[d];
    var rows := c.outbox.rows;
    assert MutationsOf(drafts) == ReadRows(rows, pending);
    forall i | 0 <= i < |drafts| ensures drafts[i].mutation.eventId == pending[i] {
      assert MutationsOf(drafts)[i] == rows[pending[i]].item;
    }
    var w := s.cloud.workspace;
    if id in pending {
      var i :| 0 <= i < |pending| && pending[i] == id;
      AcceptedExactlyLogged(w, c.project, d, drafts, at, i);
    }
    if id in Batch(w, c.project, d, drafts, at).value.accepted {
      AcceptedArePushed(w, c.project, d, drafts, at, id);
    }
  }

  // ---------------------------------------------------------------- what a device has queued

  /** The first mutation that a run queues on a device under an event id, with the time it was queued. */
  function FirstQueued(labels: seq<Label>, d: Id, id: Id): Option<(Mutation, Stamp)> {
    if labels == [] then None
    else
      var earlier := FirstQueued(labels[..|labels| - 1], d, id);
      var last := labels[|labels| - 1];
      if earlier.None? && last.Queue? && last.device == d && last.mutation.eventId == id
      then Some((last.mutation, last.at)) else earlier
  }

  /** The queue holds, under every event id, exactly the first mutation that was queued under it, over every run. */
  lemma {:induction false} QueueKeepsFirst(s: System, labels: seq<Label>, d: Id, id: Id)
    requires Start(s) && d in s.clients
    ensures d in Run(s, labels).clients
    ensures var rows := Run(s, labels).clients[d].outbox.rows;
            match FirstQueued(labels, d, id)
            case None => id !in rows
            case Some(queued) => id in rows && rows[id].item == queued.0 && rows[id].createdAt == queued.1
  {
    hide Sync, Insert, IsPending, CloudLog.After;
    if labels != [] {
      QueueKeepsFirst(s, labels[..|labels| - 1], d, id);
    }
  }
}
