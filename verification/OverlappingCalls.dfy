/**
 The whole system with any number of calls at once on every outbox: a device asks whenever it likes, and handles any
 answer to any of its requests at any time, in any order, in part or not at all.
 */
module OverlappingCalls {
  import opened Prelude
  import opened CloudEvents
  import opened DurableQueue
  import opened OutboxRows
  import opened DeviceSync
  import CloudLog

  /** `Base` is a step of the cloud or the network, or a device that queues. */
  datatype Act =
    | Base(step: DeviceSync.Label)
    | Ask(device: Id, pending: seq<Id>, inventory: Option<string>)
    | Acknowledging(answer: nat, at: Stamp)
    | Applying(answer: nat)

  predicate InBase(l: DeviceSync.Label) {
    l.Queue? || l.Serve? || l.CloudStep? || l.Registry?
  }

  /** The request is one of a device that is there. */
  predicate Addressed(s: System, answer: nat) {
    && answer < |s.answers| && s.answers[answer].request < |s.sent|
    && s.sent[s.answers[answer].request].device in s.clients
  }

  function Addressee(s: System, answer: nat): Id
    requires Addressed(s, answer)
  {
    s.sent[s.answers[answer].request].device
  }

  function WithOutbox(s: System, d: Id, o: Outbox): System
    requires d in s.clients
  {
    s.(clients := s.clients[d := s.clients[d].(outbox := o)])
  }

  function Next(s: System, l: Act): System {
    match l
    case Base(k) => if InBase(k) then DeviceSync.Next(s, k) else s
    case Ask(d, pending, inventory) =>
      if d !in s.clients || !IsPending(s.clients[d].outbox.rows, PENDING_LIMIT, pending) then s
      else
        var c := s.clients[d];
        s.(sent := s.sent + [Request(d, c.project, c.outbox.cursor, ReadRows(c.outbox.rows, pending), inventory)])
    case Acknowledging(answer, at) =>
      if !Addressed(s, answer) then s
      else
        var d := Addressee(s, answer);
        WithOutbox(s, d, Acknowledge(s.clients[d].outbox, s.answers[answer].reply.accepted, at))
    case Applying(answer) =>
      if !Addressed(s, answer) then s
      else
        var d := Addressee(s, answer);
        var reply := s.answers[answer].reply;
        WithOutbox(s, d, Apply(s.clients[d].outbox, reply.events, reply.serverCursor))
  }

  function Run(s: System, acts: seq<Act>): System {
    if acts == [] then s else Next(Run(s, acts[..|acts| - 1]), acts[|acts| - 1])
  }

  // ---------------------------------------------------------------- invariant

  /** Everything received is a row of the log. */
  predicate FromLog(events: seq<Event>, c: Client) {
    forall n | n in c.outbox.received ::
      1 <= n <= |events| && events[n - 1].project == c.project && c.outbox.received[n] == events[n - 1]
  }

  predicate DeviceOk(events: seq<Event>, c: Client) {
    AcksLogged(events, c) && FromLog(events, c) && c.outbox.cursor <= MaxSequence(events, c.project)
  }

  /** Cloud, requests and answers are as in a system without devices. */
  predicate Sound(s: System) {
    && Invariant(s.(clients := map[]))
    && (forall d | d in s.clients :: DeviceOk(s.cloud.workspace.events, s.clients[d]))
    && forall k | 0 <= k < |s.sent| && s.sent[k].device in s.clients ::
         s.sent[k].project == s.clients[s.sent[k].device].project
  }

  lemma DeviceOkGrows(events: seq<Event>, longer: seq<Event>, c: Client)
    requires DeviceOk(events, c) && events <= longer
    ensures DeviceOk(longer, c)
  {
    hide MaxSequence, Logged;
    MaxSequenceGrows(events, longer, c.project);
    forall id | id in c.outbox.rows && c.outbox.rows[id].acknowledgedAt.Some? ensures Logged(longer, c.project, id) {
      LoggedMonotone(events, longer, c.project, id);
    }
  }

  lemma CloudActSound(s: System, k: DeviceSync.Label)
    requires Sound(s) && InBase(k) && !k.Queue?
    ensures Sound(DeviceSync.Next(s, k))
  {
    hide Invariant, DeviceOk, Sync, CloudLog.After;
    var bare := s.(clients := map[]);
    NextKeeps(bare, k);
    assert DeviceSync.Next(s, k) == DeviceSync.Next(bare, k).(clients := s.clients);
    forall d | d in s.clients ensures DeviceOk(DeviceSync.Next(s, k).cloud.workspace.events, s.clients[d]) {
      DeviceOkGrows(s.cloud.workspace.events, DeviceSync.Next(s, k).cloud.workspace.events, s.clients[d]);
    }
  }

  lemma QueueSound(s: System, k: DeviceSync.Label)
    requires Sound(s) && k.Queue?
    ensures Sound(DeviceSync.Next(s, k))
  {
    hide Invariant, MaxSequence, Logged;
    assert DeviceSync.Next(s, k).(clients := map[]) == s.(clients := map[]);
  }

  lemma AskSound(s: System, d: Id, pending: seq<Id>, inventory: Option<string>)
    requires Sound(s)
    ensures Sound(Next(s, Ask(d, pending, inventory)))
  {
    hide MaxSequence, ReplyOk, IsPending;
    if d in s.clients {
      assert DeviceOk(s.cloud.workspace.events, s.clients[d]);
    }
  }

  lemma AnswerFits(s: System, answer: nat)
    requires Sound(s) && Addressed(s, answer)
    ensures var c := s.clients[Addressee(s, answer)];
            var r := s.sent[s.answers[answer].request];
            && r.project == c.project && DeviceOk(s.cloud.workspace.events, c)
            && ReplyOk(s.cloud.workspace.events, c.project, r.cursor, s.answers[answer].reply)
            && Dense(s.cloud.workspace.events)
  {
    hide ReplyOk, DeviceOk;
    assert AnswerOk(s.cloud.workspace.events, s.sent, s.answers[answer]);
  }

  lemma OutboxSound(s: System, d: Id, o: Outbox)
    requires Sound(s) && d in s.clients && DeviceOk(s.cloud.workspace.events, s.clients[d].(outbox := o))
    ensures Sound(WithOutbox(s, d, o))
  {
    hide Invariant, DeviceOk;
    assert WithOutbox(s, d, o).(clients := map[]) == s.(clients := map[]);
  }

  lemma ApplyFromLog(events: seq<Event>, c: Client, cursor: nat, reply: Reply)
    requires Dense(events) && FromLog(events, c) && ReplyOk(events, c.project, cursor, reply)
    ensures FromLog(events, c.(outbox := Apply(c.outbox, reply.events, reply.serverCursor)))
  {
    hide Window, MaxSequence, Insert;
    WindowMeaning(events, c.project, cursor, reply.serverCursor);
    var received := Insert(c.outbox.received, reply.events);
    forall n | n in received
      ensures 1 <= n <= |events| && events[n - 1].project == c.project && received[n] == events[n - 1]
    {
      InsertMeaning(c.outbox.received, reply.events, n);
      if n !in c.outbox.received {
        var k :| 0 <= k < |reply.events| && reply.events[k] == received[n];
        assert reply.events[k] == Window(events, c.project, cursor, reply.serverCursor)[k];
      }
    }
  }

  lemma NextSound(s: System, l: Act)
    requires Sound(s)
    ensures Sound(Next(s, l))
  {
    hide Sound, Window, MaxSequence, Logged, Insert, DeviceSync.Next;
    match l
    case Base(k) =>
      if k.Queue? {
        QueueSound(s, k);
      } else if InBase(k) {
        CloudActSound(s, k);
      }
    case Ask(d, pending, inventory) => AskSound(s, d, pending, inventory);
    case Acknowledging(answer, at) =>
      if Addressed(s, answer) {
        AnswerFits(s, answer);
        var d := Addressee(s, answer);
        OutboxSound(s, d, Acknowledge(s.clients[d].outbox, s.answers[answer].reply.accepted, at));
      }
    case Applying(answer) =>
      if Addressed(s, answer) {
        AnswerFits(s, answer);
        var d := Addressee(s, answer);
        var reply := s.answers[answer].reply;
        ApplyFromLog(s.cloud.workspace.events, s.clients[d], s.sent[s.answers[answer].request].cursor, reply);
        OutboxSound(s, d, Apply(s.clients[d].outbox, reply.events, reply.serverCursor));
      }
  }

  lemma StartSound(s: System)
    requires Start(s)
    ensures Sound(s)
  {}

  lemma {:induction false} RunSound(s: System, acts: seq<Act>)
    requires Start(s)
    ensures Sound(Run(s, acts))
  {
    hide Next, Sound, Start;
    if acts == [] {
      StartSound(s);
    } else {
      RunSound(s, acts[..|acts| - 1]);
      NextSound(Run(s, acts[..|acts| - 1]), acts[|acts| - 1]);
    }
  }

  // ---------------------------------------------------------------- the cloud of a run is a run of the event store

  function CloudSteps(s: System, acts: seq<Act>): seq<CloudLog.Step> {
    if acts == [] then []
    else
      var before := Run(s, acts[..|acts| - 1]);
      var steps := CloudSteps(s, acts[..|acts| - 1]);
      match acts[|acts| - 1]
      case Base(Serve(k, drafts, at)) =>
        if Enabled(before, Serve(k, drafts, at))
            && Authorised(before.cloud.devices, before.sent[k].project, before.sent[k].device)
        then steps + [CloudLog.Push(before.sent[k].project, before.sent[k].device, drafts, at)] else steps
      case Base(CloudStep(step)) => if step.Push? then steps else steps + [step]
      case _ => steps
  }

  lemma {:induction false} CloudRuns(s: System, acts: seq<Act>)
    ensures Run(s, acts).cloud.workspace == CloudLog.Run(s.cloud.workspace, CloudSteps(s, acts))
  {
    hide Batch, RowsAfter, MaxSequence, CloudLog.RecordWrite, Insert, Mark, Put, IsPending;
    if acts != [] {
      CloudRuns(s, acts[..|acts| - 1]);
      var steps := CloudSteps(s, acts[..|acts| - 1]);
      var all := CloudSteps(s, acts);
      if all != steps {
        assert all[..|all| - 1] == steps;
      }
    }
  }

  // ---------------------------------------------------------------- guarantees

  /** With any number of calls at once: an event id is logged at most once, every locally acknowledged id is logged,
      every received row is the log's row, and each newly logged row was projected once, in log order. */
  lemma ExactlyOnceAnyway(s: System, acts: seq<Act>)
    requires Start(s)
    ensures var final := Run(s, acts);
            var events := final.cloud.workspace.events;
            var journal := CloudLog.Journal(s.cloud.workspace, CloudSteps(s, acts));
            && CloudLog.LogWellFormed(events)
            && (forall d | d in final.clients ::
                  AcksLogged(events, final.clients[d]) && FromLog(events, final.clients[d]))
            && events == s.cloud.workspace.events + CloudLog.LogOf(journal)
            && CloudLog.RedoAll(s.cloud.workspace.tables, journal) == Applied(final.cloud.workspace.tables)
  {
    hide Run, CloudSteps;
    RunSound(s, acts);
    CloudRuns(s, acts);
    CloudLog.LogDeterminesTables(s.cloud.workspace, CloudSteps(s, acts));
    var final := Run(s, acts);
    forall d | d in final.clients
      ensures AcksLogged(final.cloud.workspace.events, final.clients[d])
              && FromLog(final.cloud.workspace.events, final.clients[d])
    {
      assert DeviceOk(final.cloud.workspace.events, final.clients[d]);
    }
  }

  /** Nothing but the cursor is taken back. */
  predicate Retains(after: Outbox, before: Outbox) {
    && (forall n | n in before.received :: n in after.received && after.received[n] == before.received[n])
    && forall id | id in before.rows ::
         id in after.rows && after.rows[id].item == before.rows[id].item
         && (before.rows[id].acknowledgedAt.Some? ==> after.rows[id].acknowledgedAt.Some?)
  }

  lemma ApplyRetains(o: Outbox, events: seq<Event>, serverCursor: nat)
    ensures Retains(Apply(o, events, serverCursor), o)
  {
    hide Insert;
    forall n | n in o.received {
      InsertMeaning(o.received, events, n);
    }
  }

  lemma NextRetains(s: System, l: Act, d: Id)
    requires d in s.clients
    ensures d in Next(s, l).clients && Retains(Next(s, l).clients[d].outbox, s.clients[d].outbox)
  {
    hide Insert, IsPending, Sync, CloudLog.After;
    if l.Applying? && Addressed(s, l.answer) {
      ApplyRetains(s.clients[d].outbox, s.answers[l.answer].reply.events, s.answers[l.answer].reply.serverCursor);
    }
  }

  /** However calls overlap, nothing queued, received or acknowledged is ever lost. */
  lemma {:induction false} OverlapsForgetNothing(s: System, acts: seq<Act>, more: seq<Act>, d: Id)
    requires d in Run(s, acts).clients
    ensures d in Run(s, acts + more).clients
    ensures Retains(Run(s, acts + more).clients[d].outbox, Run(s, acts).clients[d].outbox)
  {
    hide Next;
    if more == [] {
      assert acts + more == acts;
    } else {
      var fewer := acts + more[..|more| - 1];
      assert (acts + more)[..|acts + more| - 1] == fewer;
      OverlapsForgetNothing(s, acts, more[..|more| - 1], d);
      NextRetains(Run(s, fewer), more[|more| - 1], d);
    }
  }
}
