/** One synchronisation round as a run of the system, and the backlog that a round skips. */
module SyncRounds {
  import opened Prelude
  import opened DurableQueue
  import opened CloudEvents
  import opened OutboxRows
  import opened DeviceSync
  import opened SyncGuarantees
  import CloudLog

  // ---------------------------------------------------------------- a backlog that skips

  const FRESH_PAIR := System(Cloud(map[5 := DeviceRow(1, Online, "", 0, 0)], CloudLog.NO_EVENTS),
                             map[5 := Client(1, EMPTY_OUTBOX, Idle)], [], [])

  /** n events recorded in the browser while the device is away. */
  function Recordings(n: nat): seq<Label> {
    seq(n, i requires 0 <= i < n => CloudStep(CloudLog.Record(1, None, TaskStatusChanged(None), 7, i, i, None, 0)))
  }

  const ONE_ROUND := [Send(5, [], None), Serve(0, [], 0), Receive(5, 0), AckLocally(5, 0), ApplyLocally(5)]

  /** The first n rows of project 1, with event ids counted from 0. */
  predicate Counted(events: seq<Event>, n: nat) {
    |events| == n && forall i | 0 <= i < n ::
        events[i].sequence == i + 1 && events[i].project == 1 && events[i].eventId == i
  }

  lemma RecordingLogged(s: System, n: nat)
    requires Counted(s.cloud.workspace.events, n)
    ensures var t := Next(s, CloudStep(CloudLog.Record(1, None, TaskStatusChanged(None), 7, n, n, None, 0)));
            t == s.(cloud := s.cloud.(workspace := t.cloud.workspace)) && Counted(t.cloud.workspace.events, n + 1)
  {}

  lemma NothingCounted()
    ensures Counted([], 0)
  {}

  lemma {:induction false} RecordingsLogged(n: nat)
    ensures var s := Run(FRESH_PAIR, Recordings(n));
            s == FRESH_PAIR.(cloud := FRESH_PAIR.cloud.(workspace := s.cloud.workspace))
                && Counted(s.cloud.workspace.events, n)
  {
    hide Next, Counted;
    if n == 0 {
      NothingCounted();
    } else {
      RecordingsLogged(n - 1);
      RecordingLogged(Run(FRESH_PAIR, Recordings(n - 1)), n - 1);
      var l := CloudStep(CloudLog.Record(1, None, TaskStatusChanged(None), 7, n - 1, n - 1, None, 0));
      RunSnoc(FRESH_PAIR, Recordings(n - 1), l);
      assert Recordings(n) == Recordings(n - 1) + [l];
    }
  }

  lemma {:induction false} WholeWindow(events: seq<Event>)
    requires forall i | 0 <= i < |events| :: events[i].sequence == i + 1 && events[i].project == 1
    ensures RowsAfter(events, 1, 0) == events && MaxSequence(events, 1) == |events|
  {
    if events != [] {
      WholeWindow(events[..|events| - 1]);
    }
  }

  lemma RunSnoc(s: System, labels: seq<Label>, l: Label)
    ensures Run(s, labels + [l]) == Next(Run(s, labels), l)
  {}

  lemma RunFive(s: System, a: Label, b: Label, c: Label, d: Label, e: Label)
    ensures Run(s, [a, b, c, d, e]) == Next(Next(Next(Next(Next(s, a), b), c), d), e)
  {
    hide Next;
    RunSnoc(s, [], a);
    RunSnoc(s, [a], b);
    RunSnoc(s, [a, b], c);
    RunSnoc(s, [a, b, c], d);
    RunSnoc(s, [a, b, c, d], e);
    assert [] + [a] == [a] && [a] + [b] == [a, b] && [a, b] + [c] == [a, b, c];
    assert [a, b, c] + [d] == [a, b, c, d] && [a, b, c, d] + [e] == [a, b, c, d, e];
  }

  /** The labels of one undisturbed round of device d. */
  function Round(s: System, d: Id, pending: seq<Id>, inventory: Option<string>, drafts: seq<Draft>, at: Stamp,
                 localAt: Stamp): seq<Label> {
    [Send(d, pending, inventory), Serve(|s.sent|, drafts, at), Receive(d, |s.answers|), AckLocally(d, localAt),
     ApplyLocally(d)]
  }

  /** What a round does to the device, by how far it gets: the reply is lost, the device crashes after it acknowledged
      locally, or it finishes. */
  datatype Reach = ReplyLost | CrashedAfterAck | Finished

  function OutboxAfter(o: Outbox, reply: Reply, localAt: Stamp, reach: Reach): Outbox {
    match reach
    case ReplyLost => o
    case CrashedAfterAck => Acknowledge(o, reply.accepted, localAt)
    case Finished => Apply(Acknowledge(o, reply.accepted, localAt), reply.events, reply.serverCursor)
  }

  /** The labels of a round that gets as far as `reach`. */
  function RoundUpTo(s: System, d: Id, pending: seq<Id>, inventory: Option<string>, drafts: seq<Draft>, at: Stamp,
                     localAt: Stamp, reach: Reach): seq<Label> {
    var round := Round(s, d, pending, inventory, drafts, at, localAt);
    match reach
    case ReplyLost => [round[0], round[1], Crash(d)]
    case CrashedAfterAck => [round[0], round[1], round[2], round[3], Crash(d)]
    case Finished => round
  }

  /** A device can start a round: it is idle, holds the pending list, and the server would serve it. */
  predicate CanRound(s: System, d: Id, pending: seq<Id>, inventory: Option<string>, drafts: seq<Draft>, at: Stamp) {
    && d in s.clients && s.clients[d].phase == Idle && IsPending(s.clients[d].outbox.rows, PENDING_LIMIT, pending)
    && MutationsOf(drafts) == ReadRows(s.clients[d].outbox.rows, pending)
    && Sync(s.cloud, s.clients[d].project, d, s.clients[d].outbox.cursor, drafts, inventory, at).Served?
  }

  lemma RequestAndServe(s: System, d: Id, pending: seq<Id>, inventory: Option<string>, drafts: seq<Draft>, at: Stamp)
    requires CanRound(s, d, pending, inventory, drafts, at)
    ensures var c := s.clients[d];
            var served := Sync(s.cloud, c.project, d, c.outbox.cursor, drafts, inventory, at);
            var t := Next(Next(s, Send(d, pending, inventory)), Serve(|s.sent|, drafts, at));
            && t.cloud == served.cloud && t.answers == s.answers + [Answer(|s.sent|, served.reply)]
            && t.clients == s.clients[d := c.(phase := Waiting(|s.sent|))]
  {}

  lemma ReceiveAndFinish(t: System, d: Id, k: nat, localAt: Stamp, request: nat)
    requires d in t.clients && k < |t.answers| && t.clients[d].phase == Waiting(request)
               && t.answers[k].request == request
    ensures var c := t.clients[d];
            var reply := t.answers[k].reply;
            var t3 := Next(t, Receive(d, k));
            var t4 := Next(t3, AckLocally(d, localAt));
            && Next(t, Crash(d)) == t.(clients := t.clients[d := c.(phase := Idle)])
            && var crashed := c.(outbox := OutboxAfter(c.outbox, reply, localAt, CrashedAfterAck), phase := Idle);
            && var finished := c.(outbox := OutboxAfter(c.outbox, reply, localAt, Finished), phase := Idle);
            && Next(t4, Crash(d)) == t.(clients := t.clients[d := crashed])
            && Next(t4, ApplyLocally(d)) == t.(clients := t.clients[d := finished])
  {}

  /** One round, however far it gets, is a run of the system, and this is what it leaves behind. */
  lemma RoundIsRun(s: System, d: Id, pending: seq<Id>, inventory: Option<string>, drafts: seq<Draft>, at: Stamp,
                   localAt: Stamp, reach: Reach)
    requires CanRound(s, d, pending, inventory, drafts, at)
    ensures var c := s.clients[d];
            var served := Sync(s.cloud, c.project, d, c.outbox.cursor, drafts, inventory, at);
            var t := Run(s, RoundUpTo(s, d, pending, inventory, drafts, at, localAt, reach));
            && t.cloud == served.cloud
            && t.clients == s.clients[d := c.(outbox := OutboxAfter(c.outbox, served.reply, localAt, reach))]
  {
    hide Next, Run, OutboxAfter, Sync, IsPending;
    var r := Round(s, d, pending, inventory, drafts, at, localAt);
    RequestAndServe(s, d, pending, inventory, drafts, at);
    var t := Next(Next(s, r[0]), r[1]);
    ReceiveAndFinish(t, d, |s.answers|, localAt, |s.sent|);
    RunFive(s, r[0], r[1], r[2], r[3], r[4]);
    RunFive(s, r[0], r[1], r[2], r[3], Crash(d));
    RunThree(s, r[0], r[1], Crash(d));
    LostReplyKeepsOutbox(s.clients[d].outbox, localAt);
  }

  lemma LostReplyKeepsOutbox(o: Outbox, localAt: Stamp)
    ensures forall reply :: OutboxAfter(o, reply, localAt, ReplyLost) == o
  {}

  lemma RunThree(s: System, a: Label, b: Label, c: Label)
    ensures Run(s, [a, b, c]) == Next(Next(Next(s, a), b), c)
  {
    hide Next;
    RunSnoc(s, [], a);
    RunSnoc(s, [a], b);
    RunSnoc(s, [a, b], c);
    assert [] + [a] == [a] && [a] + [b] == [a, b] && [a, b] + [c] == [a, b, c];
  }

  lemma FirstPageReceived(events: seq<Event>, k: nat)
    requires forall i | 0 <= i < |events| :: events[i].sequence == i + 1
    ensures k in Insert(map[], FirstPage(events)) <==> 1 <= k <= Min(|events|, PAGE)
  {
    InsertMeaning(map[], FirstPage(events), k);
    if 1 <= k <= Min(|events|, PAGE) {
      assert FirstPage(events)[k - 1].sequence == k;
    }
  }

  /** A sync call that pushes nothing changes no event data. */
  lemma PullOnly(c: Cloud)
    requires Authorised(c.devices, 1, 5)
    ensures var served := Sync(c, 1, 5, 0, [], None, 0);
            && served.Served? && served.cloud.workspace == c.workspace && served.reply.accepted == []
            && served.reply.events == FirstPage(RowsAfter(c.workspace.events, 1, 0))
            && served.reply.serverCursor == MaxSequence(c.workspace.events, 1)
  {}

  /** After n recorded events and one clean round, the device holds events 1..min(n, 500) and cursor n. */
  lemma OneRound(n: nat, k: nat)
    ensures var s := Run(FRESH_PAIR, Recordings(n) + ONE_ROUND);
            && 5 in s.clients && s.clients[5].outbox.cursor == n
            && s.cloud.workspace == Run(FRESH_PAIR, Recordings(n)).cloud.workspace
            && (k in s.clients[5].outbox.received <==> 1 <= k <= Min(n, PAGE))
  {
    hide Next, Run, Sync, RowsAfter, MaxSequence, Insert;
    RecordingsLogged(n);
    var s0 := Run(FRESH_PAIR, Recordings(n));
    var w := s0.cloud.workspace;
    assert s0 == FRESH_PAIR.(cloud := FRESH_PAIR.cloud.(workspace := w));
    WholeWindow(w.events);
    RunConcat(FRESH_PAIR, Recordings(n), ONE_ROUND);
    PullOnly(s0.cloud);
    assert MutationsOf([]) == ReadRows(map[], []);
    RoundIsRun(s0, 5, [], None, [], 0, 0, Finished);
    assert Mark(EMPTY_OUTBOX.rows, [], 0) == map[];
    FirstPageReceived(w.events, k);
  }

  /** The unconditional form of the replica law is false: after 501 cloud events one ordinary round moves the
      cursor past event 501 without delivering it. */
  lemma BacklogOf501Skips()
    ensures var s := Run(FRESH_PAIR, Recordings(501) + ONE_ROUND);
            && Start(FRESH_PAIR) && 5 in s.clients && s.clients[5].outbox.cursor == 501
            && 501 !in s.clients[5].outbox.received && !Complete(s.cloud.workspace.events, s.clients[5])
  {
    OneRound(501, 501);
    RecordingsLogged(501);
    ProjectsFixed(FRESH_PAIR, Recordings(501) + ONE_ROUND);
    var s := Run(FRESH_PAIR, Recordings(501) + ONE_ROUND);
    assert s.cloud.workspace.events[500].sequence == 501;
  }
}
