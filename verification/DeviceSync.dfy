/**
 Device synchronisation end to end. Every device and the cloud are state machines; requests and replies
 travel through a network that may delay, repeat or lose them; a device may crash between any two of its
 local transactions. A run is any list of labels.
 */
module DeviceSync {
  import opened Prelude
  import opened CloudEvents
  import opened DurableQueue
  import opened OutboxRows
  import CloudLog

  // ---------------------------------------------------------------- the sync endpoint

  datatype DeviceStatus = Online | Offline | Revoked

  datatype DeviceRow = DeviceRow(project: Id, status: DeviceStatus, inventory: string, lastSeenAt: Stamp,
                                 lastSyncedAt: Stamp)

  datatype Cloud = Cloud(devices: map<Id, DeviceRow>, workspace: Workspace)

  datatype Reply = Reply(accepted: seq<Id>, conflicts: seq<Conflict>, events: seq<Event>, serverCursor: nat)

  datatype Served = Denied | Aborted | Served(cloud: Cloud, reply: Reply)

  const PAGE := 500
  const PENDING_LIMIT := 100

  /** SELECT .. WHERE project_id = ? AND sequence > ? ORDER BY sequence. */
  function RowsAfter(events: seq<Event>, project: Id, cursor: nat): seq<Event> {
    if events == [] then []
    else
      var last := events[|events| - 1];
      var rest := RowsAfter(events[..|events| - 1], project, cursor);
      if last.project == project && last.sequence > cursor then rest + [last] else rest
  }

  /** LIMIT 500. */
  function FirstPage(rows: seq<Event>): seq<Event> {
    if |rows| <= PAGE then rows else rows[..PAGE]
  }

  /** COALESCE(MAX(sequence), 0) over one project. */
  function MaxSequence(events: seq<Event>, project: Id): nat {
    if events == [] then 0
    else
      var last := events[|events| - 1];
      var rest := MaxSequence(events[..|events| - 1], project);
      if last.project == project then Max(last.sequence, rest) else rest
  }

  predicate Authorised(devices: map<Id, DeviceRow>, project: Id, device: Id) {
    device in devices && devices[device].project == project && devices[device].status != Revoked
  }

  /** The event transaction of one sync call. */
  function Sync(c: Cloud, project: Id, device: Id, cursor: nat, drafts: seq<Draft>, inventory: Option<string>,
                at: Stamp): Served {
    if !Authorised(c.devices, project, device) then Denied
    else
      match Batch(c.workspace, project, device, drafts, at)
      case None => Aborted
      case Some(p) =>
        var row := c.devices[device].(status := Online, lastSeenAt := at, lastSyncedAt := at);
        var seen := if inventory.Some? then row.(inventory := inventory.value) else row;
        Served(Cloud(c.devices[device := seen], p.workspace),
               Reply(p.accepted, p.conflicts, FirstPage(RowsAfter(p.workspace.events, project, cursor)),
                     MaxSequence(p.workspace.events, project)))
  }

  // ---------------------------------------------------------------- the system

  /** Where a device is inside one round of synchronisation. */
  datatype Phase = Idle | Waiting(request: nat) | Received(reply: Reply) | Acknowledged(reply: Reply)

  datatype Client = Client(project: Id, outbox: Outbox, phase: Phase)

  datatype Request = Request(device: Id, project: Id, cursor: nat, mutations: seq<Mutation>, inventory: Option<string>)
  datatype Answer = Answer(request: nat, reply: Reply)

  /** `sent` and `answers` are everything that was ever put on the network. */
  datatype System = System(cloud: Cloud, clients: map<Id, Client>, sent: seq<Request>, answers: seq<Answer>)

  datatype Label =
    | Queue(device: Id, mutation: Mutation, at: Stamp)
    | Send(device: Id, pending: seq<Id>, inventory: Option<string>)
    | Serve(request: nat, drafts: seq<Draft>, at: Stamp)
    | Receive(device: Id, answer: nat)
    | AckLocally(device: Id, at: Stamp)
    | ApplyLocally(device: Id)
    | Crash(device: Id)
    | CloudStep(step: CloudLog.Step)
    | Registry(devices: map<Id, DeviceRow>)

  predicate Enabled(s: System, l: Label) {
    match l
    case Queue(d, _, _) => d in s.clients
    case Send(d, pending, _) => d in s.clients && s.clients[d].phase == Idle
        && IsPending(s.clients[d].outbox.rows, PENDING_LIMIT, pending)
    case Serve(k, drafts, _) => k < |s.sent| && MutationsOf(drafts) == s.sent[k].mutations
    case Receive(d, j) => d in s.clients && j < |s.answers| && s.clients[d].phase == Waiting(s.answers[j].request)
    case AckLocally(d, _) => d in s.clients && s.clients[d].phase.Received?
    case ApplyLocally(d) => d in s.clients && s.clients[d].phase.Acknowledged?
    case Crash(d) => d in s.clients
    case CloudStep(step) => !step.Push?
    case Registry(_) => true
  }

  function MutationsOf(drafts: seq<Draft>): seq<Mutation> {
    seq(|drafts|, i requires 0 <= i < |drafts| => drafts[i].mutation)
  }

  /** One step; a label that is not enabled changes nothing. A request may be served any number of times, by a
      server that commits and whose reply is lost, or that aborts. */
  function Next(s: System, l: Label): System {
    if !Enabled(s, l) then s
    else
      match l
      case Queue(d, m, at) => s.(clients :=
                                 s.clients[d := s.clients[d].(outbox := Enqueue(s.clients[d].outbox, m, at))])
      case Send(d, pending, inventory) =>
        var c := s.clients[d];
        s.(sent := s.sent + [Request(d, c.project, c.outbox.cursor, ReadRows(c.outbox.rows, pending), inventory)],
        clients := s.clients[d := c.(phase := Waiting(|s.sent|))])
      case Serve(k, drafts, at) =>
        var r := s.sent[k];
        (match Sync(s.cloud, r.project, r.device, r.cursor, drafts, r.inventory, at)
         case Served(cloud, reply) => s.(cloud := cloud, answers := s.answers + [Answer(k, reply)])
         case _ => s)
      case Receive(d, j) => s.(clients := s.clients[d := s.clients[d].(phase := Received(s.answers[j].reply))])
      case AckLocally(d, at) =>
        var c := s.clients[d];
        s.(clients := s.clients[d := c.(outbox := Acknowledge(c.outbox, c.phase.reply.accepted, at),
                                        phase := Acknowledged(c.phase.reply))])
      case ApplyLocally(d) =>
        var c := s.clients[d];
        s.(clients := s.clients[d := c.(outbox := Apply(c.outbox, c.phase.reply.events, c.phase.reply.serverCursor),
                                        phase := Idle)])
      case Crash(d) => s.(clients := s.clients[d := s.clients[d].(phase := Idle)])
      case CloudStep(step) => s.(cloud := s.cloud.(workspace := CloudLog.After(s.cloud.workspace, step)))
      case Registry(devices) => s.(cloud := s.cloud.(devices := devices))
  }

  function Run(s: System, labels: seq<Label>): System {
    if labels == [] then s else Next(Run(s, labels[..|labels| - 1]), labels[|labels| - 1])
  }

  /** A start: freshly paired devices, an empty network, any well-formed log. */
  predicate Start(s: System) {
    && CloudLog.LogWellFormed(s.cloud.workspace.events)
    && s.sent == [] && s.answers == []
    && forall d | d in s.clients :: s.clients[d].outbox == EMPTY_OUTBOX && s.clients[d].phase == Idle
  }

  // ---------------------------------------------------------------- the cloud of a run is a run of the event store

  /** The event-store transactions of a run, in commit order. */
  function CloudSteps(s: System, labels: seq<Label>): seq<CloudLog.Step> {
    if labels == [] then []
    else
      var before := Run(s, labels[..|labels| - 1]);
      var steps := CloudSteps(s, labels[..|labels| - 1]);
      match labels[|labels| - 1]
      case Serve(k, drafts, at) =>
        if Enabled(before, labels[|labels| - 1])
            && Authorised(before.cloud.devices, before.sent[k].project, before.sent[k].device)
        then steps + [CloudLog.Push(before.sent[k].project, before.sent[k].device, drafts, at)] else steps
      case CloudStep(step) => if step.Push? then steps else steps + [step]
      case _ => steps
  }

  lemma {:induction false} CloudRunsTheStore(s: System, labels: seq<Label>)
    ensures Run(s, labels).cloud.workspace == CloudLog.Run(s.cloud.workspace, CloudSteps(s, labels))
  {
    if labels != [] {
      CloudRunsTheStore(s, labels[..|labels| - 1]);
      var steps := CloudSteps(s, labels[..|labels| - 1]);
      var all := CloudSteps(s, labels);
      if all != steps {
        assert all[..|all| - 1] == steps;
      }
    }
  }

  // ---------------------------------------------------------------- windows of the log

  /** The rows of a project with lo < sequence <= hi, in order. */
  function Window(events: seq<Event>, project: Id, lo: nat, hi: nat): seq<Event> {
    if events == [] then []
    else
      var last := events[|events| - 1];
      var rest := Window(events[..|events| - 1], project, lo, hi);
      if last.project == project && lo < last.sequence <= hi then rest + [last] else rest
  }

  predicate Dense(events: seq<Event>) {
    forall i | 0 <= i < |events| :: events[i].sequence == i + 1
  }

  lemma {:induction false} MaxSequenceBound(events: seq<Event>, project: Id)
    requires Dense(events)
    ensures MaxSequence(events, project) <= |events|
    ensures forall i | 0 <= i < |events| && events[i].project == project ::
              events[i].sequence <= MaxSequence(events, project)
  {
    if events != [] {
      MaxSequenceBound(events[..|events| - 1], project);
    }
  }

  lemma {:induction false} MaxSequenceGrows(events: seq<Event>, longer: seq<Event>, project: Id)
    requires events <= longer
    ensures MaxSequence(events, project) <= MaxSequence(longer, project)
  {
    if |longer| > |events| {
      MaxSequenceGrows(events, longer[..|longer| - 1], project);
    } else {
      assert events == longer;
    }
  }

  /** What the pull returns is the window up to the cursor it returns beside it. */
  lemma {:induction false} RowsAfterIsWindow(events: seq<Event>, project: Id, lo: nat, hi: nat)
    requires forall i | 0 <= i < |events| && events[i].project == project :: events[i].sequence <= hi
    ensures RowsAfter(events, project, lo) == Window(events, project, lo, hi)
  {
    if events != [] {
      RowsAfterIsWindow(events[..|events| - 1], project, lo, hi);
    }
  }

  /** A window below the end of the log does not move when the log grows. */
  lemma {:induction false} WindowStable(events: seq<Event>, longer: seq<Event>, project: Id, lo: nat, hi: nat)
    requires events <= longer && Dense(longer) && hi <= |events|
    ensures Window(longer, project, lo, hi) == Window(events, project, lo, hi)
  {
    if |longer| > |events| {
      WindowStable(events, longer[..|longer| - 1], project, lo, hi);
    } else {
      assert events == longer;
    }
  }

  /** A window lists exactly the rows in range, in increasing sequence. */
  lemma {:induction false} WindowMeaning(events: seq<Event>, project: Id, lo: nat, hi: nat)
    requires Dense(events)
    ensures forall k | 0 <= k < |Window(events, project, lo, hi)| ::
              var e := Window(events, project, lo, hi)[k];
              lo < e.sequence <= hi && e.sequence <= |events| && e == events[e.sequence - 1] && e.project == project
    ensures forall j, k | 0 <= j < k < |Window(events, project, lo, hi)| ::
              Window(events, project, lo, hi)[j].sequence < Window(events, project, lo, hi)[k].sequence
    ensures forall i | 0 <= i < |events| && events[i].project == project && lo < i + 1 <= hi ::
              events[i] in Window(events, project, lo, hi)
  {
    if events != [] {
      var few := events[..|events| - 1];
      WindowMeaning(few, project, lo, hi);
      var rest := Window(few, project, lo, hi);
      var w := Window(events, project, lo, hi);
      forall i | 0 <= i < |events| && events[i].project == project && lo < i + 1 <= hi
        ensures events[i] in w
      {
        if i < |few| {
          assert few[i] in rest;
        }
      }
    }
  }

  // ---------------------------------------------------------------- invariants

  /** A reply to a request at `cursor`, judged against the log as it is now. */
  predicate ReplyOk(events: seq<Event>, project: Id, cursor: nat, reply: Reply) {
    && (forall id | id in reply.accepted :: Logged(events, project, id))
    && cursor <= reply.serverCursor <= MaxSequence(events, project)
    && reply.events == FirstPage(Window(events, project, cursor, reply.serverCursor))
  }

  predicate AcksLogged(events: seq<Event>, c: Client) {
    forall id | id in c.outbox.rows && c.outbox.rows[id].acknowledgedAt.Some? :: Logged(events, c.project, id)
  }

  /** Everything received is a row of the log at or below the cursor. */
  predicate ReceivedFromLog(events: seq<Event>, c: Client) {
    && c.outbox.cursor <= MaxSequence(events, c.project)
    && forall n | n in c.outbox.received ::
         1 <= n <= c.outbox.cursor && n <= |events| && events[n - 1].project == c.project
             && c.outbox.received[n] == events[n - 1]
  }

  predicate PhaseOk(events: seq<Event>, d: Id, c: Client, sent: seq<Request>) {
    match c.phase
    case Idle => true
    case Waiting(k) => k < |sent| && sent[k].device == d && sent[k].project == c.project
        && sent[k].cursor == c.outbox.cursor
    case Received(reply) => ReplyOk(events, c.project, c.outbox.cursor, reply)
    case Acknowledged(reply) => ReplyOk(events, c.project, c.outbox.cursor, reply)
  }

  predicate ClientOk(events: seq<Event>, d: Id, c: Client, sent: seq<Request>) {
    AcksLogged(events, c) && ReceivedFromLog(events, c) && PhaseOk(events, d, c, sent)
  }

  predicate AnswerOk(events: seq<Event>, sent: seq<Request>, a: Answer) {
    a.request < |sent| && ReplyOk(events, sent[a.request].project, sent[a.request].cursor, a.reply)
  }

  predicate Invariant(s: System) {
    var events := s.cloud.workspace.events;
    && CloudLog.LogWellFormed(events)
    && (forall d | d in s.clients :: ClientOk(events, d, s.clients[d], s.sent))
    && (forall k | 0 <= k < |s.sent| :: s.sent[k].cursor <= MaxSequence(events, s.sent[k].project))
    && (forall j | 0 <= j < |s.answers| :: AnswerOk(events, s.sent, s.answers[j]))
  }

  lemma ReplyOkGrows(events: seq<Event>, longer: seq<Event>, project: Id, cursor: nat, reply: Reply)
    requires events <= longer && Dense(longer) && ReplyOk(events, project, cursor, reply)
    ensures ReplyOk(longer, project, cursor, reply)
  {
    assert Dense(events) by {
      forall i | 0 <= i < |events| ensures events[i].sequence == i + 1 { assert longer[i].sequence == i + 1; }
    }
    MaxSequenceBound(events, project);
    MaxSequenceGrows(events, longer, project);
    WindowStable(events, longer, project, cursor, reply.serverCursor);
    forall id | id in reply.accepted ensures Logged(longer, project, id) {
      LoggedMonotone(events, longer, project, id);
    }
  }

  /** Everything the invariant says about devices and the network survives growth of the log. */
  lemma GrowthKeeps(s: System, cloud: Cloud)
    requires Invariant(s) && s.cloud.workspace.events <= cloud.workspace.events
               && CloudLog.LogWellFormed(cloud.workspace.events)
    ensures Invariant(s.(cloud := cloud))
  {
    var events, longer := s.cloud.workspace.events, cloud.workspace.events;
    forall d | d in s.clients ensures ClientOk(longer, d, s.clients[d], s.sent) {
      var c := s.clients[d];
      assert ClientOk(events, d, c, s.sent);
      MaxSequenceGrows(events, longer, c.project);
      forall id | id in c.outbox.rows && c.outbox.rows[id].acknowledgedAt.Some? ensures Logged(longer, c.project, id) {
        LoggedMonotone(events, longer, c.project, id);
      }
      if c.phase.Received? || c.phase.Acknowledged? {
        ReplyOkGrows(events, longer, c.project, c.outbox.cursor, c.phase.reply);
      }
    }
    forall k | 0 <= k < |s.sent| ensures s.sent[k].cursor <= MaxSequence(longer, s.sent[k].project) {
      MaxSequenceGrows(events, longer, s.sent[k].project);
    }
    forall j | 0 <= j < |s.answers| ensures AnswerOk(longer, s.sent, s.answers[j]) {
      var r := s.sent[s.answers[j].request];
      ReplyOkGrows(events, longer, r.project, r.cursor, s.answers[j].reply);
    }
  }

  /** A served request extends the log and is answered correctly. */
  lemma ServedOk(c: Cloud, project: Id, device: Id, cursor: nat, drafts: seq<Draft>, inventory: Option<string>,
                 at: Stamp)
    requires CloudLog.LogWellFormed(c.workspace.events) && cursor <= MaxSequence(c.workspace.events, project)
    requires Sync(c, project, device, cursor, drafts, inventory, at).Served?
    ensures var served := Sync(c, project, device, cursor, drafts, inventory, at);
            var events := served.cloud.workspace.events;
            && c.workspace.events <= events && CloudLog.LogWellFormed(events)
            && ReplyOk(events, project, cursor, served.reply)
  {
    BatchExtendsLog(c.workspace, project, device, drafts, at);
    CloudLog.BatchWellFormed(c.workspace, project, device, drafts, at);
    var events := Batch(c.workspace, project, device, drafts, at).value.workspace.events;
    MaxSequenceGrows(c.workspace.events, events, project);
    MaxSequenceBound(events, project);
    RowsAfterIsWindow(events, project, cursor, MaxSequence(events, project));
  }

  lemma ApplyKeepsReceived(events: seq<Event>, c: Client)
    requires Dense(events) && ReceivedFromLog(events, c) && c.phase.Acknowledged?
               && ReplyOk(events, c.project, c.outbox.cursor, c.phase.reply)
    ensures ReceivedFromLog(events, c.(outbox := Apply(c.outbox, c.phase.reply.events, c.phase.reply.serverCursor),
                                       phase := Idle))
  {
    hide Window, MaxSequence, Insert;
    var reply := c.phase.reply;
    WindowMeaning(events, c.project, c.outbox.cursor, reply.serverCursor);
    var received := Insert(c.outbox.received, reply.events);
    forall n | n in received
      ensures 1 <= n <= reply.serverCursor && n <= |events| && events[n - 1].project == c.project
                && received[n] == events[n - 1]
    {
      InsertMeaning(c.outbox.received, reply.events, n);
      if n !in c.outbox.received {
        var k :| 0 <= k < |reply.events| && reply.events[k] == received[n];
        assert reply.events[k] == Window(events, c.project, c.outbox.cursor, reply.serverCursor)[k];
      }
    }
  }

  lemma ClientStepKeeps(s: System, l: Label)
    requires Invariant(s) && Enabled(s, l)
    requires l.Queue? || l.Receive? || l.AckLocally? || l.ApplyLocally? || l.Crash?
    ensures Invariant(Next(s, l))
  {
    hide Window, MaxSequence, Insert, Logged;
    var events := s.cloud.workspace.events;
    var d := l.device;
    var c := s.clients[d];
    assert ClientOk(events, d, c, s.sent);
    match l
    case Queue(_, m, at) =>
    case Receive(_, j) =>
      assert AnswerOk(events, s.sent, s.answers[j]);
    case AckLocally(_, at) =>
    case ApplyLocally(_) =>
      ApplyKeepsReceived(events, c);
    case Crash(_) =>
  }

  lemma NextKeeps(s: System, l: Label)
    requires Invariant(s)
    ensures Invariant(Next(s, l))
    ensures s.cloud.workspace.events <= Next(s, l).cloud.workspace.events
  {
    hide Window, MaxSequence, RowsAfter, Batch, CloudLog.After, CloudLog.LogWellFormed, Logged;
    if Enabled(s, l) {
      match l
      case Serve(k, drafts, at) =>
        var r := s.sent[k];
        var served := Sync(s.cloud, r.project, r.device, r.cursor, drafts, r.inventory, at);
        if served.Served? {
          ServedOk(s.cloud, r.project, r.device, r.cursor, drafts, r.inventory, at);
          GrowthKeeps(s, served.cloud);
        }
      case CloudStep(step) =>
        CloudLog.AfterExtendsLog(s.cloud.workspace, step);
        GrowthKeeps(s, Next(s, l).cloud);
      case Registry(devices) =>
      case Send(d, pending, inventory) =>
        assert ClientOk(s.cloud.workspace.events, d, s.clients[d], s.sent);
        forall e | e in s.clients && e != d
          ensures ClientOk(s.cloud.workspace.events, e, s.clients[e], Next(s, l).sent)
        {
          assert ClientOk(s.cloud.workspace.events, e, s.clients[e], s.sent);
        }
      case _ => ClientStepKeeps(s, l);
    }
  }

  lemma {:induction false} RunKeeps(s: System, labels: seq<Label>)
    requires Start(s)
    ensures Invariant(Run(s, labels))
    ensures s.cloud.workspace.events <= Run(s, labels).cloud.workspace.events
  {
    if labels != [] {
      RunKeeps(s, labels[..|labels| - 1]);
      NextKeeps(Run(s, labels[..|labels| - 1]), labels[|labels| - 1]);
    }
  }
}
