/**
 The whole system of devices, network and cloud, with every cloud writer in two steps: its SELECT, and later its write.
 Anything may come between them: device batches, other writers, crashes, lost requests.
 */
module SyncWriters {
  import opened Prelude
  import opened CloudEvents
  import CloudLog
  import CloudWriters
  import DeviceSync

  datatype Whole = Whole(system: DeviceSync.System, readings: map<Id, CloudWriters.Reading>)

  datatype Label = Device(act: DeviceSync.Label) | Writer(step: CloudWriters.Label)

  function CloudPart(s: Whole): CloudWriters.System {
    CloudWriters.System(s.system.cloud.workspace, s.readings)
  }

  /** Cloud events are recorded by writers only, and writers do nothing else. */
  function Next(s: Whole, l: Label): Whole {
    match l
    case Device(k) => if k.CloudStep? && k.step.Record? then s else s.(system := DeviceSync.Next(s.system, k))
    case Writer(k) =>
      if k.Other? then s
      else
        var t := CloudWriters.Next(CloudPart(s), k);
        Whole(s.system.(cloud := s.system.cloud.(workspace := t.workspace)), t.readings)
  }

  function Run(s: DeviceSync.System, labels: seq<Label>): Whole {
    if labels == [] then Whole(s, map[]) else Next(Run(s, labels[..|labels| - 1]), labels[|labels| - 1])
  }

  // ---------------------------------------------------------------- devices see a run of the system

  /** What a label is to the devices and the network, if anything. */
  function SystemLabel(s: Whole, l: Label): Option<DeviceSync.Label> {
    match l
    case Device(k) => if k.CloudStep? && k.step.Record? then None else Some(k)
    case Writer(k) =>
      if k.Write? && k.writer in s.readings
      then Some(DeviceSync.CloudStep(CloudWriters.RecordOf(s.readings[k.writer], k))) else None
  }

  function SystemLabels(s: DeviceSync.System, labels: seq<Label>): seq<DeviceSync.Label> {
    if labels == [] then []
    else
      var few := SystemLabels(s, labels[..|labels| - 1]);
      var last := SystemLabel(Run(s, labels[..|labels| - 1]), labels[|labels| - 1]);
      if last.Some? then few + [last.value] else few
  }

  lemma NextSystem(s: Whole, l: Label)
    ensures var k := SystemLabel(s, l);
            Next(s, l).system == if k.Some? then DeviceSync.Next(s.system, k.value) else s.system
  {
    hide CloudLog.After, DeviceSync.Sync;
  }

  /** Whatever writers do in two steps, the devices take part in a run of the system, so all its theorems apply. */
  lemma {:induction false} WritersJoinTheSystem(s: DeviceSync.System, labels: seq<Label>)
    ensures Run(s, labels).system == DeviceSync.Run(s, SystemLabels(s, labels))
  {
    hide Next, SystemLabel, DeviceSync.Next;
    if labels != [] {
      var few := SystemLabels(s, labels[..|labels| - 1]);
      var before := Run(s, labels[..|labels| - 1]);
      WritersJoinTheSystem(s, labels[..|labels| - 1]);
      NextSystem(before, labels[|labels| - 1]);
      var k := SystemLabel(before, labels[|labels| - 1]);
      if k.Some? {
        assert (few + [k.value])[..|few|] == few;
      }
    }
  }

  // ---------------------------------------------------------------- the cloud sees a run of writers and batches

  /** What a label is to the event store; one that does not touch it rewrites its tables as they are. */
  function CloudLabel(s: Whole, l: Label): CloudWriters.Label {
    var same := CloudWriters.Other(CloudLog.Elsewhere(s.system.cloud.workspace.tables));
    match l
    case Writer(k) => if k.Other? then same else k
    case Device(Serve(k, drafts, at)) =>
      if DeviceSync.Enabled(s.system, l.act)
          && DeviceSync.Authorised(s.system.cloud.devices, s.system.sent[k].project, s.system.sent[k].device)
      then CloudWriters.Other(CloudLog.Push(s.system.sent[k].project, s.system.sent[k].device, drafts, at)) else same
    case Device(CloudStep(step)) => if step.Push? || step.Record? then same else CloudWriters.Other(step)
    case Device(_) => same
  }

  function CloudLabels(s: DeviceSync.System, labels: seq<Label>): (steps: seq<CloudWriters.Label>)
    ensures |steps| == |labels|
  {
    if labels == [] then []
    else
      CloudLabels(s, labels[..|labels| - 1])
      + [CloudLabel(Run(s, labels[..|labels| - 1]), labels[|labels| - 1])]
  }

  lemma NextCloud(s: Whole, l: Label)
    ensures CloudPart(Next(s, l)) == CloudWriters.Next(CloudPart(s), CloudLabel(s, l))
  {
    hide Batch, CloudLog.RecordWrite, DeviceSync.RowsAfter, DeviceSync.MaxSequence;
  }

  lemma {:induction false} RunCloud(s: DeviceSync.System, labels: seq<Label>)
    ensures CloudPart(Run(s, labels)) == CloudWriters.Run(s.cloud.workspace, CloudLabels(s, labels))
  {
    hide Next, CloudLabel, CloudWriters.Next;
    if labels != [] {
      var few := labels[..|labels| - 1];
      RunCloud(s, few);
      NextCloud(Run(s, few), labels[|labels| - 1]);
      assert CloudLabels(s, labels)[..|few|] == CloudLabels(s, few);
    }
  }

  /** A writer's event commits although its entity gained a row after the writer's SELECT. */
  predicate OvertakenAt(s: DeviceSync.System, labels: seq<Label>, i: nat)
    requires i < |labels|
  {
    labels[i].Writer? && CloudWriters.Overtaken(CloudPart(Run(s, labels[..i])), labels[i].step)
  }

  lemma {:induction false} CloudLabelsPrefix(s: DeviceSync.System, labels: seq<Label>, i: nat)
    requires i < |labels|
    ensures CloudLabels(s, labels)[..i] == CloudLabels(s, labels[..i])
    ensures CloudLabels(s, labels)[i] == CloudLabel(Run(s, labels[..i]), labels[i])
  {
    hide CloudLabel;
    var few := labels[..|labels| - 1];
    if i < |few| {
      CloudLabelsPrefix(s, few, i);
      assert few[..i] == labels[..i];
    }
  }

  lemma OvertakenAlike(s: DeviceSync.System, labels: seq<Label>, i: nat)
    requires i < |labels|
    ensures OvertakenAt(s, labels, i) <==>
            CloudWriters.OvertakenAt(s.cloud.workspace, CloudLabels(s, labels), i)
  {
    hide Run, CloudWriters.Run, CloudLabels;
    CloudLabelsPrefix(s, labels, i);
    RunCloud(s, labels[..i]);
  }

  /** The revision ledger through the whole system: it holds at the end of a run if and only if no writer's event
      committed after its entity had gained a row since the writer's SELECT. */
  lemma LedgerUnderSync(s: DeviceSync.System, labels: seq<Label>)
    requires CloudLog.Ledger(s.cloud.workspace)
    ensures CloudLog.Ledger(Run(s, labels).system.cloud.workspace) <==>
            forall i | 0 <= i < |labels| :: !OvertakenAt(s, labels, i)
  {
    hide Run, CloudWriters.Run, CloudLabels, CloudLog.Ledger, OvertakenAt, CloudWriters.OvertakenAt;
    RunCloud(s, labels);
    CloudWriters.LedgerHoldsExactly(s.cloud.workspace, CloudLabels(s, labels));
    forall i | 0 <= i < |labels|
      ensures OvertakenAt(s, labels, i)
              <==> CloudWriters.OvertakenAt(s.cloud.workspace, CloudLabels(s, labels), i) {
      OvertakenAlike(s, labels, i);
    }
  }
}
