/**
 Progress of a legal transfer: how long it can stay busy, exactly where it can stall, and that a
 run with nothing left to do is complete.
 */
module TransferProgress {
  import opened Prelude
  import opened TransferModel
  import opened TransferRun

  function FinishRank(w: World): nat
  {
    if !w.finishSent then 3
    else if w.t.desk.pendingFinish.Some? then 2
    else if w.t.finishSlot.Some? then 1
    else 0
  }

  function Measure(plan: seq<Record>, w: World): nat
    requires w.delivered <= |plan|
  {
    if w.t.phase != Open then 0 else 2 * (|plan| - w.delivered) + Waiting(w.t) + FinishRank(w) + 1
  }

  /** Writing a batch ends the worker, or leaves the queues alone and the finish no further back. */
  lemma WriteLeavesQueues(t: Transfer, batch: seq<Record>, disk: Disk)
    requires batch != []
    ensures var u := WriteBatch(t, batch, disk);
            u.phase == Done || (Waiting(u) == Waiting(t) && u.desk == t.desk && u.finishSlot == t.finishSlot)
  {
  }

  lemma BatchShrinks(t: Transfer, first: Record, visible: nat, disk: Disk)
    requires visible <= |t.records|
    ensures var u := WorkBatch(t, first, visible, disk);
            u.phase == Done || (Waiting(u) <= |t.records| && u.desk == t.desk && u.finishSlot == t.finishSlot)
  {
    BehindFrame(t, first, visible);
    WriteLeavesQueues(Behind(t, first, visible), Batch(t, first, visible), disk);
  }

  /** Nothing was done, the worker ended, a waiting record was written or the finish was taken. */
  predicate Progressed(t: Transfer, u: Transfer)
  {
    || u == t || u.phase == Done
    || (u.desk == t.desk && u.finishSlot == t.finishSlot && Waiting(u) < Waiting(t))
    || (u.desk == t.desk && t.finishSlot.Some? && u.finishSlot.None? && Waiting(u) == Waiting(t))
  }

  lemma TakeFinishShrinks(t: Transfer, disk: Disk)
    requires t.finishSlot.Some?
    ensures Progressed(t, FinishIfDue(t.(finishSlot := None, hand := t.hand.(finish := t.finishSlot)), disk))
  {
  }

  lemma HeldShrinks(t: Transfer, visible: nat, disk: Disk)
    requires visible <= |t.records| && t.hand.record.Some?
    ensures Progressed(t, WorkBatch(t, t.hand.record.value, visible, disk))
  {
    BatchShrinks(t, t.hand.record.value, visible, disk);
  }

  lemma NextShrinks(t: Transfer, rest: Transfer, visible: nat, disk: Disk)
    requires 0 < visible <= |t.records| && rest == t.(records := t.records[1..])
    ensures Progressed(t, WorkBatch(rest, t.records[0], visible - 1, disk))
  {
    BatchShrinks(rest, t.records[0], visible - 1, disk);
  }

  lemma TurnShrinks(t: Transfer, visible: nat, seesFinish: bool, disk: Disk)
    requires t.phase == Open && visible <= |t.records|
    ensures Progressed(t, WorkerTurn(t, visible, seesFinish, disk))
  {
    TurnCases(t, visible, seesFinish, disk);
    if t.hand.record.Some? {
      HeldShrinks(t, visible, disk);
    } else if t.hand.finish.None? && seesFinish && t.finishSlot.Some? {
      TakeFinishShrinks(t, disk);
    } else if visible > 0 {
      NextShrinks(t, t.(records := t.records[1..]), visible, disk);
    }
  }

  /** Every step gets closer to the end, except a worker turn that finds nothing to do. */
  lemma StepsDecrease(plan: seq<Record>, c: Receiver, w: World, step: Step)
    requires Legal(plan, c) && Moving(plan, c, w) && Enabled(plan, w, step)
    ensures Next(plan, w, step).delivered <= |plan|
    ensures Next(plan, w, step) == w || Measure(plan, Next(plan, w, step)) < Measure(plan, w)
  {
    match step
    case Deliver => DeliverKeeps(plan, c, w);
    case DeliverFinish => FinishKeeps(plan, c, w);
    case Work(visible, seesFinish, disk) => TurnShrinks(w.t, visible, seesFinish, disk);
  }

  lemma BusyTurn(t: Transfer, disk: Disk)
    requires t.phase == Open && (Waiting(t) > 0 || t.finishSlot.Some?) && (t.hand.finish.Some? ==> Waiting(t) > 0)
    ensures WorkerTurn(t, |t.records|, true, disk) != t
  {
    if t.hand.record.Some? {
      BatchShrinks(t, t.hand.record.value, |t.records|, disk);
    } else if t.hand.finish.Some? || t.finishSlot.None? {
      BatchShrinks(t.(records := t.records[1..]), t.records[0], |t.records| - 1, disk);
    }
  }

  /** The steps of a run that changed something. */
  function BusySteps(plan: seq<Record>, c: Receiver, steps: seq<Step>): nat
    requires Run(plan, c, steps).Some?
  {
    if steps == [] then 0
    else
      var front := steps[..|steps| - 1];
      BusySteps(plan, c, front) + if Run(plan, c, steps) == Run(plan, c, front) then 0 else 1
  }

  /** No schedule can keep the transfer busy for longer than its size allows, while it is healthy. */
  lemma {:induction false} BusyStepsBounded(plan: seq<Record>, c: Receiver, steps: seq<Step>)
    requires Legal(plan, c) && c.next == c.consumed == 0 && !c.finished
    requires Run(plan, c, steps).Some? && forall i :: 0 <= i < |steps| ==> Healthy(steps[i])
    ensures Run(plan, c, steps).value.delivered <= |plan|
    ensures BusySteps(plan, c, steps) + Measure(plan, Run(plan, c, steps).value) <= 2 * |plan| + 4
  {
    if steps != [] {
      var front, step := steps[..|steps| - 1], steps[|steps| - 1];
      BusyStepsBounded(plan, c, front);
      var w := Run(plan, c, front).value;
      RunKeeps(plan, c, front);
      NextKeeps(plan, c, w, step);
      if Moving(plan, c, w) {
        StepsDecrease(plan, c, w, step);
      }
    }
  }

  // ---- where a transfer can stall ----

  /** No healthy step changes anything. */
  ghost predicate Quiet(plan: seq<Record>, w: World)
  {
    forall step :: Healthy(step) && Enabled(plan, w, step) ==> Next(plan, w, step) == w
  }

  /** The worker has nothing left, the finish waits, and the next record exceeds the credit granted. */
  predicate Stalled(plan: seq<Record>, w: World)
  {
    w.finishSent && Waiting(w.t) == 0 && w.delivered < |plan| && End(plan[w.delivered]) > w.t.receiver.limit
  }

  lemma StalledIsQuiet(plan: seq<Record>, c: Receiver, w: World)
    requires Moving(plan, c, w) && Stalled(plan, w)
    ensures Quiet(plan, w)
  {
    forall step | Healthy(step) && Enabled(plan, w, step) ensures Next(plan, w, step) == w {
      assert step.Work? && step.visible == 0;
    }
  }

  /** A step that changes something, wherever the transfer is not stalled. */
  function Helpful(plan: seq<Record>, w: World): Step
  {
    if Waiting(w.t) > 0 || w.t.finishSlot.Some? then Work(|w.t.records|, true, Disk(None, true))
    else if !w.finishSent then DeliverFinish
    else Deliver
  }

  lemma HelpfulChanges(plan: seq<Record>, c: Receiver, w: World)
    requires Legal(plan, c) && Moving(plan, c, w) && !Stalled(plan, w)
    ensures Healthy(Helpful(plan, w)) && Enabled(plan, w, Helpful(plan, w)) && Next(plan, w, Helpful(plan, w)) != w
  {
    if Waiting(w.t) > 0 || w.t.finishSlot.Some? {
      BusyTurn(w.t, Disk(None, true));
    }
  }

  /** A transfer under way has nothing left to do exactly when it waits for credit. */
  lemma QuietIffStalled(plan: seq<Record>, c: Receiver, w: World)
    requires Legal(plan, c) && Moving(plan, c, w)
    ensures Quiet(plan, w) <==> Stalled(plan, w)
  {
    if Stalled(plan, w) {
      StalledIsQuiet(plan, c, w);
    } else {
      HelpfulChanges(plan, c, w);
    }
  }

  ghost predicate AllHealthy(steps: seq<Step>)
  {
    forall i :: 0 <= i < |steps| ==> Healthy(steps[i])
  }

  /** For any receiver: a healthy run with nothing left to do is complete, or waits for credit. */
  lemma QuietRunsCompleteOrStall(plan: seq<Record>, c: Receiver, steps: seq<Step>)
    requires Legal(plan, c) && c.next == c.consumed == 0 && !c.finished
    requires Run(plan, c, steps).Some? && AllHealthy(steps) && Quiet(plan, Run(plan, c, steps).value)
    ensures Complete(plan, Run(plan, c, steps).value) || Stalled(plan, Run(plan, c, steps).value)
  {
    RunKeeps(plan, c, steps);
    var w := Run(plan, c, steps).value;
    if Moving(plan, c, w) {
      QuietIffStalled(plan, c, w);
    }
  }

  /** Records no larger than half a window and one byte, the first within the initial credit. */
  predicate Sendable(plan: seq<Record>, c: Receiver)
  {
    && c.window > 0
    && (forall i :: 0 <= i < |plan| ==> |plan[i].payload| <= c.window / 2 + 1)
    && (plan != [] ==> |plan[0].payload| <= c.limit)
  }

  /** Such a plan never stalls. */
  lemma SendableNeverStalls(plan: seq<Record>, c: Receiver, w: World)
    requires Legal(plan, c) && Sendable(plan, c) && Moving(plan, c, w)
    ensures !Stalled(plan, w)
  {
    if Waiting(w.t) == 0 && w.delivered < |plan| {
      NextOffset(plan, c, w.delivered);
      if w.delivered > 0 {
        NextOffset(plan, c, w.delivered - 1);
      }
    }
  }

  lemma EveryQuietSendableRunIsComplete(plan: seq<Record>, c: Receiver, steps: seq<Step>)
    requires Legal(plan, c) && Sendable(plan, c) && c.next == c.consumed == 0 && !c.finished
    requires Run(plan, c, steps).Some? && AllHealthy(steps) && Quiet(plan, Run(plan, c, steps).value)
    ensures Complete(plan, Run(plan, c, steps).value)
  {
    RunKeeps(plan, c, steps);
    var w := Run(plan, c, steps).value;
    if Moving(plan, c, w) {
      QuietIffStalled(plan, c, w);
      SendableNeverStalls(plan, c, w);
    }
  }

  /** Whatever record limit fits half the window makes every legal plan sendable. */
  lemma SmallRecordsAreSendable(plan: seq<Record>, c: Receiver)
    requires Legal(plan, c) && 0 < c.window == c.limit && c.maxPayload <= c.window / 2 + 1
    ensures Sendable(plan, c)
  {
    forall i | 0 <= i < |plan| ensures |plan[i].payload| <= c.window / 2 + 1 {
      assert LegalAt(plan, c, i);
    }
  }

  /**
   Confluence, for every transfer the agent accepts: whatever the interleaving and the coalescing,
   on a healthy disk a run with nothing left to do handed over every record, stored exactly their
   bytes in order and then finished once.
   */
  lemma EveryQuietRunIsComplete(plan: seq<Record>, offered: nat, expected: Option<nat>, steps: seq<Step>)
    requires AcceptWrite(offered, expected).Some? && Legal(plan, AcceptWrite(offered, expected).value)
    requires Run(plan, AcceptWrite(offered, expected).value, steps).Some? && AllHealthy(steps)
    requires Quiet(plan, Run(plan, AcceptWrite(offered, expected).value, steps).value)
    ensures Complete(plan, Run(plan, AcceptWrite(offered, expected).value, steps).value)
  {
    var c := AcceptWrite(offered, expected).value;
    SmallRecordsAreSendable(plan, c);
    EveryQuietSendableRunIsComplete(plan, c, steps);
  }

  // ---- exactly which receivers can stall ----

  /** Some legal transfer to the receiver comes to rest, on a healthy disk, before it is complete. */
  ghost predicate CanStall(c: Receiver)
  {
    exists plan, steps :: Legal(plan, c) && Stuck(plan, c, steps)
  }

  ghost predicate Stuck(plan: seq<Record>, c: Receiver, steps: seq<Step>)
  {
    && Run(plan, c, steps).Some? && AllHealthy(steps)
    && Quiet(plan, Run(plan, c, steps).value) && !Complete(plan, Run(plan, c, steps).value)
  }

  /** A fresh receiver that granted its whole window can stall iff a record may exceed half of it and one byte. */
  lemma CanStallIff(maxPayload: nat, window: nat)
    requires NewReceiver(maxPayload, window, window, None).Some?
    ensures CanStall(NewReceiver(maxPayload, window, window, None).value) <==> maxPayload > window / 2 + 1
  {
    var c := NewReceiver(maxPayload, window, window, None).value;
    if maxPayload > window / 2 + 1 {
      var first := window - window / 2 - 1;
      if first == 0 {
        LargeFirstStalls(c, Zeros(window / 2 + 2));
      } else {
        LargeSecondStalls(c, Zeros(first), Zeros(window / 2 + 2));
      }
    } else if CanStall(c) {
      var plan, steps :| Legal(plan, c) && Stuck(plan, c, steps);
      SmallRecordsAreSendable(plan, c);
      EveryQuietSendableRunIsComplete(plan, c, steps);
      assert false;
    }
  }

  function Zeros(n: nat): (r: seq<byte>)
    ensures |r| == n
  {
    seq(n, _ => 0)
  }

  /** A first record beyond the initial credit can never be sent. */
  lemma LargeFirstStalls(c: Receiver, bytes: seq<byte>)
    requires NewReceiver(c.maxPayload, c.window, c.window, None) == Some(c)
    requires c.window < |bytes| <= c.maxPayload
    ensures CanStall(c)
  {
    var plan := [Record(0, bytes)];
    assert Prefix(plan, 0) == [] && Prefix(plan, 1) == bytes;
    assert LegalAt(plan, c, 0);
    var steps := [DeliverFinish];
    assert steps[..0] == [];
    assert Run(plan, c, []) == Some(World(Start(c), 0, false));
    StalledIsStuck(plan, c, steps);
  }

  function TwoRecords(first: seq<byte>, second: seq<byte>): seq<Record>
  {
    [Record(0, first), Record(|first|, second)]
  }

  /** The first record leaves more than half of the window, so no credit follows it, and the second exceeds it. */
  predicate Oversized(c: Receiver, first: seq<byte>, second: seq<byte>)
  {
    && NewReceiver(c.maxPayload, c.window, c.window, None) == Some(c)
    && 0 < |first| <= c.maxPayload && 0 < |second| <= c.maxPayload
    && |first| <= c.window && c.window - |first| > c.window / 2 && |first| + |second| > c.window
  }

  lemma TwoRecordsAreLegal(c: Receiver, first: seq<byte>, second: seq<byte>)
    requires Oversized(c, first, second)
    ensures Legal(TwoRecords(first, second), c) && |Payload(TwoRecords(first, second))| == |first| + |second|
  {
    var plan := TwoRecords(first, second);
    assert Prefix(plan, 0) == [] && Prefix(plan, 1) == first && Prefix(plan, 2) == first + second;
    assert LegalAt(plan, c, 0) && LegalAt(plan, c, 1);
  }

  /** Before the first record is written: it is queued and the finish waits at the agent. */
  function Queued(c: Receiver, first: seq<byte>, second: seq<byte>): Transfer
  {
    Start(c).(records := [Record(0, first)], desk := Desk(|first|, Some(|first| + |second|)))
  }

  lemma QueuedRun(c: Receiver, first: seq<byte>, second: seq<byte>)
    requires Oversized(c, first, second)
    ensures Run(TwoRecords(first, second), c, [Deliver, DeliverFinish]) ==
            Some(World(Queued(c, first, second), 1, true))
  {
    var plan := TwoRecords(first, second);
    TwoRecordsAreLegal(c, first, second);
    var steps := [Deliver, DeliverFinish];
    assert steps[..1] == [Deliver] && [Deliver][..0] == [];
    var start := World(Start(c), 0, false);
    assert Run(plan, c, []) == Some(start) && [] + [Record(0, first)] == [Record(0, first)];
    var one := World(Start(c).(records := [Record(0, first)], desk := Desk(|first|, None)), 1, false);
    assert Enabled(plan, start, Deliver) && Next(plan, start, Deliver) == one;
    assert Run(plan, c, [Deliver]) == Some(one);
    assert Next(plan, one, DeliverFinish) == World(Queued(c, first, second), 1, true);
  }

  /** Writing it earns no credit. */
  lemma FirstWritten(c: Receiver, first: seq<byte>, second: seq<byte>)
    requires Oversized(c, first, second)
    ensures var u := WorkerTurn(Queued(c, first, second), 1, false, Disk(None, true));
            u.phase == Open && Waiting(u) == 0 && u.receiver.limit == c.window
  {
    OneRecordTurn(Queued(c, first, second), Record(0, first));
  }

  lemma WrittenRun(c: Receiver, first: seq<byte>, second: seq<byte>)
    requires Oversized(c, first, second)
    ensures Run(TwoRecords(first, second), c, [Deliver, DeliverFinish, Work(1, false, Disk(None, true))]) ==
            Some(World(WorkerTurn(Queued(c, first, second), 1, false, Disk(None, true)), 1, true))
  {
    var steps := [Deliver, DeliverFinish, Work(1, false, Disk(None, true))];
    QueuedRun(c, first, second);
    assert steps[..2] == [Deliver, DeliverFinish];
  }

  /** After the first record is written nothing can happen any more. */
  lemma LargeSecondStalls(c: Receiver, first: seq<byte>, second: seq<byte>)
    requires Oversized(c, first, second)
    ensures CanStall(c)
  {
    var plan, steps := TwoRecords(first, second), [Deliver, DeliverFinish, Work(1, false, Disk(None, true))];
    TwoRecordsAreLegal(c, first, second);
    WrittenRun(c, first, second);
    FirstWritten(c, first, second);
    StalledIsStuck(plan, c, steps);
  }

  lemma StalledIsStuck(plan: seq<Record>, c: Receiver, steps: seq<Step>)
    requires Legal(plan, c) && c.next == c.consumed == 0 && !c.finished
    requires Run(plan, c, steps).Some? && AllHealthy(steps) && Stalled(plan, Run(plan, c, steps).value)
    requires Run(plan, c, steps).value.t.phase == Open
    ensures CanStall(c)
  {
    RunKeeps(plan, c, steps);
    var w := Run(plan, c, steps).value;
    QuietIffStalled(plan, c, w);
    assert Stuck(plan, c, steps);
  }

  /** A turn over a queue of one admissible record writes it and leaves the queue empty. */
  lemma OneRecordTurn(t: Transfer, r: Record)
    requires t.phase == Open && t.records == [r] && t.hand.record.None? && t.hand.finish.None?
    requires Accept(t.receiver, r).Some? && Consume(Accept(t.receiver, r).value).Some?
    ensures var u := WorkerTurn(t, 1, false, Disk(None, true));
            && u.phase == Open && Waiting(u) == 0 && u.receiver == Consume(Accept(t.receiver, r).value).value
            && u.finishSlot == t.finishSlot && u.desk == t.desk
  {
    var t' := t.(records := []);
    assert t.records[1..] == [];
    assert Batch(t', r, 0) == [r];
    assert AcceptFirst(t.receiver, [r], 0) == Some(t.receiver);
    assert AcceptAll(t.receiver, [r]) == Accept(t.receiver, r);
  }
}
