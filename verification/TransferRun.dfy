/**
 Every interleaving of a legal transfer's records with its finish, and every choice of what
 the worker sees, writes the same bytes in order and finishes exactly once, after all of them.
 */
module TransferRun {
  import opened Prelude
  import opened TransferModel

  /** The bytes before record `i`. */
  function Offset(plan: seq<Record>, i: nat): nat
    requires i <= |plan|
  {
    |Prefix(plan, i)|
  }

  predicate LegalAt(plan: seq<Record>, c: Receiver, i: nat)
    requires i < |plan|
  {
    plan[i].offset == Offset(plan, i) && 0 < |plan[i].payload| <= c.maxPayload
  }

  /** Contiguous non-empty records from offset zero, within what the receiver agreed to. */
  ghost predicate Legal(plan: seq<Record>, c: Receiver)
  {
    && (forall i {:trigger LegalAt(plan, c, i)} :: 0 <= i < |plan| ==> LegalAt(plan, c, i))
    && |Payload(plan)| + c.window <= U64_MAX
    && (c.expected.Some? ==> c.expected.value == |Payload(plan)|)
  }

  datatype Step = Deliver | DeliverFinish | Work(visible: nat, seesFinish: bool, disk: Disk)

  /** A transfer under way: the records handed over so far, and whether the finish has been. */
  datatype World = World(t: Transfer, delivered: nat, finishSent: bool)

  /**
   The host sends each record once, in order, within the transfer's byte credit and the data
   lane's frame credit, which every record occupies until it is written; it sends its finish
   once, at any time.
   */
  predicate Enabled(plan: seq<Record>, w: World, step: Step)
  {
    match step
    case Deliver =>
      w.delivered < |plan| && End(plan[w.delivered]) <= w.t.receiver.limit && Waiting(w.t) < DATA_FRAMES
    case DeliverFinish => !w.finishSent
    case Work(visible, _, _) => visible <= |w.t.records|
  }

  function Next(plan: seq<Record>, w: World, step: Step): World
    requires Enabled(plan, w, step)
  {
    match step
    case Deliver => World(ReceiveRecord(w.t, plan[w.delivered]), w.delivered + 1, w.finishSent)
    case DeliverFinish => World(ReceiveFinish(w.t, |Payload(plan)|), w.delivered, true)
    case Work(visible, seesFinish, disk) => w.(t := WorkerTurn(w.t, visible, seesFinish, disk))
  }

  /** None when some step of the run is not enabled. */
  function Run(plan: seq<Record>, c: Receiver, steps: seq<Step>): Option<World>
  {
    if steps == [] then Some(World(Start(c), 0, false))
    else match Run(plan, c, steps[..|steps| - 1])
      case None => None
      case Some(w) =>
        if Enabled(plan, w, steps[|steps| - 1]) then Some(Next(plan, w, steps[|steps| - 1])) else None
  }

  // ---- the invariant ----

  /** Records handed over and not yet written: the leftover of the last batch, then the queue. */
  function Waiting(t: Transfer): nat
  {
    |t.records| + if t.hand.record.Some? then 1 else 0
  }

  /** How many records are on the disk. */
  function Stored(w: World): int
  {
    w.delivered - Waiting(w.t)
  }

  /** `rs` is the stretch of the plan that starts at `from`. */
  predicate Stretch(plan: seq<Record>, from: nat, rs: seq<Record>)
  {
    from + |rs| <= |plan| && forall k :: 0 <= k < |rs| ==> rs[k] == plan[from + k]
  }

  /** What waits is the stretch of the plan that ends where the host is. */
  predicate QueueOk(plan: seq<Record>, t: Transfer, delivered: nat)
  {
    && Waiting(t) <= delivered <= |plan| && Waiting(t) <= DATA_FRAMES
    && Stretch(plan, delivered - |t.records|, t.records)
    && (t.hand.record.Some? ==> t.hand.record.value == plan[delivered - Waiting(t)])
  }

  predicate OnlyWrites(log: seq<Effect>)
  {
    forall i :: 0 <= i < |log| ==> log[i].Wrote?
  }

  /**
   The receiver has consumed `offset` bytes; after the first it keeps more than half a window of
   credit open, and beyond the initial grant never more than a whole one.
   */
  ghost predicate ReceiverOk(c: Receiver, c0: Receiver, offset: nat)
  {
    && c.next == c.consumed == offset && offset <= c.limit && !c.finished
    && (offset > 0 && c0.window > 0 ==> c.limit - offset > c0.window / 2)
    && (c.limit == c0.limit || c.limit <= offset + c0.window)
    && c0.limit <= c.limit && c.maxPayload == c0.maxPayload && c.expected == c0.expected && c.window == c0.window
  }

  /** The limit is the initial grant, or a window beyond the end of a record already stored. */
  ghost predicate GrantedAt(plan: seq<Record>, c0: Receiver, limit: nat, stored: nat)
    requires stored <= |plan|
  {
    limit == c0.limit || exists i :: 0 < i <= stored && limit == Offset(plan, i) + c0.window
  }

  /** The disk holds the first `stored` records, and worker and receiver stand at their end. */
  ghost predicate DiskOk(plan: seq<Record>, c: Receiver, t: Transfer, stored: nat)
  {
    && stored <= |plan| && t.phase == Open
    && OnlyWrites(t.log) && Bytes(t.log) == Prefix(plan, stored)
    && t.hand.offset == Offset(plan, stored)
    && ReceiverOk(t.receiver, c, t.hand.offset) && GrantedAt(plan, c, t.receiver.limit, stored)
  }

  /** The agent knows how far the host is until it has passed the finish on, and the host had credit. */
  predicate DeskOk(plan: seq<Record>, w: World)
  {
    && w.delivered <= |plan|
    && (!w.finishSent || w.delivered < |plan| ==> w.t.desk.receivedOffset == Offset(plan, w.delivered))
    && (w.delivered > 0 ==> Offset(plan, w.delivered) <= w.t.receiver.limit)
  }

  /** The finish is in exactly one place, and beyond the agent only once every record was handed over. */
  ghost predicate FinishSomewhere(plan: seq<Record>, w: World)
  {
    var total, t := |Payload(plan)|, w.t;
    if !w.finishSent then t.desk.pendingFinish.None? && t.finishSlot.None? && t.hand.finish.None?
    else if w.delivered < |plan| then t.desk.pendingFinish == Some(total) && t.finishSlot.None? && t.hand.finish.None?
    else
      && t.desk.pendingFinish.None?
      && ((t.finishSlot == Some(total) && t.hand.finish.None?) || (t.finishSlot.None? && t.hand.finish == Some(total)))
  }

  /** Records on their way: the worker holds the finish only while something is left to write. */
  ghost predicate Moving(plan: seq<Record>, c: Receiver, w: World)
  {
    && QueueOk(plan, w.t, w.delivered) && DiskOk(plan, c, w.t, Stored(w)) && DeskOk(plan, w)
    && FinishSomewhere(plan, w) && (w.t.hand.finish.Some? ==> Waiting(w.t) > 0)
  }

  /** Everything was handed over, stored in order, and then finished. */
  ghost predicate Complete(plan: seq<Record>, w: World)
  {
    && w.t.phase == Done && w.delivered == |plan| && w.finishSent
    && w.t.log != [] && w.t.log[|w.t.log| - 1] == Finished && OnlyWrites(w.t.log[..|w.t.log| - 1])
    && Bytes(w.t.log) == Payload(plan)
  }

  /** The disk failed: a prefix is stored and no finish was reported. */
  ghost predicate Broken(plan: seq<Record>, w: World)
  {
    && w.t.phase in {Done, Cancelled} && w.delivered <= |plan|
    && w.t.log != [] && w.t.log[|w.t.log| - 1].Failed? && OnlyWrites(w.t.log[..|w.t.log| - 1])
    && Bytes(w.t.log) <= Payload(plan)
  }

  ghost predicate Inv(plan: seq<Record>, c: Receiver, w: World)
  {
    Moving(plan, c, w) || Complete(plan, w) || Broken(plan, w)
  }

  /** What a worker turn leaves: only a failing disk breaks the transfer. */
  ghost predicate Kept(plan: seq<Record>, c: Receiver, w: World, disk: Disk)
  {
    Moving(plan, c, w) || Complete(plan, w) || (disk != Disk(None, true) && Broken(plan, w))
  }

  // ---- bytes and offsets ----

  lemma {:induction false} PrefixGrows(plan: seq<Record>, i: nat, j: nat)
    requires i <= j <= |plan|
    ensures Prefix(plan, i) <= Prefix(plan, j)
  {
    if i < j {
      PrefixGrows(plan, i, j - 1);
    }
  }

  lemma {:induction false} OffsetGrows(plan: seq<Record>, i: nat, j: nat)
    requires i <= j <= |plan|
    ensures Offset(plan, i) <= Offset(plan, j)
  {
    if i < j {
      OffsetGrows(plan, i, j - 1);
    }
  }

  /** Writing a stretch of the plan continues the bytes before it. */
  lemma {:induction false} StretchBytes(plan: seq<Record>, from: nat, rs: seq<Record>, n: nat)
    requires Stretch(plan, from, rs) && n <= |rs|
    ensures Prefix(plan, from + n) == Prefix(plan, from) + Prefix(rs, n)
  {
    if n > 0 {
      StretchBytes(plan, from, rs, n - 1);
      var bytes := rs[n - 1].payload;
      assert plan[from + (n - 1)].payload == bytes;
      assert Prefix(plan, from) + (Prefix(rs, n - 1) + bytes) == Prefix(plan, from) + Prefix(rs, n - 1) + bytes;
    }
  }

  lemma NextOffset(plan: seq<Record>, c: Receiver, i: nat)
    requires Legal(plan, c) && i < |plan|
    ensures Offset(plan, i + 1) == End(plan[i]) == Offset(plan, i) + |plan[i].payload|
            && 0 < |plan[i].payload| <= c.maxPayload
    ensures Offset(plan, i) < |Payload(plan)| && Offset(plan, i + 1) <= |Payload(plan)|
    ensures i + 1 < |plan| ==> Offset(plan, i + 1) < |Payload(plan)|
  {
    assert LegalAt(plan, c, i);
    OffsetGrows(plan, i + 1, |plan|);
    if i + 1 < |plan| {
      assert LegalAt(plan, c, i + 1);
      OffsetGrows(plan, i + 2, |plan|);
    }
  }

  lemma BytesAppend(log: seq<Effect>, e: Effect)
    ensures Bytes(log + [e]) == Bytes(log) + EffectBytes(e)
  {
    assert (log + [e])[..|log|] == log;
  }

  // ---- the agent's steps ----

  lemma AppendKeepsQueue(plan: seq<Record>, t: Transfer, u: Transfer, delivered: nat)
    requires QueueOk(plan, t, delivered) && delivered < |plan| && Waiting(t) < DATA_FRAMES
    requires u.hand.record == t.hand.record && u.records == t.records + [plan[delivered]]
    ensures QueueOk(plan, u, delivered + 1) && Waiting(u) == Waiting(t) + 1
  {
  }

  /** What a delivery changes: the last record of the plan releases a finish that waited for it. */
  lemma DeliveredState(plan: seq<Record>, c: Receiver, w: World)
    requires Legal(plan, c) && Moving(plan, c, w) && Enabled(plan, w, Deliver)
    ensures var t, r := w.t, plan[w.delivered];
            Next(plan, w, Deliver).t ==
            if w.finishSent && w.delivered + 1 == |plan|
            then t.(records := t.records + [r], finishSlot := Some(|Payload(plan)|), desk := Cleared)
            else t.(records := t.records + [r], desk := t.desk.(receivedOffset := End(r)))
  {
    NextOffset(plan, c, w.delivered);
  }

  lemma DeliverKeeps(plan: seq<Record>, c: Receiver, w: World)
    requires Legal(plan, c) && Moving(plan, c, w) && Enabled(plan, w, Deliver)
    ensures Moving(plan, c, Next(plan, w, Deliver))
  {
    var v := Next(plan, w, Deliver);
    DeliveredState(plan, c, w);
    NextOffset(plan, c, w.delivered);
    AppendKeepsQueue(plan, w.t, v.t, w.delivered);
  }

  lemma FinishKeeps(plan: seq<Record>, c: Receiver, w: World)
    requires Legal(plan, c) && Moving(plan, c, w) && Enabled(plan, w, DeliverFinish)
    ensures Moving(plan, c, Next(plan, w, DeliverFinish))
  {
    if w.delivered < |plan| {
      NextOffset(plan, c, w.delivered);
    }
  }

  // ---- the worker's turn ----

  /** Admitting a stretch of the plan moves the receiver to its end. */
  lemma {:induction false} AcceptsStretch(plan: seq<Record>, c0: Receiver, c: Receiver, from: nat,
                                          rs: seq<Record>, n: nat)
    requires Legal(plan, c0) && Stretch(plan, from, rs) && n <= |rs|
    requires ReceiverOk(c, c0, Offset(plan, from)) && Offset(plan, from + n) <= c.limit
    ensures AcceptFirst(c, rs, n) == Some(c.(next := Offset(plan, from + n)))
  {
    if n > 0 {
      NextOffset(plan, c0, from + n - 1);
      AcceptsStretch(plan, c0, c, from, rs, n - 1);
      assert rs[n - 1] == plan[from + (n - 1)];
    }
  }

  lemma FailKeeps(plan: seq<Record>, w: World, partial: seq<byte>)
    requires w.delivered <= |plan| && OnlyWrites(w.t.log) && Bytes(w.t.log) + partial <= Payload(plan)
    ensures Broken(plan, w.(t := Fail(w.t, partial)))
  {
    BytesAppend(w.t.log, Failed(partial));
    assert (w.t.log + [Failed(partial)])[..|w.t.log|] == w.t.log;
  }

  /** Applying the finish completes the transfer, unless the flush fails. */
  lemma ApplyKeeps(plan: seq<Record>, c: Receiver, w: World, disk: Disk)
    requires Legal(plan, c) && DiskOk(plan, c, w.t, |plan|) && w.delivered == |plan| && w.finishSent
    requires w.t.hand.finish == Some(|Payload(plan)|)
    ensures Kept(plan, c, w.(t := ApplyFinish(w.t, disk)), disk)
  {
    if disk.flushes {
      BytesAppend(w.t.log, Finished);
      assert (w.t.log + [Finished])[..|w.t.log|] == w.t.log;
    } else {
      assert Bytes(w.t.log) + [] == Payload(plan);
      FailKeeps(plan, w.(t := w.t.(hand := w.t.hand.(finish := None))), []);
    }
  }

  lemma ConsumeKeeps(c: Receiver, c0: Receiver, offset: nat, end: nat)
    requires ReceiverOk(c, c0, offset) && offset <= end <= c.limit && end + c.window <= U64_MAX
    ensures Consume(c.(next := end)).Some? && ReceiverOk(Consume(c.(next := end)).value, c0, end)
    ensures var limit := Consume(c.(next := end)).value.limit;
            limit == (if c.limit - end <= c.window / 2 && end + c.window > c.limit then end + c.window else c.limit)
  {
  }

  lemma GrantsGrow(plan: seq<Record>, c0: Receiver, limit: nat, from: nat, upto: nat, granted: nat)
    requires from < upto <= |plan| && GrantedAt(plan, c0, limit, from)
    requires granted == limit || granted == Offset(plan, upto) + c0.window
    ensures GrantedAt(plan, c0, granted, upto)
  {
    if granted == limit && limit != c0.limit {
      var i :| 0 < i <= from && limit == Offset(plan, i) + c0.window;
    }
  }

  /** The state after a batch reached the disk, before a held finish is looked at. */
  function Landed(t: Transfer, d: Receiver, batch: seq<Record>): Transfer
    requires batch != []
  {
    t.(receiver := d, hand := t.hand.(offset := End(batch[|batch| - 1])), log := t.log + [Wrote(Payload(batch))])
  }

  lemma BatchEnd(plan: seq<Record>, c: Receiver, from: nat, batch: seq<Record>)
    requires Legal(plan, c) && Stretch(plan, from, batch) && batch != []
    ensures End(batch[|batch| - 1]) == Offset(plan, from + |batch|)
  {
    assert batch[|batch| - 1] == plan[from + (|batch| - 1)];
    NextOffset(plan, c, from + |batch| - 1);
  }

  lemma WriteAppends(log: seq<Effect>, bytes: seq<byte>)
    requires OnlyWrites(log)
    ensures OnlyWrites(log + [Wrote(bytes)]) && Bytes(log + [Wrote(bytes)]) == Bytes(log) + bytes
  {
    BytesAppend(log, Wrote(bytes));
  }

  lemma BatchBytes(plan: seq<Record>, log: seq<Effect>, from: nat, batch: seq<Record>)
    requires Stretch(plan, from, batch) && OnlyWrites(log) && Bytes(log) == Prefix(plan, from)
    ensures Bytes(log + [Wrote(Payload(batch))]) == Prefix(plan, from + |batch|)
  {
    WriteAppends(log, Payload(batch));
    StretchBytes(plan, from, batch, |batch|);
  }

  lemma LandedKeeps(plan: seq<Record>, c: Receiver, t: Transfer, from: nat, batch: seq<Record>, d: Receiver)
    requires Legal(plan, c) && Stretch(plan, from, batch) && batch != [] && DiskOk(plan, c, t, from)
    requires ReceiverOk(d, c, Offset(plan, from + |batch|))
    requires d.limit == t.receiver.limit || d.limit == Offset(plan, from + |batch|) + c.window
    ensures DiskOk(plan, c, Landed(t, d, batch), from + |batch|)
  {
    GrantsGrow(plan, c, t.receiver.limit, from, from + |batch|, d.limit);
    BatchEnd(plan, c, from, batch);
    BatchBytes(plan, t.log, from, batch);
    WriteAppends(t.log, Payload(batch));
  }

  /** The queue, the agent and the finish stand where the batch left them. */
  ghost predicate Aside(plan: seq<Record>, w: World, stored: nat)
  {
    QueueOk(plan, w.t, w.delivered) && Stored(w) == stored && DeskOk(plan, w) && FinishSomewhere(plan, w)
  }

  /** With `stored` records on the disk the transfer moves on, or its finish is due and applied. */
  lemma LandedOrDue(plan: seq<Record>, c: Receiver, v: World, stored: nat, disk: Disk)
    requires Legal(plan, c) && DiskOk(plan, c, v.t, stored) && Aside(plan, v, stored)
    ensures Kept(plan, c, v.(t := FinishIfDue(v.t, disk)), disk)
  {
    if stored < |plan| {
      NextOffset(plan, c, stored);
    } else if v.t.hand.finish.Some? {
      ApplyKeeps(plan, c, v, disk);
    }
  }

  /** Landing a batch moves neither the queue, nor the agent's side, nor the finish. */
  lemma LandedAside(plan: seq<Record>, w: World, d: Receiver, batch: seq<Record>, stored: nat)
    requires Aside(plan, w, stored) && batch != [] && d.limit >= w.t.receiver.limit
    ensures Aside(plan, w.(t := Landed(w.t, d, batch)), stored)
  {
    var u := Landed(w.t, d, batch);
    assert u.records == w.t.records && u.hand.record == w.t.hand.record && u.hand.finish == w.t.hand.finish;
    assert u.desk == w.t.desk && u.finishSlot == w.t.finishSlot;
  }

  lemma StoreKeeps(plan: seq<Record>, c: Receiver, w: World, from: nat, batch: seq<Record>, d: Receiver, disk: Disk)
    requires Legal(plan, c) && Stretch(plan, from, batch) && batch != [] && DiskOk(plan, c, w.t, from)
    requires Aside(plan, w, from + |batch|)
    requires ReceiverOk(d, c, Offset(plan, from + |batch|)) && d.limit >= w.t.receiver.limit
    requires d.limit == w.t.receiver.limit || d.limit == Offset(plan, from + |batch|) + c.window
    ensures Kept(plan, c, w.(t := FinishIfDue(Landed(w.t, d, batch), disk)), disk)
  {
    var upto := from + |batch|;
    LandedKeeps(plan, c, w.t, from, batch, d);
    var v := w.(t := Landed(w.t, d, batch));
    LandedAside(plan, w, d, batch, upto);
    LandedOrDue(plan, c, v, upto, disk);
  }

  lemma PartOfTheRest(a: seq<byte>, b: seq<byte>, all: seq<byte>, n: nat)
    requires a + b <= all && n <= |b|
    ensures a + b[..n] <= all
  {
  }

  lemma PartialIsPrefix(plan: seq<Record>, from: nat, batch: seq<Record>, n: nat)
    requires Stretch(plan, from, batch) && n <= |Payload(batch)|
    ensures Prefix(plan, from) + Payload(batch)[..n] <= Payload(plan)
  {
    StretchBytes(plan, from, batch, |batch|);
    PrefixGrows(plan, from + |batch|, |plan|);
    PartOfTheRest(Prefix(plan, from), Payload(batch), Payload(plan), n);
  }

  lemma FailedWriteKeeps(plan: seq<Record>, w: World, from: nat, batch: seq<Record>, n: nat)
    requires Stretch(plan, from, batch) && n <= |Payload(batch)| && w.delivered <= |plan|
    requires OnlyWrites(w.t.log) && Bytes(w.t.log) == Prefix(plan, from)
    ensures Broken(plan, w.(t := Fail(w.t, Payload(batch)[..n])))
  {
    PartialIsPrefix(plan, from, batch, n);
    FailKeeps(plan, w, Payload(batch)[..n]);
  }

  lemma WriteKeeps(plan: seq<Record>, c: Receiver, w: World, from: nat, batch: seq<Record>, disk: Disk)
    requires Legal(plan, c) && Stretch(plan, from, batch) && batch != [] && DiskOk(plan, c, w.t, from)
    requires Aside(plan, w, from + |batch|)
    ensures Kept(plan, c, w.(t := WriteBatch(w.t, batch, disk)), disk)
  {
    var upto := from + |batch|;
    OffsetGrows(plan, upto, w.delivered);
    AcceptsStretch(plan, c, w.t.receiver, from, batch, |batch|);
    if disk.stopsAt.Some? {
      var size := |Payload(batch)|;
      FailedWriteKeeps(plan, w, from, batch, if disk.stopsAt.value < size then disk.stopsAt.value else size);
    } else {
      OffsetGrows(plan, from, upto);
      OffsetGrows(plan, upto, |plan|);
      ConsumeKeeps(w.t.receiver, c, w.t.hand.offset, Offset(plan, upto));
      StoreKeeps(plan, c, w, from, batch, Consume(w.t.receiver.(next := Offset(plan, upto))).value, disk);
    }
  }

  /** The batch and what stays behind are consecutive stretches of the plan. */
  lemma BatchStretches(plan: seq<Record>, t: Transfer, first: Record, visible: nat, from: nat, delivered: nat)
    requires visible <= |t.records| <= DATA_FRAMES && from + 1 + |t.records| == delivered <= |plan|
    requires first == plan[from] && Stretch(plan, from + 1, t.records)
    ensures Stretch(plan, from, Batch(t, first, visible))
    ensures QueueOk(plan, Behind(t, first, visible), delivered)
    ensures delivered - Waiting(Behind(t, first, visible)) == from + |Batch(t, first, visible)|
  {
    var batch := Batch(t, first, visible);
    forall k | 0 <= k < |batch| ensures batch[k] == plan[from + k] {
      assert k > 0 ==> batch[k] == t.records[k - 1];
    }
  }

  lemma BehindFrame(t: Transfer, first: Record, visible: nat)
    requires visible <= |t.records|
    ensures var u := Behind(t, first, visible);
            && u == t.(records := u.records, hand := t.hand.(record := u.hand.record))
            && Waiting(u) == |t.records| - Joined(|first.payload|, t.records, 0, visible)
  {
  }

  /** What a batch needs to know of the world it starts in. */
  ghost predicate Poised(plan: seq<Record>, c: Receiver, w: World, t: Transfer, first: Record, from: nat)
  {
    && |t.records| <= DATA_FRAMES && from + 1 + |t.records| == w.delivered <= |plan|
    && first == plan[from] && Stretch(plan, from + 1, t.records)
    && DiskOk(plan, c, t, from) && DeskOk(plan, w.(t := t)) && FinishSomewhere(plan, w.(t := t))
  }

  lemma BatchKeeps(plan: seq<Record>, c: Receiver, w: World, t: Transfer, first: Record, visible: nat, disk: Disk,
                   from: nat)
    requires Legal(plan, c) && visible <= |t.records| && Poised(plan, c, w, t, first, from)
    ensures Kept(plan, c, w.(t := WorkBatch(t, first, visible, disk)), disk)
  {
    BehindFrame(t, first, visible);
    BatchStretches(plan, t, first, visible, from, w.delivered);
    WriteKeeps(plan, c, w.(t := Behind(t, first, visible)), from, Batch(t, first, visible), disk);
  }

  lemma TakeFinishKeeps(plan: seq<Record>, c: Receiver, w: World, disk: Disk)
    requires Legal(plan, c) && Moving(plan, c, w)
    requires w.t.hand.record.None? && w.t.hand.finish.None? && w.t.finishSlot.Some?
    ensures var t := w.t.(finishSlot := None, hand := w.t.hand.(finish := w.t.finishSlot));
            Kept(plan, c, w.(t := FinishIfDue(t, disk)), disk)
  {
    var u := w.t.(finishSlot := None, hand := w.t.hand.(finish := w.t.finishSlot));
    LandedOrDue(plan, c, w.(t := u), Stored(w), disk);
  }

  lemma StretchTail(plan: seq<Record>, from: nat, rs: seq<Record>)
    requires Stretch(plan, from, rs) && rs != []
    ensures rs[0] == plan[from] && Stretch(plan, from + 1, rs[1..])
  {
    assert rs[0] == plan[from + 0];
  }

  /** The worker takes the first waiting record, and nothing else has moved. */
  lemma RecordTaken(plan: seq<Record>, c: Receiver, w: World, t: Transfer)
    requires Moving(plan, c, w) && w.t.records != [] && w.t.hand.record.None? && t == w.t.(records := w.t.records[1..])
    ensures Stored(w) >= 0 && Poised(plan, c, w, t, w.t.records[0], Stored(w))
  {
    StretchTail(plan, Stored(w), w.t.records);
  }

  lemma IdleKeeps(plan: seq<Record>, c: Receiver, w: World, disk: Disk)
    requires Moving(plan, c, w)
    ensures Kept(plan, c, w.(t := w.t), disk)
  {
    assert w.(t := w.t) == w;
  }

  lemma HeldKeeps(plan: seq<Record>, c: Receiver, w: World, visible: nat, disk: Disk)
    requires Legal(plan, c) && Moving(plan, c, w) && visible <= |w.t.records| && w.t.hand.record.Some?
    ensures Kept(plan, c, w.(t := WorkBatch(w.t, w.t.hand.record.value, visible, disk)), disk)
  {
    assert w.(t := w.t) == w;
    BatchKeeps(plan, c, w, w.t, w.t.hand.record.value, visible, disk, Stored(w));
  }

  lemma TakeRecordKeeps(plan: seq<Record>, c: Receiver, w: World, rest: Transfer, visible: nat, disk: Disk)
    requires Legal(plan, c) && Moving(plan, c, w) && 0 < visible <= |w.t.records| && w.t.hand.record.None?
    requires rest == w.t.(records := w.t.records[1..])
    ensures Kept(plan, c, w.(t := WorkBatch(rest, w.t.records[0], visible - 1, disk)), disk)
  {
    RecordTaken(plan, c, w, rest);
    BatchKeeps(plan, c, w, rest, w.t.records[0], visible - 1, disk, Stored(w));
  }

  lemma WorkKeeps(plan: seq<Record>, c: Receiver, w: World, visible: nat, seesFinish: bool, disk: Disk)
    requires Legal(plan, c) && Moving(plan, c, w) && visible <= |w.t.records|
    ensures Kept(plan, c, w.(t := WorkerTurn(w.t, visible, seesFinish, disk)), disk)
  {
    TurnCases(w.t, visible, seesFinish, disk);
    if w.t.hand.record.Some? {
      HeldKeeps(plan, c, w, visible, disk);
    } else if w.t.hand.finish.None? && seesFinish && w.t.finishSlot.Some? {
      TakeFinishKeeps(plan, c, w, disk);
    } else if visible > 0 {
      TakeRecordKeeps(plan, c, w, w.t.(records := w.t.records[1..]), visible, disk);
    } else {
      IdleKeeps(plan, c, w, disk);
    }
  }

  // ---- every run ----

  predicate Healthy(step: Step)
  {
    step.Work? ==> step.disk == Disk(None, true)
  }

  lemma NextKeeps(plan: seq<Record>, c: Receiver, w: World, step: Step)
    requires Legal(plan, c) && Inv(plan, c, w) && Enabled(plan, w, step)
    ensures Inv(plan, c, Next(plan, w, step))
    ensures Healthy(step) && !Broken(plan, w) ==> !Broken(plan, Next(plan, w, step))
  {
    if Moving(plan, c, w) {
      match step
      case Deliver => DeliverKeeps(plan, c, w);
      case DeliverFinish => FinishKeeps(plan, c, w);
      case Work(visible, seesFinish, disk) => WorkKeeps(plan, c, w, visible, seesFinish, disk);
    } else if step.Deliver? {
      NextOffset(plan, c, w.delivered);
    }
  }

  lemma StartMoves(plan: seq<Record>, c: Receiver)
    requires Legal(plan, c) && c.next == c.consumed == 0 && !c.finished
    ensures Moving(plan, c, World(Start(c), 0, false))
  {
  }

  /** In every run the destination holds a prefix, and a finish is reported only after every byte. */
  lemma {:induction false} RunKeeps(plan: seq<Record>, c: Receiver, steps: seq<Step>)
    requires Legal(plan, c) && c.next == c.consumed == 0 && !c.finished
    requires Run(plan, c, steps).Some?
    ensures Inv(plan, c, Run(plan, c, steps).value)
    ensures (forall i :: 0 <= i < |steps| ==> Healthy(steps[i])) ==> !Broken(plan, Run(plan, c, steps).value)
  {
    if steps == [] {
      StartMoves(plan, c);
    } else {
      RunKeeps(plan, c, steps[..|steps| - 1]);
      NextKeeps(plan, c, Run(plan, c, steps[..|steps| - 1]).value, steps[|steps| - 1]);
    }
  }

  lemma LogInOrder(plan: seq<Record>, c: Receiver, w: World, i: nat)
    requires i < |w.t.log| && (Moving(plan, c, w) || Complete(plan, w) || Broken(plan, w))
    ensures Bytes(w.t.log) <= Payload(plan)
    ensures w.t.log[i] == Finished ==> i == |w.t.log| - 1 && Bytes(w.t.log) == Payload(plan)
  {
    if Moving(plan, c, w) {
      PrefixGrows(plan, Stored(w), |plan|);
    } else {
      assert i < |w.t.log| - 1 ==> w.t.log[..|w.t.log| - 1][i] == w.t.log[i];
    }
  }

  /** What the destination has seen: always a prefix of the data, and the finish once, last and after all of it. */
  lemma FinishIsLastAndOnce(plan: seq<Record>, c: Receiver, steps: seq<Step>, i: nat)
    requires Legal(plan, c) && c.next == c.consumed == 0 && !c.finished
    requires Run(plan, c, steps).Some? && i < |Run(plan, c, steps).value.t.log|
    ensures var log := Run(plan, c, steps).value.t.log;
            && Bytes(log) <= Payload(plan)
            && (log[i] == Finished ==> i == |log| - 1 && Bytes(log) == Payload(plan))
  {
    RunKeeps(plan, c, steps);
    LogInOrder(plan, c, Run(plan, c, steps).value, i);
  }
}
