/**
 One host-to-guest filesystem transfer: raw records arrive on the bulk lane and the finish on
 the control lane, the agent holds a finish that overtakes its data, and a worker coalesces
 queued records into writes. What the disk does is a parameter of each worker turn.
 */
module TransferModel {
  import opened Prelude

  /** Queue slots of one transfer, an 8 MiB window of 16 KiB records, and the largest coalesced write. */
  const ITEM_CAPACITY: nat := 512
  const COALESCE_BYTES: nat := 3 * 1024 * 1024

  datatype Record = Record(offset: nat, payload: seq<byte>)

  /** The receiver's cumulative offsets: admitted, consumed, and the credit it has granted. */
  datatype Receiver = Receiver(
    next: nat, consumed: nat, limit: nat, window: nat, maxPayload: nat, expected: Option<nat>, finished: bool)

  /** What the destination saw; a failed write may still have stored a prefix. */
  datatype Effect = Wrote(bytes: seq<byte>) | Failed(partial: seq<byte>) | Finished

  datatype Phase = Open | Done | Cancelled | Crashed

  /** The agent's side: the end of the last record queued and a finish waiting for its data. */
  datatype Desk = Desk(receivedOffset: nat, pendingFinish: Option<nat>)

  /** The worker's side: a finish taken early, a record left over from coalescing, and its offset. */
  datatype Hand = Hand(finish: Option<nat>, record: Option<Record>, offset: nat)

  datatype Transfer = Transfer(
    desk: Desk, records: seq<Record>, finishSlot: Option<nat>, hand: Hand,
    receiver: Receiver, log: seq<Effect>, phase: Phase)

  /** How the disk answers one turn: the write stops after some bytes, or the flush fails. */
  datatype Disk = Disk(stopsAt: Option<nat>, flushes: bool)

  const Cleared: Desk := Desk(0, None)

  function Start(receiver: Receiver): Transfer
  {
    Transfer(Cleared, [], None, Hand(None, None, 0), receiver, [], Open)
  }

  function End(r: Record): nat
  {
    r.offset + |r.payload|
  }

  /** The bytes of the first `n` records. */
  function Prefix(rs: seq<Record>, n: nat): seq<byte>
    requires n <= |rs|
  {
    if n == 0 then [] else Prefix(rs, n - 1) + rs[n - 1].payload
  }

  function Payload(rs: seq<Record>): seq<byte>
  {
    Prefix(rs, |rs|)
  }

  function EffectBytes(e: Effect): seq<byte>
  {
    match e
    case Wrote(bytes) => bytes
    case Failed(partial) => partial
    case Finished => []
  }

  /** Every byte the destination holds. */
  function Bytes(log: seq<Effect>): seq<byte>
  {
    if log == [] then [] else Bytes(log[..|log| - 1]) + EffectBytes(log[|log| - 1])
  }

  // ---- the agent ----

  function Cancel(t: Transfer): Transfer
  {
    t.(phase := Cancelled, desk := Cleared)
  }

  /** Hand the finish to the worker's dedicated slot and forget the receive state. */
  function Dispatch(t: Transfer, finish: nat): Transfer
  {
    if t.phase != Open || t.finishSlot.Some? then Cancel(t) else t.(finishSlot := Some(finish), desk := Cleared)
  }

  function ReceiveRecord(t: Transfer, r: Record): Transfer
  {
    if End(r) > U64_MAX then t.(phase := Crashed)
    else if t.phase != Open || |t.records| >= ITEM_CAPACITY then Cancel(t)
    else
      var u := t.(records := t.records + [r], desk := t.desk.(receivedOffset := End(r)));
      if u.desk.pendingFinish.Some? && u.desk.pendingFinish.value <= End(r)
      then Dispatch(u, u.desk.pendingFinish.value) else u
  }

  function ReceiveFinish(t: Transfer, finish: nat): Transfer
  {
    if t.phase == Open && finish > t.desk.receivedOffset then
      if t.desk.pendingFinish.Some? then Cancel(t) else t.(desk := t.desk.(pendingFinish := Some(finish)))
    else Dispatch(t, finish)
  }

  // ---- the receiver ----

  /** Limits of the protocol, and the window the agent grants a filesystem write. */
  const MIN_RECORD: nat := 16 * 1024
  const MAX_RECORD: nat := 3 * 1024 * 1024
  const MAX_WINDOW: nat := 32 * 1024 * 1024
  const WRITE_WINDOW: nat := 8 * 1024 * 1024

  /** A receiver with its initial grant; None for limits the protocol does not allow. */
  function NewReceiver(maxPayload: nat, credit: nat, window: nat, expected: Option<nat>): Option<Receiver>
  {
    if !(MIN_RECORD <= maxPayload <= MAX_RECORD) || window == 0 || window > MAX_WINDOW || credit > window then None
    else Some(Receiver(0, 0, credit, window, maxPayload, expected, false))
  }

  /** The receiver of a filesystem write; the offered record limit is checked against the same bounds. */
  function AcceptWrite(offered: nat, expected: Option<nat>): Option<Receiver>
  {
    NewReceiver(offered, WRITE_WINDOW, WRITE_WINDOW, expected)
  }

  /** Admit one record; None for a gap, a bad length, missing credit or more than was announced. */
  function Accept(c: Receiver, r: Record): Option<Receiver>
  {
    if || c.finished || !(0 < |r.payload| <= c.maxPayload) || r.offset != c.next
       || End(r) > U64_MAX || End(r) > c.limit || (c.expected.Some? && End(r) > c.expected.value)
    then None else Some(c.(next := End(r)))
  }

  /** Admit the first `n` records, one after the other. */
  function AcceptFirst(c: Receiver, rs: seq<Record>, n: nat): (r: Option<Receiver>)
    requires n <= |rs|
    ensures r.Some? && n > 0 ==> r.value.next <= r.value.limit
  {
    if n == 0 then Some(c)
    else match AcceptFirst(c, rs, n - 1)
      case None => None
      case Some(d) => Accept(d, rs[n - 1])
  }

  function AcceptAll(c: Receiver, rs: seq<Record>): (r: Option<Receiver>)
    ensures r.Some? && rs != [] ==> r.value.next <= r.value.limit
  {
    AcceptFirst(c, rs, |rs|)
  }

  /** Count everything admitted as consumed, and extend the credit once half the window is used. */
  function Consume(c: Receiver): Option<Receiver>
    requires c.next <= c.limit
  {
    var d := c.(consumed := c.next);
    if d.limit - d.consumed > d.window / 2 then Some(d)
    else if d.consumed + d.window > U64_MAX then None
    else if d.consumed + d.window <= d.limit then Some(d)
    else Some(d.(limit := d.consumed + d.window))
  }

  // ---- the worker ----

  function Fail(t: Transfer, partial: seq<byte>): Transfer
  {
    t.(log := t.log + [Failed(partial)], phase := Done)
  }

  function ApplyFinish(t: Transfer, disk: Disk): Transfer
    requires t.hand.finish.Some?
  {
    var c := t.receiver;
    var u := t.(hand := t.hand.(finish := None));
    if !c.finished && t.hand.finish.value == c.next
       && (c.expected.Some? ==> c.consumed == c.expected.value) && disk.flushes
    then u.(receiver := c.(finished := true), log := t.log + [Finished], phase := Done)
    else Fail(u, [])
  }

  /** Apply the finish the worker holds, if all its data is on the disk. */
  function FinishIfDue(t: Transfer, disk: Disk): Transfer
  {
    if t.hand.finish.Some? && t.hand.finish.value <= t.hand.offset then ApplyFinish(t, disk) else t
  }

  function WriteBatch(t: Transfer, batch: seq<Record>, disk: Disk): Transfer
    requires batch != []
  {
    match AcceptAll(t.receiver, batch)
    case None => Fail(t, [])
    case Some(c) =>
      var bytes := Payload(batch);
      if disk.stopsAt.Some? then Fail(t, bytes[..if disk.stopsAt.value < |bytes| then disk.stopsAt.value else |bytes|])
      else match Consume(c)
        case None => Fail(t, bytes)
        case Some(d) =>
          var last := End(batch[|batch| - 1]);
          FinishIfDue(t.(receiver := d, hand := t.hand.(offset := last), log := t.log + [Wrote(bytes)]), disk)
  }

  /** Where a batch of `size` bytes that reached position `i` of the queue ends; it sees `visible` records. */
  function Joined(size: nat, queue: seq<Record>, i: nat, visible: nat): (n: nat)
    requires i <= visible <= |queue|
    ensures i <= n <= visible
    decreases visible - i
  {
    if i == visible || size >= COALESCE_BYTES || size + |queue[i].payload| > COALESCE_BYTES then i
    else Joined(size + |queue[i].payload|, queue, i + 1, visible)
  }

  /** `first` with as much of the visible queue as fits one write. */
  function Batch(t: Transfer, first: Record, visible: nat): (batch: seq<Record>)
    requires visible <= |t.records|
    ensures batch != []
  {
    [first] + t.records[..Joined(|first.payload|, t.records, 0, visible)]
  }

  /** The queue behind the batch; a record found too large was already taken off it and is kept in hand. */
  function Behind(t: Transfer, first: Record, visible: nat): Transfer
    requires visible <= |t.records|
  {
    var n := Joined(|first.payload|, t.records, 0, visible);
    if n < visible && |first.payload| + |Prefix(t.records, n)| < COALESCE_BYTES
    then t.(hand := t.hand.(record := Some(t.records[n])), records := t.records[n + 1..])
    else t.(hand := t.hand.(record := None), records := t.records[n..])
  }

  function WorkBatch(t: Transfer, first: Record, visible: nat, disk: Disk): Transfer
    requires visible <= |t.records|
  {
    WriteBatch(Behind(t, first, visible), Batch(t, first, visible), disk)
  }

  /**
   One turn of the worker, which sees the finish slot only if `seesFinish` and only the first
   `visible` queued records: the agent may add to both while the turn is under way.
   */
  function WorkerTurn(t: Transfer, visible: nat, seesFinish: bool, disk: Disk): Transfer
    requires visible <= |t.records|
  {
    if t.phase != Open then t
    else if t.hand.record.Some? then WorkBatch(t, t.hand.record.value, visible, disk)
    else if t.hand.finish.None? && seesFinish && t.finishSlot.Some? then
      FinishIfDue(t.(finishSlot := None, hand := t.hand.(finish := t.finishSlot)), disk)
    else if visible > 0 then WorkBatch(t.(records := t.records[1..]), t.records[0], visible - 1, disk)
    else t
  }

  /** What a turn does, case by case. */
  lemma TurnCases(t: Transfer, visible: nat, seesFinish: bool, disk: Disk)
    requires t.phase == Open && visible <= |t.records|
    ensures WorkerTurn(t, visible, seesFinish, disk) ==
            if t.hand.record.Some? then WorkBatch(t, t.hand.record.value, visible, disk)
            else if t.hand.finish.None? && seesFinish && t.finishSlot.Some?
            then FinishIfDue(t.(finishSlot := None, hand := t.hand.(finish := t.finishSlot)), disk)
            else if visible > 0 then WorkBatch(t.(records := t.records[1..]), t.records[0], visible - 1, disk)
            else t
  {
  }
}
