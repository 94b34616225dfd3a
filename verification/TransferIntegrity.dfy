/**
 What holds for any host, legal or not: the credit never runs more than a window ahead of the
 disk, every stored byte was sent for the place it is stored at, and a finish is reported only
 over exactly the bytes it announced.
 */
module TransferIntegrity {
  import opened Prelude
  import opened TransferModel
  import opened TransferRun

  // ---- the window ----

  /** A batch extends the credit only when at most half of the window is left, and then to a whole one. */
  lemma CreditMovesLazily(t: Transfer, batch: seq<Record>, disk: Disk)
    requires batch != [] && t.phase == Open
    ensures var c, d := t.receiver, WriteBatch(t, batch, disk).receiver;
            WriteBatch(t, batch, disk).phase == Open ==>
              && d.consumed == d.next && d.window == c.window
              && d.limit == if c.limit - d.consumed <= c.window / 2 && d.consumed + c.window > c.limit
                            then d.consumed + c.window else c.limit
  {
    AcceptKeepsLimits(t.receiver, batch, |batch|);
  }

  lemma {:induction false} AcceptKeepsLimits(c: Receiver, rs: seq<Record>, n: nat)
    requires n <= |rs|
    ensures AcceptFirst(c, rs, n).Some? ==> AcceptFirst(c, rs, n).value == c.(next := AcceptFirst(c, rs, n).value.next)
  {
    if n > 0 {
      AcceptKeepsLimits(c, rs, n - 1);
    }
  }

  /**
   In every run of a legal transfer the limit is the initial grant or a window beyond a stored
   record, and what was handed over and is not yet stored never exceeds the window.
   */
  lemma OutstandingWithinWindow(plan: seq<Record>, c: Receiver, steps: seq<Step>)
    requires NewReceiver(c.maxPayload, c.limit, c.window, c.expected) == Some(c) && Legal(plan, c)
    requires Run(plan, c, steps).Some? && Run(plan, c, steps).value.t.phase == Open
    ensures var w := Run(plan, c, steps).value;
            && w.delivered <= |plan| && 0 <= Stored(w) <= |plan|
            && w.t.receiver.consumed == |Bytes(w.t.log)| == Offset(plan, Stored(w))
            && w.t.receiver.limit <= w.t.receiver.consumed + c.window
            && GrantedAt(plan, c, w.t.receiver.limit, Stored(w))
            && Offset(plan, w.delivered) - |Bytes(w.t.log)| <= c.window
  {
    RunKeeps(plan, c, steps);
  }

  // ---- any host ----

  /** What may happen to a transfer: any record, any finish, any worker turn. */
  datatype HostEvent = Arrives(record: Record) | Announces(finish: nat) | Works(visible: nat, sees: bool, disk: Disk)

  function After(t: Transfer, ev: HostEvent): Option<Transfer>
  {
    match ev
    case Arrives(r) => Some(ReceiveRecord(t, r))
    case Announces(n) => Some(ReceiveFinish(t, n))
    case Works(visible, sees, disk) => if visible <= |t.records| then Some(WorkerTurn(t, visible, sees, disk)) else None
  }

  function RunAny(c: Receiver, evs: seq<HostEvent>): Option<Transfer>
  {
    if evs == [] then Some(Start(c))
    else match RunAny(c, evs[..|evs| - 1])
      case None => None
      case Some(t) => After(t, evs[|evs| - 1])
  }

  /** A record is queued exactly while the transfer is open, its queue has a place and its end can be counted. */
  lemma RecordIsQueuedIff(t: Transfer, r: Record)
    ensures var u := ReceiveRecord(t, r);
            && (u.records == t.records + [r] <==>
                t.phase == Open && |t.records| < ITEM_CAPACITY && r.offset + |r.payload| <= U64_MAX)
            && (u.records != t.records + [r] ==> u.records == t.records)
            && (u.phase == Crashed <==> r.offset + |r.payload| > U64_MAX)
  {
  }

  /** A finish waits for its data, is passed on, or cancels: one of these, by what is already there. */
  lemma FinishWaitsOrPassesIff(t: Transfer, n: nat)
    requires t.phase == Open
    ensures var u := ReceiveFinish(t, n);
            && (u.phase == Cancelled <==>
                if n > t.desk.receivedOffset then t.desk.pendingFinish.Some? else t.finishSlot.Some?)
            && (u.phase != Cancelled ==>
                  u == if n > t.desk.receivedOffset then t.(desk := Desk(t.desk.receivedOffset, Some(n)))
                       else t.(desk := Desk(0, None), finishSlot := Some(n)))
  {
  }

  /** The record was sent by the host. */
  predicate Sent(evs: seq<HostEvent>, r: Record)
  {
    exists i :: 0 <= i < |evs| && evs[i] == Arrives(r)
  }

  predicate Announced(evs: seq<HostEvent>, n: nat)
  {
    exists i :: 0 <= i < |evs| && evs[i] == Announces(n)
  }

  /** The byte was sent for place `p` of the destination. */
  ghost predicate SentFor(evs: seq<HostEvent>, p: nat, b: byte)
  {
    exists r :: Sent(evs, r) && r.offset <= p < End(r) && r.payload[p - r.offset] == b
  }

  ghost predicate AllSent(evs: seq<HostEvent>, bytes: seq<byte>)
  {
    forall p :: 0 <= p < |bytes| ==> SentFor(evs, p, bytes[p])
  }

  ghost predicate QueueSent(evs: seq<HostEvent>, t: Transfer)
  {
    && (forall i :: 0 <= i < |t.records| ==> Sent(evs, t.records[i]))
    && (t.hand.record.Some? ==> Sent(evs, t.hand.record.value))
  }

  predicate FinishSent(evs: seq<HostEvent>, t: Transfer)
  {
    && (t.desk.pendingFinish.Some? ==> Announced(evs, t.desk.pendingFinish.value))
    && (t.finishSlot.Some? ==> Announced(evs, t.finishSlot.value))
    && (t.hand.finish.Some? ==> Announced(evs, t.hand.finish.value))
  }

  /** Some turn of the worker met a disk that flushes. */
  predicate Flushed(evs: seq<HostEvent>)
  {
    exists i :: 0 <= i < |evs| && evs[i].Works? && evs[i].disk.flushes
  }

  /** No more bytes than were granted, or than were agreed on. */
  predicate Within(c: Receiver, limit: nat, bytes: seq<byte>)
  {
    |bytes| <= limit && (c.expected.Some? ==> |bytes| <= c.expected.value)
  }

  /** Writes, then perhaps a failure, or a flushed finish over exactly the bytes announced and expected. */
  predicate LogOk(evs: seq<HostEvent>, c: Receiver, log: seq<Effect>)
  {
    || OnlyWrites(log)
    || (&& log != [] && OnlyWrites(log[..|log| - 1]) && !log[|log| - 1].Wrote?
        && (log[|log| - 1].Finished? ==>
              && Announced(evs, |Bytes(log)|) && Flushed(evs)
              && (c.expected.Some? ==> c.expected.value == |Bytes(log)|)))
  }

  ghost predicate Sound(evs: seq<HostEvent>, c: Receiver, t: Transfer)
  {
    && QueueSent(evs, t) && FinishSent(evs, t) && AllSent(evs, Bytes(t.log)) && LogOk(evs, c, t.log)
    && Within(c, t.receiver.limit, Bytes(t.log))
    && (t.phase == Open ==>
          && OnlyWrites(t.log) && !t.receiver.finished && t.receiver.expected == c.expected
          && t.receiver.next == t.receiver.consumed == |Bytes(t.log)|)
  }

  // ---- more events only add ----

  lemma SentGrows(evs: seq<HostEvent>, ev: HostEvent)
    ensures forall r :: Sent(evs, r) ==> Sent(evs + [ev], r)
    ensures forall n :: Announced(evs, n) ==> Announced(evs + [ev], n)
    ensures forall p, b :: SentFor(evs, p, b) ==> SentFor(evs + [ev], p, b)
    ensures Flushed(evs) || (ev.Works? && ev.disk.flushes) ==> Flushed(evs + [ev])
    ensures ev.Arrives? ==> Sent(evs + [ev], ev.record)
    ensures ev.Announces? ==> Announced(evs + [ev], ev.finish)
  {
    var all := evs + [ev];
    forall r | Sent(evs, r) ensures Sent(all, r) {
      var i :| 0 <= i < |evs| && evs[i] == Arrives(r);
      assert all[i] == evs[i];
    }
    forall n | Announced(evs, n) ensures Announced(all, n) {
      var i :| 0 <= i < |evs| && evs[i] == Announces(n);
      assert all[i] == evs[i];
    }
    forall p: nat, b: byte | SentFor(evs, p, b) ensures SentFor(all, p, b) {
      var r :| Sent(evs, r) && r.offset <= p < End(r) && r.payload[p - r.offset] == b;
      assert Sent(all, r);
    }
    if Flushed(evs) {
      var i :| 0 <= i < |evs| && evs[i].Works? && evs[i].disk.flushes;
      assert all[i] == evs[i];
    }
    assert all[|evs|] == ev;
  }

  lemma SoundGrows(evs: seq<HostEvent>, ev: HostEvent, c: Receiver, t: Transfer)
    requires Sound(evs, c, t)
    ensures Sound(evs + [ev], c, t)
  {
    SentGrows(evs, ev);
  }

  // ---- a batch ----

  /** Admitted records move the receiver by exactly their bytes. */
  lemma {:induction false} AdmittedEnd(c: Receiver, rs: seq<Record>, n: nat)
    requires n <= |rs| && AcceptFirst(c, rs, n).Some?
    ensures AcceptFirst(c, rs, n).value == c.(next := c.next + |Prefix(rs, n)|)
  {
    if n > 0 {
      AdmittedEnd(c, rs, n - 1);
    }
  }

  /** And each stands where the ones before it end. */
  lemma {:induction false} AdmittedAt(c: Receiver, rs: seq<Record>, n: nat, i: nat)
    requires i < n <= |rs| && AcceptFirst(c, rs, n).Some?
    ensures rs[i].offset == c.next + |Prefix(rs, i)|
    decreases n
  {
    if i < n - 1 {
      AdmittedAt(c, rs, n - 1, i);
    } else {
      AdmittedEnd(c, rs, i);
    }
  }

  /** The record fits the limits and stands where the ones before it end. */
  predicate InPlace(c: Receiver, rs: seq<Record>, i: nat)
    requires i < |rs|
  {
    0 < |rs[i].payload| <= c.maxPayload && rs[i].offset == c.next + |Prefix(rs, i)|
  }

  /** The receiver still takes records, and `end` is within its credit, the length agreed on and the counter. */
  predicate Fits(c: Receiver, end: nat)
  {
    !c.finished && end <= U64_MAX && end <= c.limit && (c.expected.Some? ==> end <= c.expected.value)
  }

  lemma {:induction false} AdmittedIff(c: Receiver, rs: seq<Record>, n: nat)
    requires 0 < n <= |rs|
    ensures AcceptFirst(c, rs, n).Some? <==>
            (forall i :: 0 <= i < n ==> InPlace(c, rs, i)) && Fits(c, c.next + |Prefix(rs, n)|)
  {
    if n > 1 {
      AdmittedIff(c, rs, n - 1);
    }
    if AcceptFirst(c, rs, n - 1).Some? {
      AdmittedEnd(c, rs, n - 1);
      assert |Prefix(rs, n)| == |Prefix(rs, n - 1)| + |rs[n - 1].payload|;
      assert AcceptFirst(c, rs, n).Some? <==> InPlace(c, rs, n - 1) && Fits(c, c.next + |Prefix(rs, n)|);
    }
  }

  /** A batch is admitted exactly when its records follow one another from the position on, within every limit. */
  lemma BatchIsAdmittedIff(c: Receiver, batch: seq<Record>)
    requires batch != []
    ensures AcceptAll(c, batch).Some? <==>
            (forall i :: 0 <= i < |batch| ==> InPlace(c, batch, i)) && Fits(c, c.next + |Payload(batch)|)
    ensures AcceptAll(c, batch).Some? ==> AcceptAll(c, batch).value == c.(next := c.next + |Payload(batch)|)
  {
    AdmittedIff(c, batch, |batch|);
    if AcceptAll(c, batch).Some? {
      AdmittedEnd(c, batch, |batch|);
    }
  }

  /** Each byte of the batch lies in one of its records. */
  lemma {:induction false} ByteOfBatch(rs: seq<Record>, n: nat, p: nat) returns (i: nat)
    requires n <= |rs| && p < |Prefix(rs, n)|
    ensures i < n && |Prefix(rs, i)| <= p < |Prefix(rs, i)| + |rs[i].payload|
    ensures Prefix(rs, n)[p] == rs[i].payload[p - |Prefix(rs, i)|]
  {
    if p < |Prefix(rs, n - 1)| {
      i := ByteOfBatch(rs, n - 1, p);
    } else {
      i := n - 1;
    }
  }

  lemma ByteSent(evs: seq<HostEvent>, c: Receiver, batch: seq<Record>, p: nat)
    requires AcceptAll(c, batch).Some? && p < |Payload(batch)|
    requires forall i :: 0 <= i < |batch| ==> Sent(evs, batch[i])
    ensures SentFor(evs, c.next + p, Payload(batch)[p])
  {
    var i := ByteOfBatch(batch, |batch|, p);
    AdmittedAt(c, batch, |batch|, i);
    assert Sent(evs, batch[i]);
  }

  lemma BatchSent(evs: seq<HostEvent>, c: Receiver, batch: seq<Record>, stored: seq<byte>, part: nat)
    requires AllSent(evs, stored) && c.next == |stored| && AcceptAll(c, batch).Some? && part <= |Payload(batch)|
    requires forall i :: 0 <= i < |batch| ==> Sent(evs, batch[i])
    ensures AllSent(evs, stored + Payload(batch)[..part])
  {
    var bytes := Payload(batch);
    forall p | 0 <= p < part ensures SentFor(evs, |stored| + p, bytes[p]) {
      ByteSent(evs, c, batch, p);
    }
    Extends(evs, stored, bytes, part);
  }

  lemma Extends(evs: seq<HostEvent>, stored: seq<byte>, bytes: seq<byte>, part: nat)
    requires AllSent(evs, stored) && part <= |bytes|
    requires forall p :: 0 <= p < part ==> SentFor(evs, |stored| + p, bytes[p])
    ensures AllSent(evs, stored + bytes[..part])
  {
    var all := stored + bytes[..part];
    forall p | 0 <= p < |all| ensures SentFor(evs, p, all[p]) {
      if p < |stored| {
        assert SentFor(evs, p, stored[p]);
      } else {
        assert SentFor(evs, |stored| + (p - |stored|), bytes[p - |stored|]);
      }
    }
  }

  // ---- the worker ----

  lemma FailSound(evs: seq<HostEvent>, c: Receiver, t: Transfer, partial: seq<byte>)
    requires Sound(evs, c, t) && t.phase == Open && AllSent(evs, Bytes(t.log) + partial)
    requires Within(c, t.receiver.limit, Bytes(t.log) + partial)
    ensures Sound(evs, c, Fail(t, partial))
  {
    BytesAppend(t.log, Failed(partial));
    assert (t.log + [Failed(partial)])[..|t.log|] == t.log;
  }

  lemma FinishSound(evs: seq<HostEvent>, c: Receiver, t: Transfer, disk: Disk)
    requires Sound(evs, c, t) && t.phase == Open && (disk.flushes ==> Flushed(evs))
    ensures Sound(evs, c, FinishIfDue(t, disk))
  {
    if t.hand.finish.Some? && t.hand.finish.value <= t.hand.offset {
      var u := t.(hand := t.hand.(finish := None));
      assert Sound(evs, c, u);
      assert Bytes(t.log) + [] == Bytes(t.log);
      BytesAppend(t.log, Finished);
      assert (t.log + [Finished])[..|t.log|] == t.log;
      FailSound(evs, c, u, []);
    }
  }

  lemma StoreSound(evs: seq<HostEvent>, c: Receiver, t: Transfer, batch: seq<Record>, d: Receiver)
    requires Sound(evs, c, t) && t.phase == Open && batch != [] && AllSent(evs, Bytes(t.log) + Payload(batch))
    requires d == t.receiver.(next := d.next, consumed := d.next, limit := d.limit)
    requires d.next == |Bytes(t.log)| + |Payload(batch)| && Within(c, d.limit, Bytes(t.log) + Payload(batch))
    ensures Sound(evs, c, Landed(t, d, batch))
  {
    WriteAppends(t.log, Payload(batch));
  }

  lemma WriteSound(evs: seq<HostEvent>, c: Receiver, t: Transfer, batch: seq<Record>, disk: Disk)
    requires Sound(evs, c, t) && t.phase == Open && batch != [] && (disk.flushes ==> Flushed(evs))
    requires forall i :: 0 <= i < |batch| ==> Sent(evs, batch[i])
    ensures Sound(evs, c, WriteBatch(t, batch, disk))
  {
    var admitted, bytes := AcceptAll(t.receiver, batch), Payload(batch);
    if admitted.None? {
      assert Bytes(t.log) + [] == Bytes(t.log);
      FailSound(evs, c, t, []);
    } else {
      BatchIsAdmittedIff(t.receiver, batch);
      BatchSent(evs, t.receiver, batch, Bytes(t.log), |bytes|);
      assert bytes[..|bytes|] == bytes;
      if disk.stopsAt.Some? {
        var n := if disk.stopsAt.value < |bytes| then disk.stopsAt.value else |bytes|;
        BatchSent(evs, t.receiver, batch, Bytes(t.log), n);
        FailSound(evs, c, t, bytes[..n]);
      } else if Consume(admitted.value).None? {
        FailSound(evs, c, t, bytes);
      } else {
        var d := Consume(admitted.value).value;
        StoreSound(evs, c, t, batch, d);
        FinishSound(evs, c, Landed(t, d, batch), disk);
      }
    }
  }

  lemma WorkSound(evs: seq<HostEvent>, c: Receiver, t: Transfer, first: Record, visible: nat, disk: Disk)
    requires Sound(evs, c, t) && t.phase == Open && Sent(evs, first) && visible <= |t.records|
    requires disk.flushes ==> Flushed(evs)
    ensures Sound(evs, c, WorkBatch(t, first, visible, disk))
  {
    BehindFrame(t, first, visible);
    var u, batch := Behind(t, first, visible), Batch(t, first, visible);
    forall i | 0 <= i < |batch| ensures Sent(evs, batch[i]) {
      assert i > 0 ==> batch[i] == t.records[i - 1];
    }
    assert QueueSent(evs, u);
    WriteSound(evs, c, u, batch, disk);
  }

  lemma TurnSound(evs: seq<HostEvent>, c: Receiver, t: Transfer, visible: nat, sees: bool, disk: Disk)
    requires Sound(evs, c, t) && visible <= |t.records| && (disk.flushes ==> Flushed(evs))
    ensures Sound(evs, c, WorkerTurn(t, visible, sees, disk))
  {
    if t.phase == Open {
      TurnCases(t, visible, sees, disk);
      if t.hand.record.Some? {
        WorkSound(evs, c, t, t.hand.record.value, visible, disk);
      } else if t.hand.finish.None? && sees && t.finishSlot.Some? {
        FinishSound(evs, c, t.(finishSlot := None, hand := t.hand.(finish := t.finishSlot)), disk);
      } else if visible > 0 {
        var rest := t.(records := t.records[1..]);
        assert Sound(evs, c, rest);
        WorkSound(evs, c, rest, t.records[0], visible - 1, disk);
      }
    }
  }

  lemma RecordSound(evs: seq<HostEvent>, c: Receiver, t: Transfer, r: Record)
    requires Sound(evs, c, t) && Sent(evs, r)
    ensures Sound(evs, c, ReceiveRecord(t, r))
  {
    var u := ReceiveRecord(t, r);
    assert u.log == t.log && u.receiver == t.receiver && u.hand == t.hand;
    assert u.records == t.records || u.records == t.records + [r];
    assert QueueSent(evs, u) && FinishSent(evs, u);
  }

  lemma AnnouncementSound(evs: seq<HostEvent>, c: Receiver, t: Transfer, n: nat)
    requires Sound(evs, c, t) && Announced(evs, n)
    ensures Sound(evs, c, ReceiveFinish(t, n))
  {
    var u := ReceiveFinish(t, n);
    assert u.log == t.log && u.receiver == t.receiver && u.hand == t.hand && u.records == t.records;
    assert QueueSent(evs, u) && FinishSent(evs, u);
  }

  lemma AfterSound(evs: seq<HostEvent>, c: Receiver, t: Transfer, ev: HostEvent)
    requires Sound(evs, c, t) && After(t, ev).Some?
    ensures Sound(evs + [ev], c, After(t, ev).value)
  {
    SoundGrows(evs, ev, c, t);
    SentGrows(evs, ev);
    match ev
    case Arrives(r) => RecordSound(evs + [ev], c, t, r);
    case Announces(n) => AnnouncementSound(evs + [ev], c, t, n);
    case Works(visible, sees, disk) => TurnSound(evs + [ev], c, t, visible, sees, disk);
  }

  lemma {:induction false} RunSound(c: Receiver, evs: seq<HostEvent>)
    requires c.next == c.consumed == 0 && !c.finished && RunAny(c, evs).Some?
    ensures Sound(evs, c, RunAny(c, evs).value)
  {
    if evs != [] {
      var front, ev := evs[..|evs| - 1], evs[|evs| - 1];
      RunSound(c, front);
      AfterSound(front, c, RunAny(c, front).value, ev);
      assert front + [ev] == evs;
    }
  }

  /**
   Whatever a host sends, in whatever order: every byte of the destination was sent for its place,
   none lies beyond the credit granted or the length agreed on, and a finish is reported at most
   once and last, after a flush and over exactly the bytes it announced and were agreed on.
   */
  lemma NothingIsMisplaced(c: Receiver, evs: seq<HostEvent>, i: nat)
    requires c.next == c.consumed == 0 && !c.finished && RunAny(c, evs).Some?
    ensures var t, log := RunAny(c, evs).value, RunAny(c, evs).value.log;
            && AllSent(evs, Bytes(log))
            && |Bytes(log)| <= t.receiver.limit && (c.expected.Some? ==> |Bytes(log)| <= c.expected.value)
            && (i < |log| && log[i].Finished? ==>
                  && i == |log| - 1 && Announced(evs, |Bytes(log)|) && Flushed(evs)
                  && (c.expected.Some? ==> c.expected.value == |Bytes(log)|))
  {
    RunSound(c, evs);
    var log := RunAny(c, evs).value.log;
    if i < |log| && log[i].Finished? {
      FinishAt(evs, c, log, i);
    }
  }

  lemma FinishAt(evs: seq<HostEvent>, c: Receiver, log: seq<Effect>, i: nat)
    requires LogOk(evs, c, log) && i < |log| && log[i].Finished?
    ensures i == |log| - 1 && Announced(evs, |Bytes(log)|) && Flushed(evs)
    ensures c.expected.Some? ==> c.expected.value == |Bytes(log)|
  {
    assert log == log[..|log| - 1] + [log[|log| - 1]];
  }
}
