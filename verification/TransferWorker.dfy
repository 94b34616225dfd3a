/**
 The receive path of one filesystem transfer as the agent and its worker run it: two queues,
 two held finishes, coalescing loops and vectored writes, each step proved to be the model's.
 */
module TransferWorker {
  import opened Prelude
  import opened TransferModel
  import TransferRun

  /** A batch is as long as it can be without passing the limit. */
  lemma {:induction false} JoinedFills(first: nat, queue: seq<Record>, i: nat, visible: nat)
    requires i <= visible <= |queue| && (i > 0 ==> first + |Prefix(queue, i)| <= COALESCE_BYTES)
    ensures var n := Joined(first + |Prefix(queue, i)|, queue, i, visible);
            && (n > 0 ==> first + |Prefix(queue, n)| <= COALESCE_BYTES)
            && (n < visible ==>
                  first + |Prefix(queue, n)| >= COALESCE_BYTES || first + |Prefix(queue, n + 1)| > COALESCE_BYTES)
    decreases visible - i
  {
    var size := first + |Prefix(queue, i)|;
    if i < visible && size < COALESCE_BYTES && size + |queue[i].payload| <= COALESCE_BYTES {
      assert |Prefix(queue, i + 1)| == |Prefix(queue, i)| + |queue[i].payload|;
      JoinedFills(first, queue, i + 1, visible);
    }
  }

  /** Take visible queued records while they fit; one that does not fit has already left the queue. */
  method Coalesce(first: Record, queue: seq<Record>, visible: nat)
    returns (batch: seq<Record>, pending: Option<Record>, rest: seq<Record>)
    requires visible <= |queue|
    ensures var n := Joined(|first.payload|, queue, 0, visible);
            && batch == [first] + queue[..n]
            && (if n < visible && |first.payload| + |Prefix(queue, n)| < COALESCE_BYTES
                then pending == Some(queue[n]) && rest == queue[n + 1..]
                else pending == None && rest == queue[n..])
  {
    batch, pending, rest := [first], None, queue;
    var size, i := |first.payload|, 0;
    while size < COALESCE_BYTES && i < visible
      invariant i <= visible && rest == queue[i..] && batch == [first] + queue[..i] && pending == None
      invariant size == |first.payload| + |Prefix(queue, i)|
      invariant Joined(|first.payload|, queue, 0, visible) == Joined(size, queue, i, visible)
      decreases visible - i
    {
      var r := rest[0];
      var nextSize := size + |r.payload|;
      if nextSize > COALESCE_BYTES {
        pending, rest := Some(r), rest[1..];
        return;
      }
      batch, size, rest, i := batch + [r], nextSize, rest[1..], i + 1;
    }
  }

  /** Admit a batch record by record. */
  method Admit(receiver: Receiver, batch: seq<Record>) returns (r: Option<Receiver>)
    ensures r == AcceptAll(receiver, batch)
  {
    var c := receiver;
    for i := 0 to |batch|
      invariant AcceptFirst(receiver, batch, i) == Some(c)
    {
      var next := Accept(c, batch[i]);
      if next.None? {
        RefusedStaysRefused(receiver, batch, i + 1, |batch|);
        return None;
      }
      c := next.value;
    }
    return Some(c);
  }

  lemma {:induction false} RefusedStaysRefused(c: Receiver, batch: seq<Record>, i: nat, n: nat)
    requires i <= n <= |batch| && AcceptFirst(c, batch, i).None?
    ensures AcceptFirst(c, batch, n).None?
  {
    if i < n {
      RefusedStaysRefused(c, batch, i, n - 1);
    }
  }

  predicate NonEmpty(rs: seq<Record>)
  {
    forall i :: 0 <= i < |rs| ==> rs[i].payload != []
  }

  /** Move the cursor `n` bytes on: over whole records first, then into one. */
  method Advance(rs: seq<Record>, index: nat, offset: nat, n: nat) returns (index': nat, offset': nat)
    requires NonEmpty(rs) && index < |rs| && offset < |rs[index].payload| && 0 < n
    requires TransferRun.Offset(rs, index) + offset + n <= |Payload(rs)|
    ensures index' <= |rs| && (index' < |rs| ==> offset' < |rs[index'].payload|) && (index' == |rs| ==> offset' == 0)
    ensures TransferRun.Offset(rs, index') + offset' == TransferRun.Offset(rs, index) + offset + n
  {
    index', offset' := index, offset;
    var remaining := n;
    while index' < |rs|
      invariant index' <= |rs|
      invariant (index' < |rs| ==> offset' < |rs[index'].payload|) && (index' == |rs| ==> offset' == 0)
      invariant TransferRun.Offset(rs, index') + offset' + remaining == TransferRun.Offset(rs, index) + offset + n
      invariant remaining > 0
      decreases |rs| - index'
    {
      OffsetStep(rs, index');
      var here := |rs[index'].payload| - offset';
      if remaining < here {
        offset' := offset' + remaining;
        return;
      }
      remaining := remaining - here;
      index', offset' := index' + 1, 0;
      if remaining == 0 {
        return;
      }
    }
  }

  lemma OffsetStep(rs: seq<Record>, i: nat)
    requires i < |rs|
    ensures TransferRun.Offset(rs, i + 1) == TransferRun.Offset(rs, i) + |rs[i].payload|
    ensures TransferRun.Offset(rs, i + 1) <= |Payload(rs)|
  {
    TransferRun.OffsetGrows(rs, i + 1, |rs|);
  }

  /** The slices handed to the kernel: the rest of one payload and every later one. */
  function Offered(rs: seq<Record>, index: nat, offset: nat): seq<byte>
    requires index < |rs| && offset <= |rs[index].payload|
  {
    rs[index].payload[offset..] + Payload(rs[index + 1..])
  }

  lemma Tail(before: seq<byte>, here: seq<byte>, later: seq<byte>, offset: nat)
    requires offset <= |here|
    ensures (before + here + later)[|before| + offset..] == here[offset..] + later
  {
  }

  lemma Continue(all: seq<byte>, k: nat, n: nat)
    requires k + n <= |all|
    ensures all[..k] + all[k..][..n] == all[..k + n]
  {
  }

  lemma OfferedIsTheRest(rs: seq<Record>, index: nat, offset: nat)
    requires index < |rs| && offset <= |rs[index].payload|
    ensures TransferRun.Offset(rs, index) + offset <= |Payload(rs)|
    ensures Offered(rs, index, offset) == Payload(rs)[TransferRun.Offset(rs, index) + offset..]
  {
    var later := rs[index + 1..];
    TransferRun.StretchBytes(rs, index + 1, later, |later|);
    Tail(Prefix(rs, index), rs[index].payload, Payload(later), offset);
  }

  /** Whether a write of `left` bytes succeeds and how many it stores. */
  datatype Served = Served(ok: bool, count: nat)

  /**
   The reference: a single stream with `left` bytes to go. The kernel's answer to call `k` is
   `kernel(k)`: None is an error, zero is refused, and it never takes more than offered.
   */
  function Serve(left: nat, kernel: nat -> Option<nat>, k: nat): (r: Served)
    ensures r.count <= left && (r.ok <==> r.count == left)
  {
    if left == 0 then Served(true, 0)
    else if kernel(k).None? || kernel(k).value == 0 then Served(false, 0)
    else
      var n := if kernel(k).value < left then kernel(k).value else left;
      var rest := Serve(left - n, kernel, k + 1);
      Served(rest.ok, n + rest.count)
  }

  /** The bytes the kernel offered to take in its first `n` calls. */
  function TakenBy(kernel: nat -> Option<nat>, n: nat): nat
  {
    if n == 0 then 0 else TakenBy(kernel, n - 1) + if kernel(n - 1).Some? then kernel(n - 1).value else 0
  }

  /** No call before `n` failed, and those before the last of them did not complete the write. */
  predicate StillGoing(left: nat, kernel: nat -> Option<nat>, n: nat)
  {
    (forall k :: 0 <= k < n ==> kernel(k).Some? && kernel(k).value > 0) && (n > 0 ==> TakenBy(kernel, n - 1) < left)
  }

  lemma {:induction false} ServeSkips(left: nat, kernel: nat -> Option<nat>, n: nat)
    requires StillGoing(left, kernel, n)
    ensures var done := if TakenBy(kernel, n) < left then TakenBy(kernel, n) else left;
            var rest := Serve(left - done, kernel, n);
            Serve(left, kernel, 0) == Served(rest.ok, done + rest.count)
  {
    if n > 0 {
      ServeSkips(left, kernel, n - 1);
    }
  }

  /**
   In closed form: all is stored once the calls add up to it, and otherwise what they took before the
   one that failed.
   */
  lemma ServeIsExact(left: nat, kernel: nat -> Option<nat>, n: nat)
    requires StillGoing(left, kernel, n)
    ensures TakenBy(kernel, n) >= left ==> Serve(left, kernel, 0) == Served(true, left)
    ensures TakenBy(kernel, n) < left && (kernel(n).None? || kernel(n).value == 0) ==>
            Serve(left, kernel, 0) == Served(false, TakenBy(kernel, n))
  {
    ServeSkips(left, kernel, n);
  }

  ghost predicate Willing(kernel: nat -> Option<nat>)
  {
    forall k :: kernel(k).Some? && kernel(k).value > 0
  }

  /** The disk as a write of `batch` finds it. */
  function DiskFor(batch: seq<Record>, kernel: nat -> Option<nat>, flushes: bool): Disk
  {
    var served := Serve(|Payload(batch)|, kernel, 0);
    Disk(if served.ok then None else Some(served.count), flushes)
  }

  /** The batch a turn writes, if it writes one. */
  function TurnBatch(t: Transfer, visible: nat): seq<Record>
    requires visible <= |t.records|
  {
    if t.hand.record.Some? then Batch(t, t.hand.record.value, visible)
    else if visible > 0 then Batch(t.(records := t.records[1..]), t.records[0], visible - 1)
    else []
  }

  /** A kernel that always takes something completes every write. */
  lemma {:induction false} WillingKernelCompletes(left: nat, kernel: nat -> Option<nat>, k: nat)
    requires Willing(kernel)
    ensures Serve(left, kernel, k) == Served(true, left)
  {
    if left > 0 {
      var n := if kernel(k).value < left then kernel(k).value else left;
      WillingKernelCompletes(left - n, kernel, k + 1);
    }
  }

  /** The cursor stands after `stored` bytes of the payloads. */
  predicate CursorAt(rs: seq<Record>, index: nat, offset: nat, stored: nat)
  {
    && index <= |rs| && (index < |rs| ==> offset < |rs[index].payload|) && (index == |rs| ==> offset == 0)
    && TransferRun.Offset(rs, index) + offset == stored <= |Payload(rs)|
  }

  /** One call of the kernel: it takes at most `count` of the slices from the cursor on. */
  method TakeSome(rs: seq<Record>, index: nat, offset: nat, stored: seq<byte>, count: nat)
    returns (index': nat, offset': nat, stored': seq<byte>)
    requires NonEmpty(rs) && index < |rs| && CursorAt(rs, index, offset, |stored|) && count > 0
    requires stored == Payload(rs)[..|stored|]
    ensures var left := |Payload(rs)| - |stored|;
            |stored'| == |stored| + if count < left then count else left
    ensures |stored'| > |stored| && CursorAt(rs, index', offset', |stored'|) && stored' == Payload(rs)[..|stored'|]
  {
    OffsetStep(rs, index);
    var slices := Offered(rs, index, offset);
    OfferedIsTheRest(rs, index, offset);
    var n := if count < |slices| then count else |slices|;
    index', offset' := Advance(rs, index, offset, n);
    Continue(Payload(rs), |stored|, n);
    stored' := stored + slices[..n];
  }

  /** The first `k` calls stored `done` of `total` bytes, and the rest decides. */
  predicate Upto(total: nat, kernel: nat -> Option<nat>, k: nat, done: nat)
  {
    done <= total &&
    var rest := Serve(total - done, kernel, k);
    Serve(total, kernel, 0) == Served(rest.ok, done + rest.count)
  }

  lemma UptoNext(total: nat, kernel: nat -> Option<nat>, k: nat, done: nat, n: nat)
    requires Upto(total, kernel, k, done) && done < total && kernel(k).Some? && kernel(k).value > 0
    requires n == if kernel(k).value < total - done then kernel(k).value else total - done
    ensures Upto(total, kernel, k + 1, done + n)
  {
  }

  /** The slices of many payloads behave like one stream: exactly what the kernel took is stored. */
  method WriteVectored(rs: seq<Record>, kernel: nat -> Option<nat>) returns (ok: bool, stored: seq<byte>)
    requires NonEmpty(rs)
    ensures ok == Serve(|Payload(rs)|, kernel, 0).ok
    ensures stored == Payload(rs)[..Serve(|Payload(rs)|, kernel, 0).count]
  {
    var index: nat, offset: nat, calls: nat := 0, 0, 0;
    stored := [];
    while index < |rs|
      invariant CursorAt(rs, index, offset, |stored|) && stored == Payload(rs)[..|stored|]
      invariant Upto(|Payload(rs)|, kernel, calls, |stored|)
      decreases |Payload(rs)| - |stored|
    {
      OffsetStep(rs, index);
      var answer := kernel(calls);
      if answer.None? || answer.value == 0 {
        return false, stored;
      }
      ghost var done := |stored|;
      index, offset, stored := TakeSome(rs, index, offset, stored, answer.value);
      UptoNext(|Payload(rs)|, kernel, calls, done, |stored| - done);
      calls := calls + 1;
    }
    return true, stored;
  }

  // ---- the agent and the worker ----

  class FsWrite {
    var receivedOffset: nat
    var pendingFinish: Option<nat>
    var records: seq<Record>
    var finishSlot: Option<nat>
    var heldFinish: Option<nat>
    var heldRecord: Option<Record>
    var offset: nat
    var receiver: Receiver
    var phase: Phase
    ghost var log: seq<Effect>

    ghost function View(): Transfer
      reads this
    {
      Transfer(Desk(receivedOffset, pendingFinish), records, finishSlot, Hand(heldFinish, heldRecord, offset),
               receiver, log, phase)
    }

    constructor (c: Receiver)
      ensures View() == Start(c)
    {
      receivedOffset, pendingFinish, records, finishSlot := 0, None, [], None;
      heldFinish, heldRecord, offset, receiver, phase, log := None, None, 0, c, Open, [];
    }

    method CancelCorrelation()
      modifies `phase, `receivedOffset, `pendingFinish
      ensures View() == Cancel(old(View()))
    {
      phase, receivedOffset, pendingFinish := Cancelled, 0, None;
    }

    method DispatchFinish(finish: nat)
      modifies `phase, `receivedOffset, `pendingFinish, `finishSlot
      ensures View() == Dispatch(old(View()), finish)
    {
      if phase != Open || finishSlot.Some? {
        CancelCorrelation();
      } else {
        finishSlot := Some(finish);
        receivedOffset, pendingFinish := 0, None;
      }
    }

    /** A raw record from the bulk lane; a finish that waited for it goes to the worker. */
    method HandleRecord(r: Record)
      modifies this
      ensures View() == ReceiveRecord(old(View()), r)
    {
      var end := r.offset + |r.payload|;
      if end > U64_MAX {
        phase := Crashed;
        return;
      }
      if phase != Open || |records| >= ITEM_CAPACITY {
        CancelCorrelation();
        return;
      }
      records := records + [r];
      receivedOffset := end;
      if pendingFinish.Some? && pendingFinish.value <= end {
        DispatchFinish(pendingFinish.value);
      }
    }

    /** The finish from the control lane; one that overtakes its data waits at the agent. */
    method HandleFinish(finish: nat)
      modifies `phase, `receivedOffset, `pendingFinish, `finishSlot
      ensures View() == ReceiveFinish(old(View()), finish)
    {
      if phase == Open && finish > receivedOffset {
        if pendingFinish.Some? {
          CancelCorrelation();
        } else {
          pendingFinish := Some(finish);
        }
      } else {
        DispatchFinish(finish);
      }
    }

    method Complete(flushes: bool)
      requires heldFinish.Some?
      modifies `heldFinish, `receiver, `phase, `log
      ensures forall stop :: View() == ApplyFinish(old(View()), Disk(stop, flushes))
    {
      var finish := heldFinish.value;
      heldFinish := None;
      phase := Done;
      if receiver.finished || finish != receiver.next
         || (receiver.expected.Some? && receiver.consumed != receiver.expected.value) || !flushes
      {
        log := log + [Failed([])];
      } else {
        receiver := receiver.(finished := true);
        log := log + [Finished];
      }
    }

    method CompleteIfDue(flushes: bool)
      modifies `heldFinish, `receiver, `phase, `log
      ensures forall stop :: View() == FinishIfDue(old(View()), Disk(stop, flushes))
    {
      if heldFinish.Some? && heldFinish.value <= offset {
        Complete(flushes);
      }
    }

    /** Admit, write and account one batch, as far as the kernel lets it. */
    method StoreBatch(batch: seq<Record>, kernel: nat -> Option<nat>, flushes: bool)
      requires batch != []
      modifies `heldFinish, `receiver, `phase, `log, `offset
      ensures View() == WriteBatch(old(View()), batch, DiskFor(batch, kernel, flushes))
    {
      var admitted := Admit(receiver, batch);
      if admitted.None? {
        log, phase := log + [Failed([])], Done;
        return;
      }
      AdmittedAreNonEmpty(receiver, batch);
      var ok, stored := WriteVectored(batch, kernel);
      if !ok {
        log, phase := log + [Failed(stored)], Done;
        return;
      }
      assert stored == Payload(batch);
      var next := Consume(admitted.value);
      if next.None? {
        log, phase := log + [Failed(stored)], Done;
        return;
      }
      receiver := next.value;
      offset := End(batch[|batch| - 1]);
      log := log + [Wrote(stored)];
      CompleteIfDue(flushes);
    }

    /** Coalesce and store one batch that starts with `first`, seeing `visible` queued records. */
    method WorkOn(first: Record, visible: nat, kernel: nat -> Option<nat>, flushes: bool)
      requires visible <= |records|
      modifies `heldFinish, `heldRecord, `records, `receiver, `phase, `log, `offset
      ensures View() ==
              WorkBatch(old(View()), first, visible, DiskFor(Batch(old(View()), first, visible), kernel, flushes))
    {
      var batch, pending, rest := Coalesce(first, records, visible);
      heldRecord, records := pending, rest;
      StoreBatch(batch, kernel, flushes);
    }

    /** Take the first queued record and work on it. */
    method WorkOnNext(visible: nat, kernel: nat -> Option<nat>, flushes: bool)
      requires 0 < visible <= |records|
      modifies `heldFinish, `heldRecord, `records, `receiver, `phase, `log, `offset
      ensures var t, first := old(View()).(records := old(records)[1..]), old(records)[0];
              View() == WorkBatch(t, first, visible - 1, DiskFor(Batch(t, first, visible - 1), kernel, flushes))
    {
      var first := records[0];
      records := records[1..];
      WorkOn(first, visible - 1, kernel, flushes);
    }

    /** One iteration of the worker's loop. */
    method Turn(visible: nat, seesFinish: bool, kernel: nat -> Option<nat>, flushes: bool)
      requires visible <= |records|
      modifies `heldFinish, `heldRecord, `records, `finishSlot, `receiver, `phase, `log, `offset
      ensures View() ==
              WorkerTurn(old(View()), visible, seesFinish, DiskFor(TurnBatch(old(View()), visible), kernel, flushes))
    {
      if phase != Open {
        return;
      }
      if heldRecord.Some? {
        WorkOn(heldRecord.value, visible, kernel, flushes);
      } else if heldFinish.None? && seesFinish && finishSlot.Some? {
        heldFinish, finishSlot := finishSlot, None;
        CompleteIfDue(flushes);
      } else if visible > 0 {
        WorkOnNext(visible, kernel, flushes);
      }
    }
  }

  lemma AdmittedAreNonEmpty(c: Receiver, batch: seq<Record>)
    requires AcceptAll(c, batch).Some?
    ensures NonEmpty(batch)
  {
    forall i | 0 <= i < |batch| ensures batch[i].payload != [] {
      if AcceptFirst(c, batch, i + 1).None? {
        RefusedStaysRefused(c, batch, i + 1, |batch|);
      }
    }
  }
}
