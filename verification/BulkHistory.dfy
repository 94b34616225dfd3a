/**
 What the scheduler's history says, for every run: each flow is a FIFO that only a
 flush empties, and a park cuts the byte stream between complete records.
 */
module BulkHistory {
  import opened Prelude
  import opened RelaySlots
  import opened BulkModel
  import opened BulkShape

  // ---- the simple specification: one FIFO per key, read off the log alone ----

  function QueueStep(q: Option<seq<Envelope>>, x: Entry, k: Key): Option<seq<Envelope>>
  {
    match q
    case None => None
    case Some(q) =>
      match x
      case Accepted(key, e) => Some(if key == k then q + [e] else q)
      case Wrote(key, e) =>
        if key != k then Some(q) else if q != [] && q[0] == e then Some(q[1..]) else None
      case Flushed(scope) => Some(if Covers(scope, k) then [] else q)
      case _ => Some(q)
  }

  /** The records of `k` still to be written, or None if the log is not a FIFO history. */
  function Queued(log: seq<Entry>, k: Key): Option<seq<Envelope>>
  {
    if log == [] then Some([])
    else QueueStep(Queued(log[..|log| - 1], k), log[|log| - 1], k)
  }

  function QueueOf(s: Sched, k: Key): seq<Envelope>
  {
    if k in s.flows then s.flows[k].queue else []
  }

  ghost predicate Refines(s: Sched)
  {
    forall k :: Queued(s.log, k) == Some(QueueOf(s, k))
  }

  // ---- the park cut, read off the log alone ----

  function WireTotal(log: seq<Entry>): nat
  {
    if log == [] then 0
    else
      var x := log[|log| - 1];
      WireTotal(log[..|log| - 1]) + (if x.Wrote? then WireSize(x.envelope) else 0)
  }

  function ParkedAfter(log: seq<Entry>): bool
  {
    if log == [] then false
    else
      var x := log[|log| - 1];
      if x.Parked? then true else if x.Resumed? then false else ParkedAfter(log[..|log| - 1])
  }

  predicate CutOk(log: seq<Entry>, i: nat)
    requires i < |log|
  {
    && (log[i].Parked? ==> log[i].wireBytes == WireTotal(log[..i]))
    && (log[i].Wrote? ==> !ParkedAfter(log[..i]))
  }

  ghost predicate CutsHonoured(s: Sched)
  {
    && s.wireBytes == WireTotal(s.log)
    && s.parked == ParkedAfter(s.log)
    && forall i :: 0 <= i < |s.log| ==> CutOk(s.log, i)
  }

  ghost predicate History(s: Sched)
  {
    Refines(s) && CutsHonoured(s)
  }

  // ---- one more entry ----

  lemma Extend(log: seq<Entry>, x: Entry)
    ensures forall k :: Queued(log + [x], k) == QueueStep(Queued(log, k), x, k)
    ensures WireTotal(log + [x]) == WireTotal(log) + (if x.Wrote? then WireSize(x.envelope) else 0)
    ensures ParkedAfter(log + [x]) == if x.Parked? then true else if x.Resumed? then false else ParkedAfter(log)
  {
    assert (log + [x])[..|log|] == log;
  }

  lemma ExtendCuts(log: seq<Entry>, x: Entry)
    requires forall i :: 0 <= i < |log| ==> CutOk(log, i)
    requires x.Parked? ==> x.wireBytes == WireTotal(log)
    requires x.Wrote? ==> !ParkedAfter(log)
    ensures forall i :: 0 <= i < |log + [x]| ==> CutOk(log + [x], i)
  {
    forall i | 0 <= i < |log + [x]| ensures CutOk(log + [x], i) {
      assert (log + [x])[..i] == log[..i];
      if i < |log| {
        assert CutOk(log, i);
      } else {
        assert log[..i] == log;
      }
    }
  }

  /** One step whose only entry is `x` keeps the history when it moves the queues as `x` says. */
  lemma OneEntry(s: Sched, t: Sched, x: Entry)
    requires History(s) && t.log == s.log + [x]
    requires forall k :: QueueStep(Some(QueueOf(s, k)), x, k) == Some(QueueOf(t, k))
    requires x.Parked? ==> x.wireBytes == s.wireBytes
    requires x.Wrote? ==> !s.parked
    requires t.wireBytes == s.wireBytes + (if x.Wrote? then WireSize(x.envelope) else 0)
    requires t.parked == if x.Parked? then true else if x.Resumed? then false else s.parked
    ensures History(t)
  {
    Extend(s.log, x);
    ExtendCuts(s.log, x);
  }

  lemma ApplyKeepsHistory(s: Sched, c: Command)
    requires History(s) && Apply(s, c).Some?
    ensures History(Apply(s, c).value)
  {
    var t := Apply(s, c).value;
    OneEntry(s, t, t.log[|t.log| - 1]);
  }

  lemma AppendKeepsHistory(s: Sched, k: Key, e: Envelope)
    requires History(s) && k in s.flows && Append(s, k, e).Some?
    ensures History(Append(s, k, e).value)
  {
    OneEntry(s, Append(s, k, e).value, Accepted(k, e));
  }

  lemma OfferKeepsHistory(s: Sched, e: Envelope)
    requires History(s) && Offer(s, e).Some?
    ensures History(Offer(s, e).value)
  {
    if e.generation == s.generation {
      var k := Key(e.incarnation.value, e.id);
      if !Tombstoned(s, k) {
        if k in s.flows {
          AppendKeepsHistory(s, k, e);
        } else {
          OneEntry(s, Open(s, k), Opened(k));
          AppendKeepsHistory(Open(s, k), k, e);
        }
      }
    }
  }

  lemma {:induction false} ApplyAllKeepsHistory(s: Sched, cs: seq<Command>)
    requires History(s) && ApplyAll(s, cs).Some?
    ensures History(ApplyAll(s, cs).value)
  {
    if cs != [] {
      ApplyAllKeepsHistory(s, cs[..|cs| - 1]);
      ApplyKeepsHistory(ApplyAll(s, cs[..|cs| - 1]).value, cs[|cs| - 1]);
    }
  }

  lemma {:induction false} OfferAllKeepsHistory(s: Sched, es: seq<Envelope>)
    requires History(s) && OfferAll(s, es).Some?
    ensures History(OfferAll(s, es).value)
  {
    if es != [] {
      OfferAllKeepsHistory(s, es[..|es| - 1]);
      OfferKeepsHistory(OfferAll(s, es[..|es| - 1]).value, es[|es| - 1]);
    }
  }

  lemma SendKeepsHistory(s: Sched)
    requires Shape(s) && History(s) && !s.parked && CanSend(s) && SendHead(s).Some?
    ensures History(SendHead(s).value)
  {
    var k := s.visiting.value;
    var e := s.flows[k].queue[0];
    assert FlowOk(k, s.flows[k], s.generation);
    OneEntry(s, SendHead(s).value, Wrote(k, e));
  }

  lemma VisitKeepsHistory(s: Sched)
    requires History(s) && s.active != []
    ensures History(StartVisit(s))
  {
    OneEntry(s, StartVisit(s), Visited(s.active[0], s.quantum));
  }

  lemma LeaveKeepsHistory(s: Sched)
    requires History(s) && s.visiting.Some?
    ensures History(EndVisit(s))
  {
    OneEntry(s, EndVisit(s), Left(s.visiting.value));
  }

  /** Refinement: every event moves each key's FIFO as the log alone says, and honours parks. */
  lemma NextKeepsHistory(s: Sched, ev: Event)
    requires Shape(s) && History(s) && Next(s, ev).Some?
    ensures History(Next(s, ev).value)
  {
    match ev
    case Polled(cs, es) =>
      ApplyAllKeepsHistory(s, cs);
      OfferAllKeepsHistory(ApplyAll(s, cs).value, es);
    case BeginRound =>
    case BeginVisit => VisitKeepsHistory(s);
    case Send => SendKeepsHistory(s);
    case Leave => LeaveKeepsHistory(s);
  }

  lemma {:induction false} RunKeepsHistory(evs: seq<Event>)
    requires Run(Init, evs).Some?
    ensures Shape(Run(Init, evs).value) && History(Run(Init, evs).value)
  {
    RunKeepsShape(evs);
    if evs != [] {
      RunKeepsHistory(evs[..|evs| - 1]);
      NextKeepsHistory(Run(Init, evs[..|evs| - 1]).value, evs[|evs| - 1]);
    }
  }

  // ---- what the history implies ----

  function AcceptedOf(log: seq<Entry>, k: Key): seq<Envelope>
  {
    if log == [] then []
    else
      var x := log[|log| - 1];
      var rest := AcceptedOf(log[..|log| - 1], k);
      if x.Accepted? && x.key == k then rest + [x.envelope] else rest
  }

  function WrittenOf(log: seq<Entry>, k: Key): seq<Envelope>
  {
    if log == [] then []
    else
      var x := log[|log| - 1];
      var rest := WrittenOf(log[..|log| - 1], k);
      if x.Wrote? && x.key == k then rest + [x.envelope] else rest
  }

  predicate FlushFree(log: seq<Entry>, k: Key)
  {
    forall i :: 0 <= i < |log| && log[i].Flushed? ==> !Covers(log[i].scope, k)
  }

  lemma AppendEntry(log: seq<Entry>, x: Entry, k: Key)
    ensures AcceptedOf(log + [x], k) ==
              if x.Accepted? && x.key == k then AcceptedOf(log, k) + [x.envelope] else AcceptedOf(log, k)
    ensures WrittenOf(log + [x], k) ==
              if x.Wrote? && x.key == k then WrittenOf(log, k) + [x.envelope] else WrittenOf(log, k)
    ensures FlushFree(log + [x], k) <==> FlushFree(log, k) && (x.Flushed? ==> !Covers(x.scope, k))
  {
    assert (log + [x])[..|log|] == log;
    assert FlushFree(log + [x], k) ==> forall i :: 0 <= i < |log| ==> (log + [x])[i] == log[i];
    if FlushFree(log + [x], k) {
      assert (log + [x])[|log|] == x;
    }
  }

  lemma BothGrow(b: seq<Envelope>, a: seq<Envelope>, w: seq<Envelope>, q: seq<Envelope>, e: Envelope)
    requires b + a == w + q
    ensures b + (a + [e]) == w + (q + [e])
  {
    assert b + (a + [e]) == (b + a) + [e];
    assert w + (q + [e]) == (w + q) + [e];
  }

  lemma HeadMoves(w: seq<Envelope>, q: seq<Envelope>)
    requires q != []
    ensures w + q == (w + [q[0]]) + q[1..]
  {
  }

  /** In a FIFO history every stretch without a flush of `k` neither loses, repeats nor reorders. */
  lemma {:induction false} FifoConserves(log: seq<Entry>, i: nat, k: Key)
    requires i <= |log| && Queued(log, k).Some? && FlushFree(log[i..], k)
    ensures Queued(log[..i], k).Some?
    ensures Queued(log[..i], k).value + AcceptedOf(log[i..], k) ==
            WrittenOf(log[i..], k) + Queued(log, k).value
  {
    if i == |log| {
      assert log[..i] == log;
    } else {
      var front, x := log[..|log| - 1], log[|log| - 1];
      assert log[i..] == front[i..] + [x] && front[..i] == log[..i];
      AppendEntry(front[i..], x, k);
      FifoConserves(front, i, k);
      var q, w := Queued(front, k).value, WrittenOf(front[i..], k);
      var b, a := Queued(log[..i], k).value, AcceptedOf(front[i..], k);
      if x.Accepted? && x.key == k {
        BothGrow(b, a, w, q, x.envelope);
      } else if x.Wrote? && x.key == k {
        HeadMoves(w, q);
      }
    }
  }

  /**
   For every run and key: over any stretch of the history with no drop of the key, what was
   queued at its start followed by what was accepted is what was written followed by what is
   queued at its end.
   */
  lemma NothingLostOrReordered(evs: seq<Event>, i: nat, k: Key)
    requires Run(Init, evs).Some? && i <= |Run(Init, evs).value.log|
    requires FlushFree(Run(Init, evs).value.log[i..], k)
    ensures var s := Run(Init, evs).value;
            && Queued(s.log[..i], k).Some?
            && Queued(s.log[..i], k).value + AcceptedOf(s.log[i..], k) ==
               WrittenOf(s.log[i..], k) + QueueOf(s, k)
  {
    RunKeepsHistory(evs);
    FifoConserves(Run(Init, evs).value.log, i, k);
  }

  lemma {:induction false} QuietWhileParked(log: seq<Entry>, i: nat, j: nat)
    requires forall m :: 0 <= m < |log| ==> CutOk(log, m)
    requires i < j <= |log| && log[i].Parked?
    requires forall m :: i < m < j ==> !log[m].Resumed?
    ensures ParkedAfter(log[..j])
    ensures forall m :: i <= m < j ==> !log[m].Wrote?
    ensures WireTotal(log[..j]) == log[i].wireBytes
  {
    assert log[..j][..j - 1] == log[..j - 1];
    assert CutOk(log, j - 1);
    if j > i + 1 {
      QuietWhileParked(log, i, j - 1);
    }
  }

  /**
   For every run: the byte count reported by a park is the wire size of every record written
   before it, and no record is written from there until the next resume.
   */
  lemma ParkCutsBetweenRecords(evs: seq<Event>, i: nat, j: nat)
    requires Run(Init, evs).Some? && i < j <= |Run(Init, evs).value.log|
    requires var log := Run(Init, evs).value.log;
             log[i].Parked? && forall m :: i < m < j ==> !log[m].Resumed?
    ensures var log := Run(Init, evs).value.log;
            && log[i].wireBytes == WireTotal(log[..i]) == WireTotal(log[..j])
            && forall m :: i <= m < j ==> !log[m].Wrote?
  {
    RunKeepsHistory(evs);
    var log := Run(Init, evs).value.log;
    assert CutOk(log, i);
    QuietWhileParked(log, i, j);
  }
}
