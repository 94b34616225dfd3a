/** One flow's share of the port: it never writes more than its deficit and its quanta allow. */
module BulkShare {
  import opened Prelude
  import opened RelaySlots
  import opened BulkModel
  import opened BulkShape

  /** Payload bytes written for `k`. */
  function SentBytes(log: seq<Entry>, k: Key): nat
  {
    if log == [] then 0
    else
      var x := log[|log| - 1];
      SentBytes(log[..|log| - 1], k) + (if x.Wrote? && x.key == k then Size(x.envelope) else 0)
  }

  /** Quanta granted by the visits to `k`. */
  function Granted(log: seq<Entry>, k: Key): nat
  {
    if log == [] then 0
    else
      var x := log[|log| - 1];
      Granted(log[..|log| - 1], k) + (if x.Visited? && x.key == k then x.quantum else 0)
  }

  function Visits(log: seq<Entry>, k: Key): nat
  {
    if log == [] then 0
    else
      var x := log[|log| - 1];
      Visits(log[..|log| - 1], k) + (if x.Visited? && x.key == k then 1 else 0)
  }

  function DeficitOf(s: Sched, k: Key): nat
  {
    if k in s.flows then s.flows[k].deficit else 0
  }

  /** `t` extends the history of `s`, and `k` spent at most its deficit and what it was granted. */
  ghost predicate Within(s: Sched, t: Sched, k: Key)
  {
    && |s.log| <= |t.log| && t.log[..|s.log|] == s.log
    && SentBytes(t.log, k) + DeficitOf(t, k) + Granted(s.log, k)
       <= SentBytes(s.log, k) + DeficitOf(s, k) + Granted(t.log, k)
  }

  lemma Extend(log: seq<Entry>, x: Entry, k: Key)
    ensures SentBytes(log + [x], k) == SentBytes(log, k) + if x.Wrote? && x.key == k then Size(x.envelope) else 0
    ensures Granted(log + [x], k) == Granted(log, k) + if x.Visited? && x.key == k then x.quantum else 0
  {
    assert (log + [x])[..|log|] == log;
  }

  lemma Trans(a: Sched, b: Sched, c: Sched, k: Key)
    requires Within(a, b, k) && Within(b, c, k)
    ensures Within(a, c, k)
  {
    assert c.log[..|a.log|] == c.log[..|b.log|][..|a.log|];
  }

  lemma OneEntry(s: Sched, t: Sched, x: Entry, k: Key)
    requires t.log == s.log + [x]
    requires DeficitOf(t, k) + (if x.Wrote? && x.key == k then Size(x.envelope) else 0)
             <= DeficitOf(s, k) + if x.Visited? && x.key == k then x.quantum else 0
    ensures Within(s, t, k)
  {
    Extend(s.log, x, k);
    assert t.log[..|s.log|] == s.log;
  }

  lemma OfferWithin(s: Sched, e: Envelope, k: Key)
    requires Offer(s, e).Some?
    ensures Within(s, Offer(s, e).value, k)
  {
    if e.generation == s.generation {
      var key := Key(e.incarnation.value, e.id);
      if !Tombstoned(s, key) {
        if key in s.flows {
          OneEntry(s, Append(s, key, e).value, Accepted(key, e), k);
        } else {
          var t := Open(s, key);
          OneEntry(s, t, Opened(key), k);
          OneEntry(t, Append(t, key, e).value, Accepted(key, e), k);
          Trans(s, t, Append(t, key, e).value, k);
        }
      }
    }
  }

  lemma ApplyWithin(s: Sched, c: Command, k: Key)
    requires Apply(s, c).Some?
    ensures Within(s, Apply(s, c).value, k)
  {
    var t := Apply(s, c).value;
    OneEntry(s, t, t.log[|t.log| - 1], k);
  }

  lemma {:induction false} ApplyAllWithin(s: Sched, cs: seq<Command>, k: Key)
    requires ApplyAll(s, cs).Some?
    ensures Within(s, ApplyAll(s, cs).value, k)
  {
    if cs != [] {
      var t := ApplyAll(s, cs[..|cs| - 1]).value;
      ApplyAllWithin(s, cs[..|cs| - 1], k);
      ApplyWithin(t, cs[|cs| - 1], k);
      Trans(s, t, ApplyAll(s, cs).value, k);
    }
  }

  lemma {:induction false} OfferAllWithin(s: Sched, es: seq<Envelope>, k: Key)
    requires OfferAll(s, es).Some?
    ensures Within(s, OfferAll(s, es).value, k)
  {
    if es != [] {
      var t := OfferAll(s, es[..|es| - 1]).value;
      OfferAllWithin(s, es[..|es| - 1], k);
      OfferWithin(t, es[|es| - 1], k);
      Trans(s, t, OfferAll(s, es).value, k);
    }
  }

  lemma NextWithin(s: Sched, ev: Event, k: Key)
    requires Shape(s) && Next(s, ev).Some?
    ensures Within(s, Next(s, ev).value, k)
  {
    var t := Next(s, ev).value;
    match ev
    case Polled(cs, es) =>
      var u := ApplyAll(s, cs).value;
      ApplyAllWithin(s, cs, k);
      OfferAllWithin(u, es, k);
      Trans(s, u, OfferAll(u, es).value, k);
    case BeginRound =>
    case BeginVisit => OneEntry(s, t, Visited(s.active[0], s.quantum), k);
    case Send =>
      var v := s.visiting.value;
      assert FlowOk(v, s.flows[v], s.generation);
      OneEntry(s, t, Wrote(v, s.flows[v].queue[0]), k);
    case Leave => OneEntry(s, t, Left(s.visiting.value), k);
  }

  lemma {:induction false} RunWithin(s: Sched, evs: seq<Event>, k: Key)
    requires Shape(s) && OwnersBounded(s) && Run(s, evs).Some?
    ensures Shape(Run(s, evs).value) && OwnersBounded(Run(s, evs).value)
    ensures Within(s, Run(s, evs).value, k)
  {
    if evs != [] {
      RunWithin(s, evs[..|evs| - 1], k);
      var t := Run(s, evs[..|evs| - 1]).value;
      NextKeepsShape(t, evs[|evs| - 1]);
      NextWithin(t, evs[|evs| - 1], k);
      Trans(s, t, Run(s, evs).value, k);
    }
  }

  lemma {:induction false} SumsSplit(a: seq<Entry>, b: seq<Entry>, k: Key)
    ensures SentBytes(a + b, k) == SentBytes(a, k) + SentBytes(b, k)
    ensures Granted(a + b, k) == Granted(a, k) + Granted(b, k)
  {
    if b == [] {
      assert a + b == a;
    } else {
      var front, x := b[..|b| - 1], b[|b| - 1];
      assert a + b == (a + front) + [x] && b == front + [x];
      SumsSplit(a, front, k);
      Extend(a + front, x, k);
      Extend(front, x, k);
    }
  }

  lemma {:induction false} QuantaCount(log: seq<Entry>, k: Key)
    requires forall i :: 0 <= i < |log| && log[i].Visited? && log[i].key == k ==> log[i].quantum == QUANTUM
    ensures Granted(log, k) == Visits(log, k) * QUANTUM
  {
    if log != [] {
      QuantaCount(log[..|log| - 1], k);
    }
  }

  /**
   From any point of any run: the bytes a key writes are at most the deficit it carried plus
   the quanta of its visits, so n visits shared with other flows write at most n quanta more
   than the carried deficit. Drops, restores and parks in between do not help it.
   */
  lemma BoundedShare(s: Sched, evs: seq<Event>, k: Key)
    requires Shape(s) && OwnersBounded(s) && Run(s, evs).Some?
    ensures |s.log| <= |Run(s, evs).value.log|
    ensures var since := Run(s, evs).value.log[|s.log|..];
            && SentBytes(since, k) <= DeficitOf(s, k) + Granted(since, k)
            && ((forall i :: 0 <= i < |since| && since[i].Visited? && since[i].key == k ==>
                  since[i].quantum == QUANTUM) ==>
                 SentBytes(since, k) <= DeficitOf(s, k) + Visits(since, k) * QUANTUM)
  {
    RunWithin(s, evs, k);
    var log := Run(s, evs).value.log;
    assert log == s.log + log[|s.log|..];
    SumsSplit(s.log, log[|s.log|..], k);
    var since := log[|s.log|..];
    if forall i :: 0 <= i < |since| && since[i].Visited? && since[i].key == k ==> since[i].quantum == QUANTUM {
      QuantaCount(log[|s.log|..], k);
    }
  }
}
