/** Deficit round robin is fair: bounded waiting, bounded bursts and bounded share. */
module BulkFairness {
  import opened Prelude
  import opened RelaySlots
  import opened BulkModel
  import opened BulkShape

  // ---- measures read off the log alone ----

  /** Visits to `k` since its last record was written, it was opened, or it was flushed. */
  function Unserved(log: seq<Entry>, k: Key): nat
  {
    if log == [] then 0 else UnservedStep(Unserved(log[..|log| - 1], k), log[|log| - 1], k)
  }

  function UnservedStep(n: nat, x: Entry, k: Key): nat
  {
    match x
    case Visited(key, _) => if key == k then n + 1 else n
    case Wrote(key, _) => if key == k then 0 else n
    case Opened(key) => if key == k then 0 else n
    case Flushed(scope) => if Covers(scope, k) then 0 else n
    case _ => n
  }

  /** Visits to `j` since the last visit to `k`, or since `k` was opened or flushed. */
  function Overtakes(log: seq<Entry>, k: Key, j: Key): nat
  {
    if log == [] then 0 else OvertakesStep(Overtakes(log[..|log| - 1], k, j), log[|log| - 1], k, j)
  }

  function OvertakesStep(n: nat, x: Entry, k: Key, j: Key): nat
  {
    match x
    case Visited(key, _) => if key == k then 0 else if key == j then n + 1 else n
    case Opened(key) => if key == k then 0 else n
    case Flushed(scope) => if Covers(scope, k) then 0 else n
    case _ => n
  }

  /** Payload bytes written since the latest visit began. */
  function BurstBytes(log: seq<Entry>): nat
  {
    if log == [] then 0
    else
      var x := log[|log| - 1];
      if x.Visited? then 0
      else BurstBytes(log[..|log| - 1]) + (if x.Wrote? then Size(x.envelope) else 0)
  }

  lemma Extend(log: seq<Entry>, x: Entry)
    ensures forall k :: Unserved(log + [x], k) == UnservedStep(Unserved(log, k), x, k)
    ensures forall k, j :: Overtakes(log + [x], k, j) == OvertakesStep(Overtakes(log, k, j), x, k, j)
    ensures BurstBytes(log + [x]) ==
              if x.Visited? then 0 else BurstBytes(log) + if x.Wrote? then Size(x.envelope) else 0
  {
    assert (log + [x])[..|log|] == log;
  }

  // ---- the invariant ----

  /** What `n` visits add to a deficit at least, before it is capped. */
  function Quanta(n: nat): nat
  {
    if n == 0 then 0 else Quanta(n - 1) + QUANTUM
  }

  lemma {:induction false} QuantaMultiply(n: nat)
    ensures Quanta(n) == n * QUANTUM
  {
    if n > 0 {
      QuantaMultiply(n - 1);
      assert n * QUANTUM == (n - 1) * QUANTUM + QUANTUM;
    }
  }

  /** A flow unserved for `n` visits holds their quanta, and outside its visit less than its head record. */
  predicate Covered(f: Flow, n: nat, visited: bool, burst: nat)
  {
    && Min(Quanta(n), MAX_BURST) <= f.deficit
    && (!visited && n >= 1 ==> f.queue != [] && f.deficit < Size(f.queue[0]))
    && (visited && burst > 0 ==> n == 0)
  }

  ghost predicate Waits(s: Sched, k: Key)
    requires k in s.flows
  {
    Covered(s.flows[k], Unserved(s.log, k), s.visiting == Some(k), s.burst)
  }

  ghost predicate InTurn(s: Sched, k: Key, j: Key)
  {
    Overtakes(s.log, k, j) <= if k in s.active && !Before(s.active, j, k) then 1 else 0
  }

  /** Nothing can disturb a visit before its first record. */
  ghost predicate FreshVisit(s: Sched)
  {
    s.visiting.Some? && s.burst == 0 ==>
      && !s.parked
      && s.visiting.value in s.flows
      && s.visiting.value !in s.active
      && s.flows[s.visiting.value].queue != []
  }

  ghost predicate Fair(s: Sched)
  {
    && (forall k :: k in s.flows ==> Waits(s, k))
    && (forall k, j :: k in s.flows && j != k ==> InTurn(s, k, j))
    && FreshVisit(s)
    && BurstBytes(s.log) <= MAX_BURST
    && (s.visiting.Some? ==> s.burst == BurstBytes(s.log))
  }

  // ---- preservation ----

  lemma BeforeAppend(active: seq<Key>, k: Key, a: Key, b: Key)
    requires NoDup(active) && k !in active && b != k && Before(active + [k], a, b)
    ensures Before(active, a, b)
  {
    var s := active + [k];
    var i, j :| 0 <= i < j < |s| && s[i] == a && s[j] == b;
    assert active[i] == a && active[j] == b;
  }

  lemma BeforeTail(active: seq<Key>, a: Key, b: Key)
    requires active != [] && Before(active[1..], a, b)
    ensures Before(active, a, b)
  {
    var t := active[1..];
    var i, j :| 0 <= i < j < |t| && t[i] == a && t[j] == b;
    assert active[i + 1] == a && active[j + 1] == b;
  }

  lemma FlushInTurn(s: Sched, scope: Scope, k: Key, j: Key)
    requires Shape(s) && k in Flush(s, scope).flows && j != k && InTurn(s, k, j)
    ensures InTurn(Flush(s, scope), k, j)
  {
    Extend(s.log, Flushed(scope));
    WithoutKeepsOrder(s.active, set a | a in s.active && Covers(scope, a));
  }

  lemma FlushFair(s: Sched, scope: Scope)
    requires Shape(s) && Fair(s) && (s.visiting.Some? ==> s.burst > 0)
    ensures Fair(Flush(s, scope))
  {
    var t := Flush(s, scope);
    Extend(s.log, Flushed(scope));
    forall k, j | k in t.flows && j != k ensures InTurn(t, k, j) {
      assert InTurn(s, k, j);
      FlushInTurn(s, scope, k, j);
    }
    forall k | k in t.flows ensures Waits(t, k) {
      assert Waits(s, k);
    }
  }

  /** Fairness reads only these fields. */
  lemma SameFair(s: Sched, t: Sched)
    requires Fair(s) && t.flows == s.flows && t.active == s.active && t.log == s.log
    requires t.visiting == s.visiting && t.burst == s.burst && t.parked == s.parked
    ensures Fair(t)
  {
    assert forall k, j :: InTurn(t, k, j) <==> InTurn(s, k, j);
    assert forall k :: k in t.flows ==> Waits(s, k);
  }

  lemma ParkFair(s: Sched, parked: bool, x: Entry)
    requires Fair(s) && (s.visiting.Some? ==> s.burst > 0) && (x.Parked? || x.Resumed?)
    ensures Fair(s.(parked := parked, log := s.log + [x]))
  {
    var t := s.(parked := parked, log := s.log + [x]);
    Extend(s.log, x);
    forall k, j | k in t.flows && j != k ensures InTurn(t, k, j) {
      assert InTurn(s, k, j);
    }
    assert forall k :: k in t.flows ==> Waits(s, k);
  }

  lemma ApplyFair(s: Sched, c: Command)
    requires Shape(s) && OwnersBounded(s) && Fair(s) && (s.visiting.Some? ==> s.burst > 0) && Apply(s, c).Some?
    ensures var t := Apply(s, c).value; Fair(t) && t.visiting == s.visiting && t.burst == s.burst
  {
    var t := Apply(s, c).value;
    match c
    case Park => ParkFair(s, true, Parked(s.wireBytes));
    case Resume => ParkFair(s, false, Resumed);
    case Restore(_) =>
      FlushFair(s, AllFlows);
      SameFair(Flush(s, AllFlows), t);
    case DropFlow(owner, id) =>
      FlushFair(s, OneFlow(Key(owner, id)));
      SameFair(Flush(s, OneFlow(Key(owner, id))), t);
    case DropIncarnation(owner) =>
      FlushFair(s, OwnerFlows(owner));
      SameFair(Flush(s, OwnerFlows(owner)), t);
  }

  lemma UnservedAfter(log: seq<Entry>, x: Entry, k: Key)
    ensures Unserved(log + [x], k) == UnservedStep(Unserved(log, k), x, k)
  {
    assert (log + [x])[..|log|] == log;
  }

  lemma OpenInTurn(s: Sched, k: Key, a: Key, b: Key)
    requires Shape(s) && k !in s.flows && a in s.flows && b != a && InTurn(s, a, b)
    ensures InTurn(Open(s, k), a, b)
  {
    Extend(s.log, Opened(k));
    if Before(s.active + [k], b, a) {
      BeforeAppend(s.active, k, b, a);
    }
  }

  lemma OpenStarts(s: Sched, k: Key)
    requires s.visiting == Some(k) ==> s.burst > 0
    ensures Waits(Open(s, k), k)
    ensures forall b :: b != k ==> InTurn(Open(s, k), k, b)
  {
    Extend(s.log, Opened(k));
    assert Open(s, k).active[|s.active|] == k;
  }

  lemma OpenWaits(s: Sched, k: Key, a: Key)
    requires a in s.flows && a != k && Waits(s, a)
    ensures Waits(Open(s, k), a)
  {
    UnservedAfter(s.log, Opened(k), a);
    assert Open(s, k).flows[a] == s.flows[a];
  }

  lemma OpenFair(s: Sched, k: Key)
    requires Shape(s) && Fair(s) && (s.visiting.Some? ==> s.burst > 0) && k !in s.flows
    ensures Fair(Open(s, k))
  {
    var t := Open(s, k);
    Extend(s.log, Opened(k));
    OpenStarts(s, k);
    forall a, b | a in t.flows && b != a ensures InTurn(t, a, b) {
      if a != k {
        assert InTurn(s, a, b);
        OpenInTurn(s, k, a, b);
      }
    }
    forall a | a in t.flows ensures Waits(t, a) {
      if a != k {
        assert Waits(s, a);
        OpenWaits(s, k, a);
      }
    }
  }

  /** Appending needs no more than a queue whose waiting flow already has a head. */
  lemma AppendWaits(s: Sched, k: Key, e: Envelope, a: Key)
    requires k in s.flows && Append(s, k, e).Some? && a in s.flows && Waits(s, a)
    ensures Waits(Append(s, k, e).value, a)
  {
    UnservedAfter(s.log, Accepted(k, e), a);
    var f, g := s.flows[a], Append(s, k, e).value.flows[a];
    assert g.deficit == f.deficit && (f.queue != [] ==> g.queue != [] && g.queue[0] == f.queue[0]);
  }

  lemma AppendFair(s: Sched, k: Key, e: Envelope)
    requires Fair(s) && (s.visiting.Some? ==> s.burst > 0)
    requires k in s.flows && Append(s, k, e).Some?
    ensures Fair(Append(s, k, e).value)
  {
    var t := Append(s, k, e).value;
    Extend(s.log, Accepted(k, e));
    forall a, b | a in t.flows && b != a ensures InTurn(t, a, b) {
      assert InTurn(s, a, b);
    }
    forall a | a in t.flows ensures Waits(t, a) {
      assert Waits(s, a);
      AppendWaits(s, k, e, a);
    }
  }

  lemma OfferFair(s: Sched, e: Envelope)
    requires Shape(s) && OwnersBounded(s) && Fair(s) && (s.visiting.Some? ==> s.burst > 0) && Offer(s, e).Some?
    ensures var t := Offer(s, e).value; Fair(t) && t.visiting == s.visiting && t.burst == s.burst
  {
    if e.generation == s.generation {
      var k := Key(e.incarnation.value, e.id);
      if !Tombstoned(s, k) {
        if k in s.flows {
          AppendFair(s, k, e);
        } else {
          OpenFair(s, k);
          AppendFair(Open(s, k), k, e);
        }
      }
    }
  }

  lemma {:induction false} ApplyAllFair(s: Sched, cs: seq<Command>)
    requires Shape(s) && OwnersBounded(s) && Fair(s) && (s.visiting.Some? ==> s.burst > 0) && ApplyAll(s, cs).Some?
    ensures var t := ApplyAll(s, cs).value; Fair(t) && t.visiting == s.visiting && t.burst == s.burst
  {
    if cs != [] {
      var front, c := cs[..|cs| - 1], cs[|cs| - 1];
      ApplyAllFair(s, front);
      ApplyAllKeeps(s, front);
      var t := ApplyAll(s, front).value;
      ApplyFair(t, c);
      assert ApplyAll(s, cs) == Apply(t, c);
    }
  }

  lemma {:induction false} OfferAllFair(s: Sched, es: seq<Envelope>)
    requires Shape(s) && OwnersBounded(s) && Fair(s) && (s.visiting.Some? ==> s.burst > 0) && OfferAll(s, es).Some?
    ensures var t := OfferAll(s, es).value; Fair(t) && t.visiting == s.visiting && t.burst == s.burst
  {
    if es != [] {
      OfferAllFair(s, es[..|es| - 1]);
      OfferAllKeeps(s, es[..|es| - 1]);
      OfferFair(OfferAll(s, es[..|es| - 1]).value, es[|es| - 1]);
    }
  }

  lemma PollFair(s: Sched, cs: seq<Command>, es: seq<Envelope>)
    requires Shape(s) && OwnersBounded(s) && Fair(s) && (s.visiting.Some? ==> s.burst > 0) && Poll(s, cs, es).Some?
    ensures Fair(Poll(s, cs, es).value)
  {
    ApplyAllFair(s, cs);
    ApplyAllKeeps(s, cs);
    var t := ApplyAll(s, cs).value;
    OfferAllFair(t, es);
    var u, v := OfferAll(t, es).value, Poll(s, cs, es).value;
    SameFair(u, v);
  }

  lemma VisitInTurn(s: Sched, a: Key, b: Key)
    requires Shape(s) && s.visiting.None? && s.active != []
    requires a in s.flows && b != a && InTurn(s, a, b)
    ensures InTurn(StartVisit(s), a, b)
  {
    var t, j := StartVisit(s), s.active[0];
    Extend(s.log, Visited(j, s.quantum));
    if a != j {
      var i :| 0 <= i < |s.active| && s.active[i] == a;
      assert t.active[i - 1] == a;
      if Before(t.active, b, a) {
        BeforeTail(s.active, b, a);
        assert b in t.active;
      } else if b == j {
        assert Before(s.active, j, a);
      }
    }
  }

  /** A visit adds at least one quantum, up to the burst maximum. */
  lemma VisitCovers(f: Flow, n: nat, burst: nat, q: nat)
    requires Covered(f, n, false, burst) && (q == QUANTUM || q == MAX_BURST)
    ensures Covered(Credit(f, q), n + 1, true, 0)
  {
    assert Quanta(n + 1) == Quanta(n) + QUANTUM;
  }

  lemma VisitWaitsSelf(s: Sched)
    requires s.visiting.None? && s.active != [] && s.active[0] in s.flows && Waits(s, s.active[0])
    requires s.quantum == QUANTUM || s.quantum == MAX_BURST
    ensures Waits(StartVisit(s), s.active[0])
  {
    var a := s.active[0];
    UnservedAfter(s.log, Visited(a, s.quantum), a);
    VisitCovers(s.flows[a], Unserved(s.log, a), s.burst, s.quantum);
    assert StartVisit(s).flows[a] == Credit(s.flows[a], s.quantum);
  }

  lemma IdleIgnoresBurst(f: Flow, n: nat, burst: nat, other: nat)
    requires Covered(f, n, false, burst)
    ensures Covered(f, n, false, other)
  {
  }

  lemma VisitSkips(s: Sched, a: Key)
    requires s.active != [] && a in s.flows && a != s.active[0]
    ensures a in StartVisit(s).flows && StartVisit(s).flows[a] == s.flows[a]
    ensures Unserved(StartVisit(s).log, a) == Unserved(s.log, a)
  {
    UnservedAfter(s.log, Visited(s.active[0], s.quantum), a);
  }

  lemma VisitWaitsOther(s: Sched, a: Key)
    requires s.visiting.None? && s.active != [] && a in s.flows && Waits(s, a) && a != s.active[0]
    ensures Waits(StartVisit(s), a)
  {
    VisitSkips(s, a);
    IdleIgnoresBurst(s.flows[a], Unserved(s.log, a), s.burst, 0);
  }

  lemma VisitFair(s: Sched)
    requires Shape(s) && Fair(s) && s.visiting.None? && !s.parked && s.active != []
    ensures Fair(StartVisit(s))
  {
    var t, j := StartVisit(s), s.active[0];
    forall a, b | a in t.flows && b != a ensures InTurn(t, a, b) {
      assert InTurn(s, a, b);
      VisitInTurn(s, a, b);
    }
    forall a | a in t.flows ensures Waits(t, a) {
      assert Waits(s, a);
      if a == j {
        VisitWaitsSelf(s);
      } else {
        VisitWaitsOther(s, a);
      }
    }
    Extend(s.log, Visited(j, s.quantum));
    assert FlowOk(j, s.flows[j], s.generation);
  }

  lemma SendInTurn(s: Sched, a: Key, b: Key)
    requires CanSend(s) && SendHead(s).Some? && InTurn(s, a, b)
    ensures InTurn(SendHead(s).value, a, b)
  {
    var e := s.flows[s.visiting.value].queue[0];
    Extend(s.log, Wrote(Key(e.incarnation.value, e.id), e));
  }

  lemma SendWaits(s: Sched, a: Key)
    requires CanSend(s) && SendHead(s).Some? && a in s.flows && Waits(s, a)
    requires var e := s.flows[s.visiting.value].queue[0]; Key(e.incarnation.value, e.id) == s.visiting.value
    ensures Waits(SendHead(s).value, a)
  {
    var k := s.visiting.value;
    UnservedAfter(s.log, Wrote(k, s.flows[k].queue[0]), a);
  }

  lemma SendFair(s: Sched)
    requires Shape(s) && Fair(s) && CanSend(s) && SendHead(s).Some?
    ensures Fair(SendHead(s).value)
  {
    var t, k := SendHead(s).value, s.visiting.value;
    forall a, b | a in t.flows && b != a ensures InTurn(t, a, b) {
      assert InTurn(s, a, b);
      SendInTurn(s, a, b);
    }
    assert FlowOk(k, s.flows[k], s.generation);
    forall a | a in t.flows ensures Waits(t, a) {
      assert Waits(s, a);
      SendWaits(s, a);
    }
    Extend(s.log, Wrote(k, s.flows[k].queue[0]));
  }

  lemma LeaveInTurn(s: Sched, a: Key, b: Key)
    requires NoDup(s.active) && s.visiting.Some? && a in EndVisit(s).flows && b != a && InTurn(s, a, b)
    ensures InTurn(EndVisit(s), a, b)
  {
    var t, k := EndVisit(s), s.visiting.value;
    assert (s.log + [Left(k)])[..|s.log|] == s.log;
    if a != k && t.active != s.active && Before(t.active, b, a) {
      BeforeAppend(s.active, k, b, a);
    }
  }

  /** A flow that is left without a record could not afford its head. */
  lemma LeaveCovers(f: Flow, n: nat, burst: nat)
    requires Covered(f, n, true, burst)
    requires burst == 0 ==> f.queue != [] && 0 < Size(f.queue[0]) <= MAX_BURST && Size(f.queue[0]) > f.deficit
    ensures Covered(f, n, false, burst)
  {
  }

  lemma LeaveWaits(s: Sched, a: Key)
    requires s.visiting.Some? && (s.parked || !CanSend(s)) && FreshVisit(s)
    requires a in EndVisit(s).flows && Waits(s, a) && FlowOk(a, s.flows[a], s.generation)
    ensures Waits(EndVisit(s), a)
  {
    var t, n := EndVisit(s), Unserved(s.log, a);
    UnservedAfter(s.log, Left(s.visiting.value), a);
    assert t.flows[a] == s.flows[a] && Unserved(t.log, a) == n;
    if s.visiting == Some(a) {
      LeaveCovers(s.flows[a], n, s.burst);
    } else {
      assert Covered(s.flows[a], n, false, s.burst);
    }
  }

  lemma LeaveFair(s: Sched)
    requires Shape(s) && Fair(s) && s.visiting.Some? && (s.parked || !CanSend(s))
    ensures Fair(EndVisit(s))
  {
    var t, k := EndVisit(s), s.visiting.value;
    forall a, b | a in t.flows && b != a ensures InTurn(t, a, b) {
      assert InTurn(s, a, b);
      LeaveInTurn(s, a, b);
    }
    forall a | a in t.flows ensures Waits(t, a) {
      assert Waits(s, a) && FlowOk(a, s.flows[a], s.generation);
      LeaveWaits(s, a);
    }
    Extend(s.log, Left(k));
  }

  lemma NextKeepsFair(s: Sched, ev: Event)
    requires Shape(s) && OwnersBounded(s) && Fair(s) && Next(s, ev).Some?
    ensures Fair(Next(s, ev).value)
  {
    match ev
    case Polled(cs, es) => PollFair(s, cs, es);
    case BeginRound =>
      SameFair(s, Next(s, ev).value);
    case BeginVisit => VisitFair(s);
    case Send => SendFair(s);
    case Leave => LeaveFair(s);
  }

  lemma {:induction false} RunKeepsFair(evs: seq<Event>)
    requires Run(Init, evs).Some?
    ensures Shape(Run(Init, evs).value) && Fair(Run(Init, evs).value)
  {
    RunKeepsShape(evs);
    if evs != [] {
      var front := evs[..|evs| - 1];
      RunKeepsFair(front);
      RunKeepsShape(front);
      NextKeepsFair(Run(Init, front).value, evs[|evs| - 1]);
    }
  }

  // ---- what fairness means ----

  /** The least number of quanta that covers a burst. */
  function Ceil(burst: nat, quantum: nat): nat
    requires quantum > 0
  {
    (burst + quantum - 1) / quantum
  }

  /** For any quantum and burst: a deficit that covers n quanta but not the head record has n below the ceiling. */
  lemma WaitsBriefly(n: nat, deficit: nat, head: nat, burst: nat, quantum: nat)
    requires quantum > 0 && head <= burst
    requires Min(n * quantum, burst) <= deficit && (n >= 1 ==> deficit < head)
    ensures n == 0 || n < Ceil(burst, quantum)
  {
    CeilCovers(burst, quantum);
    Scales(Ceil(burst, quantum), n, quantum);
  }

  lemma Scales(a: nat, b: nat, q: nat)
    ensures a <= b ==> a * q <= b * q
  {
    if a <= b {
      assert b * q == a * q + (b - a) * q;
    }
  }

  lemma CeilCovers(burst: nat, quantum: nat)
    requires quantum > 0
    ensures burst <= Ceil(burst, quantum) * quantum
  {
    var x := burst + quantum - 1;
    assert x == x / quantum * quantum + x % quantum;
  }

  lemma CoveredIsBrief(f: Flow, n: nat, burst: nat)
    requires Covered(f, n, false, burst) && (n >= 1 ==> Size(f.queue[0]) <= MAX_BURST)
    ensures n == 0 || n < Ceil(MAX_BURST, QUANTUM)
  {
    QuantaMultiply(n);
    WaitsBriefly(n, f.deficit, if n >= 1 then Size(f.queue[0]) else 0, MAX_BURST, QUANTUM);
  }

  lemma CeilIsPositive(burst: nat, quantum: nat)
    requires 0 < quantum && 0 < burst
    ensures Ceil(burst, quantum) > 0
  {
    CeilCovers(burst, quantum);
  }

  lemma TwelveAtTheAgent(burst: nat, quantum: nat)
    requires quantum == 256 * 1024 && burst == 3 * 1024 * 1024
    ensures Ceil(burst, quantum) == 12
  {
  }

  lemma WaitingIsBrief(s: Sched, k: Key)
    requires k in s.flows && Waits(s, k) && s.visiting != Some(k) && FlowOk(k, s.flows[k], s.generation)
    ensures Unserved(s.log, k) < Ceil(MAX_BURST, QUANTUM)
  {
    CoveredIsBrief(s.flows[k], Unserved(s.log, k), s.burst);
    CeilIsPositive(MAX_BURST, QUANTUM);
  }

  /**
   For every run, quantum and burst maximum: a waiting flow has gone without a record for fewer
   visits than quanta cover a burst, which is twelve for the agent's constants.
   */
  lemma NoStarvation(evs: seq<Event>, k: Key)
    requires Run(Init, evs).Some? && k in Run(Init, evs).value.flows
    requires Run(Init, evs).value.visiting != Some(k)
    ensures Unserved(Run(Init, evs).value.log, k) < Ceil(MAX_BURST, QUANTUM)
    ensures QUANTUM == 256 * 1024 && MAX_BURST == 3 * 1024 * 1024 ==> Ceil(MAX_BURST, QUANTUM) == 12
  {
    RunKeepsFair(evs);
    var s := Run(Init, evs).value;
    assert Waits(s, k) && FlowOk(k, s.flows[k], s.generation);
    WaitingIsBrief(s, k);
    if QUANTUM == 256 * 1024 && MAX_BURST == 3 * 1024 * 1024 {
      TwelveAtTheAgent(MAX_BURST, QUANTUM);
    }
  }

  /** For every run: between two visits to a flow that is not dropped, any other key has one turn. */
  lemma OneTurnEach(evs: seq<Event>, k: Key, j: Key)
    requires Run(Init, evs).Some? && k in Run(Init, evs).value.flows && j != k
    ensures Overtakes(Run(Init, evs).value.log, k, j) <= 1
  {
    RunKeepsFair(evs);
    assert InTurn(Run(Init, evs).value, k, j);
  }

  lemma {:induction false} BurstBounded(evs: seq<Event>)
    requires Run(Init, evs).Some?
    ensures BurstBytes(Run(Init, evs).value.log) <= MAX_BURST
  {
    RunKeepsFair(evs);
  }
}
