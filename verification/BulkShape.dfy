/** The scheduler's structural invariant, kept by every event. */
module BulkShape {
  import opened Prelude
  import opened RelaySlots
  import opened BulkModel

  function Total(q: seq<Envelope>): nat
  {
    if q == [] then 0 else Size(q[0]) + Total(q[1..])
  }

  predicate Belongs(e: Envelope, k: Key, generation: nat)
  {
    e.generation == generation && e.incarnation == Some(k.owner) && e.id == k.id && Schedulable(e)
  }

  predicate FlowOk(k: Key, f: Flow, generation: nat)
  {
    && f.queuedBytes == Total(f.queue) <= FLOW_CAPACITY
    && f.deficit <= MAX_BURST
    && forall i :: 0 <= i < |f.queue| ==> Belongs(f.queue[i], k, generation)
  }

  /**
   Between visits `active` lists every flow exactly once and no flow is empty.
   During a visit only the visited key may be missing from `active` or be empty; if it
   is back in `active` it was dropped and reopened, and then it holds no deficit.
   */
  ghost predicate Shape(s: Sched)
  {
    && NoDup(s.active)
    && (forall k :: k in s.active ==> k in s.flows && s.flows[k].queue != [])
    && (forall k :: k in s.flows ==> FlowOk(k, s.flows[k], s.generation))
    && (forall k :: k in s.flows ==> k in s.active || s.visiting == Some(k))
    && (s.visiting.Some? && s.visiting.value in s.active ==> s.flows[s.visiting.value].deficit == 0)
    && s.burst <= MAX_BURST
    && (s.quantum == QUANTUM || s.quantum == MAX_BURST)
  }

  ghost predicate OwnersBounded(s: Sched)
  {
    forall o :: |Owned(s.flows, o)| <= MAX_FLOWS_PER_CLIENT
  }

  lemma {:induction false} TotalAppend(q: seq<Envelope>, e: Envelope)
    ensures Total(q + [e]) == Total(q) + Size(e)
  {
    if q != [] {
      assert (q + [e])[1..] == q[1..] + [e];
      TotalAppend(q[1..], e);
    }
  }

  lemma Smaller(a: set<Key>, b: set<Key>)
    requires a <= b
    ensures |a| <= |b|
  {
    var c := b - a;
    assert b == a + c;
  }

  lemma FlushKeeps(s: Sched, scope: Scope)
    requires Shape(s) && OwnersBounded(s)
    ensures Shape(Flush(s, scope)) && OwnersBounded(Flush(s, scope))
  {
    var t := Flush(s, scope);
    WithoutKeepsOrder(s.active, set k | k in s.active && Covers(scope, k));
    forall o ensures |Owned(t.flows, o)| <= MAX_FLOWS_PER_CLIENT {
      Smaller(Owned(t.flows, o), Owned(s.flows, o));
    }
  }

  lemma ApplyKeeps(s: Sched, c: Command)
    requires Shape(s) && OwnersBounded(s) && Apply(s, c).Some?
    ensures Shape(Apply(s, c).value) && OwnersBounded(Apply(s, c).value)
  {
    var scope := match c
      case DropFlow(owner, id) => OneFlow(Key(owner, id))
      case DropIncarnation(owner) => OwnerFlows(owner)
      case _ => AllFlows;
    FlushKeeps(s, scope);
  }

  lemma AppendKeeps(s: Sched, k: Key, e: Envelope)
    requires NoDup(s.active) && OwnersBounded(s)
    requires k in s.flows && Belongs(e, k, s.generation)
    requires forall j :: j in s.active ==> j in s.flows && (j != k ==> s.flows[j].queue != [])
    requires forall j :: j in s.flows ==> FlowOk(j, s.flows[j], s.generation)
    requires forall j :: j in s.flows ==> j in s.active || s.visiting == Some(j)
    requires s.visiting.Some? && s.visiting.value in s.active ==> s.flows[s.visiting.value].deficit == 0
    requires s.burst <= MAX_BURST && (s.quantum == QUANTUM || s.quantum == MAX_BURST)
    requires Append(s, k, e).Some?
    ensures Shape(Append(s, k, e).value) && OwnersBounded(Append(s, k, e).value)
  {
    var t := Append(s, k, e).value;
    TotalAppend(s.flows[k].queue, e);
    forall o ensures |Owned(t.flows, o)| <= MAX_FLOWS_PER_CLIENT {
      assert Owned(t.flows, o) == Owned(s.flows, o);
    }
  }

  lemma OpenKeepsOwners(s: Sched, k: Key)
    requires OwnersBounded(s) && k !in s.flows && |Owned(s.flows, k.owner)| < MAX_FLOWS_PER_CLIENT
    ensures OwnersBounded(Open(s, k))
  {
    var t := Open(s, k);
    forall o ensures |Owned(t.flows, o)| <= MAX_FLOWS_PER_CLIENT {
      assert Owned(t.flows, o) == Owned(s.flows, o) + (if o == k.owner then {k} else {});
    }
  }

  lemma OpenAppendKeeps(s: Sched, k: Key, e: Envelope)
    requires Shape(s) && OwnersBounded(s)
    requires k !in s.flows && |Owned(s.flows, k.owner)| < MAX_FLOWS_PER_CLIENT
    requires Belongs(e, k, s.generation) && Append(Open(s, k), k, e).Some?
    ensures Shape(Append(Open(s, k), k, e).value) && OwnersBounded(Append(Open(s, k), k, e).value)
  {
    var t := Open(s, k);
    OpenKeepsOwners(s, k);
    AppendKeeps(t, k, e);
  }

  lemma OfferKeeps(s: Sched, e: Envelope)
    requires Shape(s) && OwnersBounded(s) && Offer(s, e).Some?
    ensures Shape(Offer(s, e).value) && OwnersBounded(Offer(s, e).value)
  {
    if e.generation == s.generation {
      var k := Key(e.incarnation.value, e.id);
      if !Tombstoned(s, k) {
        if k in s.flows {
          AppendKeeps(s, k, e);
        } else {
          OpenAppendKeeps(s, k, e);
        }
      }
    }
  }

  lemma {:induction false} ApplyAllKeeps(s: Sched, cs: seq<Command>)
    requires Shape(s) && OwnersBounded(s) && ApplyAll(s, cs).Some?
    ensures Shape(ApplyAll(s, cs).value) && OwnersBounded(ApplyAll(s, cs).value)
  {
    if cs != [] {
      ApplyAllKeeps(s, cs[..|cs| - 1]);
      ApplyKeeps(ApplyAll(s, cs[..|cs| - 1]).value, cs[|cs| - 1]);
    }
  }

  lemma {:induction false} OfferAllKeeps(s: Sched, es: seq<Envelope>)
    requires Shape(s) && OwnersBounded(s) && OfferAll(s, es).Some?
    ensures Shape(OfferAll(s, es).value) && OwnersBounded(OfferAll(s, es).value)
  {
    if es != [] {
      OfferAllKeeps(s, es[..|es| - 1]);
      OfferKeeps(OfferAll(s, es[..|es| - 1]).value, es[|es| - 1]);
    }
  }

  lemma StartVisitKeeps(s: Sched)
    requires Shape(s) && OwnersBounded(s) && s.visiting.None? && s.active != []
    ensures Shape(StartVisit(s)) && OwnersBounded(StartVisit(s))
  {
    var t := StartVisit(s);
    assert s.active == [s.active[0]] + t.active;
    forall o ensures |Owned(t.flows, o)| <= MAX_FLOWS_PER_CLIENT {
      assert Owned(t.flows, o) == Owned(s.flows, o);
    }
  }

  lemma SendKeeps(s: Sched)
    requires Shape(s) && OwnersBounded(s) && CanSend(s) && SendHead(s).Some?
    ensures Shape(SendHead(s).value) && OwnersBounded(SendHead(s).value)
  {
    var t := SendHead(s).value;
    var k := s.visiting.value;
    assert FlowOk(k, s.flows[k], s.generation);
    forall o ensures |Owned(t.flows, o)| <= MAX_FLOWS_PER_CLIENT {
      assert Owned(t.flows, o) == Owned(s.flows, o);
    }
  }

  lemma EndVisitKeeps(s: Sched)
    requires Shape(s) && OwnersBounded(s) && s.visiting.Some?
    ensures Shape(EndVisit(s)) && OwnersBounded(EndVisit(s))
  {
    var t := EndVisit(s);
    forall o ensures |Owned(t.flows, o)| <= MAX_FLOWS_PER_CLIENT {
      Smaller(Owned(t.flows, o), Owned(s.flows, o));
    }
  }

  lemma PollKeepsShape(s: Sched, cs: seq<Command>, es: seq<Envelope>)
    requires Shape(s) && OwnersBounded(s) && Poll(s, cs, es).Some?
    ensures Shape(Poll(s, cs, es).value) && OwnersBounded(Poll(s, cs, es).value)
  {
    ApplyAllKeeps(s, cs);
    OfferAllKeeps(ApplyAll(s, cs).value, es);
  }

  /** Every event keeps the invariant, even one that lands in the middle of a visit. */
  lemma NextKeepsShape(s: Sched, ev: Event)
    requires Shape(s) && OwnersBounded(s) && Next(s, ev).Some?
    ensures Shape(Next(s, ev).value) && OwnersBounded(Next(s, ev).value)
  {
    match ev
    case Polled(cs, es) => PollKeepsShape(s, cs, es);
    case BeginRound =>
    case BeginVisit => StartVisitKeeps(s);
    case Send => SendKeeps(s);
    case Leave => EndVisitKeeps(s);
  }

  lemma {:induction false} RunKeepsShape(evs: seq<Event>)
    requires Run(Init, evs).Some?
    ensures Shape(Run(Init, evs).value) && OwnersBounded(Run(Init, evs).value)
  {
    if evs == [] {
      forall o ensures |Owned(Init.flows, o)| <= MAX_FLOWS_PER_CLIENT {
        assert Owned(Init.flows, o) == {};
      }
    } else {
      RunKeepsShape(evs[..|evs| - 1]);
      NextKeepsShape(Run(Init, evs[..|evs| - 1]).value, evs[|evs| - 1]);
    }
  }
}
