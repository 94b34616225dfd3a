/**
 What the scheduler does with the records and commands it is handed:
 which records it accepts, when it refuses one, what commands make of it, and how far a visit goes.
 */
module BulkIntake {
  import opened Prelude
  import opened RelaySlots
  import opened BulkModel
  import opened BulkShape
  import opened BulkHistory
  import opened BulkControl

  // ---- records ----

  predicate Addressed(e: Envelope, k: Key)
  {
    e.incarnation == Some(k.owner) && e.id == k.id
  }

  /** After its commands `t` wants the record: it is current and its key is not tombstoned. */
  predicate Wants(t: Sched, e: Envelope, k: Key)
  {
    Addressed(e, k) && e.generation == t.generation && !Tombstoned(t, k)
  }

  /** The records for `k` among `es` that `t` wants, in order. */
  function Wanted(t: Sched, es: seq<Envelope>, k: Key): seq<Envelope>
  {
    if es == [] then []
    else
      var rest, e := Wanted(t, es[..|es| - 1], k), es[|es| - 1];
      if Wants(t, e, k) then rest + [e] else rest
  }

  /** The records for `k` a run was handed while it wanted them, poll by poll. */
  function Handed(evs: seq<Event>, k: Key): seq<Envelope>
    requires Run(Init, evs).Some?
  {
    if evs == [] then []
    else
      var front, ev := evs[..|evs| - 1], evs[|evs| - 1];
      if ev.Polled? then Handed(front, k) + Wanted(ApplyAll(Run(Init, front).value, ev.commands).value, ev.envelopes, k)
      else Handed(front, k)
  }

  function BytesOf(s: Sched, k: Key): nat
  {
    if k in s.flows then s.flows[k].queuedBytes else 0
  }

  function DeficitOf(s: Sched, k: Key): nat
  {
    if k in s.flows then s.flows[k].deficit else 0
  }

  /** The record opens a flow of its own. */
  predicate Opens(t: Sched, e: Envelope)
  {
    e.incarnation.Some? && var k := Key(e.incarnation.value, e.id); Wants(t, e, k) && k !in t.flows
  }

  /** The flows opened by `es`, in the order of their first records. */
  function NewKeys(t: Sched, es: seq<Envelope>): seq<Key>
  {
    if es == [] then []
    else
      var rest, e := NewKeys(t, es[..|es| - 1]), es[|es| - 1];
      if Opens(t, e) && Key(e.incarnation.value, e.id) !in rest then rest + [Key(e.incarnation.value, e.id)] else rest
  }

  function CountOwned(ks: seq<Key>, o: Incarnation): nat
  {
    if ks == [] then 0 else CountOwned(ks[..|ks| - 1], o) + if ks[|ks| - 1].owner == o then 1 else 0
  }

  /** Nothing but queues, the active list and the log differs. */
  predicate SameOtherwise(t: Sched, u: Sched)
  {
    u == t.(flows := u.flows, active := u.active, log := u.log)
  }

  /** The records `q` were queued for `k`, behind what waited there. */
  predicate QueuesAt(t: Sched, q: seq<Envelope>, u: Sched, k: Key)
  {
    Adds(PlaceOf(t, k), q, PlaceOf(u, k))
  }

  /** What a scheduler holds for a key, and what it has accepted for it. */
  datatype Place = Place(queue: seq<Envelope>, bytes: nat, deficit: nat, accepted: seq<Envelope>)

  function PlaceOf(s: Sched, k: Key): Place
  {
    Place(QueueOf(s, k), BytesOf(s, k), DeficitOf(s, k), AcceptedOf(s.log, k))
  }

  predicate Adds(p: Place, q: seq<Envelope>, r: Place)
  {
    r == Place(p.queue + q, p.bytes + Total(q), p.deficit, p.accepted + q)
  }

  /** `u` is `t` with exactly the wanted records of `es` queued, each behind its own. */
  ghost predicate Queues(t: Sched, es: seq<Envelope>, u: Sched)
  {
    && SameOtherwise(t, u)
    && u.active == t.active + NewKeys(t, es)
    && (forall k :: k in u.flows <==> k in t.flows || k in NewKeys(t, es))
    && (forall k :: QueuesAt(t, Wanted(t, es, k), u, k))
    && (forall o :: |Owned(u.flows, o)| == |Owned(t.flows, o)| + CountOwned(NewKeys(t, es), o))
  }

  /** The n-th record ends the writer: malformed, beyond the flow's capacity, or one flow too many. */
  predicate Refused(t: Sched, es: seq<Envelope>, n: nat)
  {
    && n < |es| && es[n].generation == t.generation
    && var e := es[n];
    if e.incarnation.None? || e.output.Other? || e.id == 0 || |e.output.payload| == 0 || |e.output.payload| > MAX_BURST
    then true
    else
      var k := Key(e.incarnation.value, e.id);
      && !Tombstoned(t, k)
      && (|| BytesOf(t, k) + Total(Wanted(t, es[..n], k)) + |e.output.payload| > FLOW_CAPACITY
          || (&& k !in t.flows && k !in NewKeys(t, es[..n])
              && |Owned(t.flows, k.owner)| + CountOwned(NewKeys(t, es[..n]), k.owner) >= MAX_FLOWS_PER_CLIENT))
  }

  // ---- one record ----

  lemma AppendedAt(s: Sched, k: Key, e: Envelope, j: Key)
    requires k in s.flows && Append(s, k, e).Some?
    ensures var u := Append(s, k, e).value;
            && QueueOf(u, j) == QueueOf(s, j) + (if j == k then [e] else [])
            && BytesOf(u, j) == BytesOf(s, j) + (if j == k then Size(e) else 0)
            && DeficitOf(u, j) == DeficitOf(s, j)
            && AcceptedOf(u.log, j) == AcceptedOf(s.log, j) + (if j == k then [e] else [])
  {
    AppendEntry(s.log, Accepted(k, e), j);
  }

  lemma OpenedAt(s: Sched, k: Key, j: Key)
    requires k !in s.flows
    ensures var u := Open(s, k);
            && QueueOf(u, j) == QueueOf(s, j) && BytesOf(u, j) == BytesOf(s, j) && DeficitOf(u, j) == DeficitOf(s, j)
            && AcceptedOf(u.log, j) == AcceptedOf(s.log, j)
  {
    AppendEntry(s.log, Opened(k), j);
  }

  lemma {:induction false} TotalConcat(p: seq<Envelope>, q: seq<Envelope>)
    ensures Total(p + q) == Total(p) + Total(q)
  {
    if p == [] {
      assert p + q == q;
    } else {
      assert (p + q)[1..] == p[1..] + q;
      TotalConcat(p[1..], q);
    }
  }

  lemma AddsTrans(a: Place, p: seq<Envelope>, b: Place, q: seq<Envelope>, c: Place)
    requires Adds(a, p, b) && Adds(b, q, c)
    ensures Adds(a, p + q, c)
  {
    TotalConcat(p, q);
    assert a.queue + p + q == a.queue + (p + q);
    assert a.accepted + p + q == a.accepted + (p + q);
  }

  lemma OfferAt(s: Sched, e: Envelope, j: Key)
    requires Offer(s, e).Some?
    ensures QueuesAt(s, if Wants(s, e, j) then [e] else [], Offer(s, e).value, j)
  {
    if e.generation == s.generation {
      var k := Key(e.incarnation.value, e.id);
      assert Wants(s, e, j) <==> j == k && !Tombstoned(s, k);
      if !Tombstoned(s, k) {
        if k in s.flows {
          AppendedAt(s, k, e, j);
        } else {
          OpenedAt(s, k, j);
          AppendedAt(Open(s, k), k, e, j);
        }
      }
    }
  }

  lemma OwnedGrows(flows: map<Key, Flow>, more: map<Key, Flow>, k: Key, o: Incarnation)
    requires k !in flows && more.Keys == flows.Keys + {k}
    ensures |Owned(more, o)| == |Owned(flows, o)| + if k.owner == o then 1 else 0
  {
    if k.owner == o {
      assert Owned(more, o) == Owned(flows, o) + {k};
    } else {
      assert Owned(more, o) == Owned(flows, o);
    }
  }

  lemma OwnedSame(flows: map<Key, Flow>, more: map<Key, Flow>, o: Incarnation)
    requires more.Keys == flows.Keys
    ensures Owned(more, o) == Owned(flows, o)
  {
  }

  lemma OfferFrame(s: Sched, e: Envelope)
    requires Offer(s, e).Some?
    ensures var u := Offer(s, e).value;
            && SameOtherwise(s, u)
            && (if Opens(s, e)
                then u.active == s.active + [Key(e.incarnation.value, e.id)]
                     && u.flows.Keys == s.flows.Keys + {Key(e.incarnation.value, e.id)}
                else u.active == s.active && u.flows.Keys == s.flows.Keys)
  {
  }

  // ---- all records of a poll ----

  lemma QueuesNothing(t: Sched)
    ensures Queues(t, [], t)
  {
  }

  lemma WantedNext(t: Sched, u: Sched, es: seq<Envelope>, e: Envelope, k: Key)
    requires SameOtherwise(t, u)
    ensures Wanted(t, es + [e], k) == Wanted(t, es, k) + if Wants(u, e, k) then [e] else []
  {
    assert (es + [e])[..|es|] == es;
    assert Wants(u, e, k) == Wants(t, e, k);
  }

  lemma OneMoreWanted(t: Sched, u: Sched, es: seq<Envelope>, e: Envelope, k: Key)
    requires SameOtherwise(t, u) && QueuesAt(t, Wanted(t, es, k), u, k) && Offer(u, e).Some?
    ensures QueuesAt(t, Wanted(t, es + [e], k), Offer(u, e).value, k)
  {
    var more := if Wants(u, e, k) then [e] else [];
    OfferAt(u, e, k);
    WantedNext(t, u, es, e, k);
    AddsTrans(PlaceOf(t, k), Wanted(t, es, k), PlaceOf(u, k), more, PlaceOf(Offer(u, e).value, k));
  }

  lemma NewKeysNext(t: Sched, u: Sched, es: seq<Envelope>, e: Envelope)
    requires SameOtherwise(t, u) && forall k :: k in u.flows <==> k in t.flows || k in NewKeys(t, es)
    ensures NewKeys(t, es + [e]) ==
            NewKeys(t, es) + if Opens(u, e) then [Key(e.incarnation.value, e.id)] else []
  {
    assert (es + [e])[..|es|] == es;
    if e.incarnation.Some? {
      var k := Key(e.incarnation.value, e.id);
      assert Wants(u, e, k) == Wants(t, e, k);
    }
  }

  lemma CountNext(ks: seq<Key>, k: Key, o: Incarnation)
    ensures CountOwned(ks + [k], o) == CountOwned(ks, o) + if k.owner == o then 1 else 0
  {
    assert (ks + [k])[..|ks|] == ks;
  }

  lemma OwnedNext(u: Sched, e: Envelope, ks: seq<Key>, o: Incarnation)
    requires Offer(u, e).Some?
    ensures var more := if Opens(u, e) then [Key(e.incarnation.value, e.id)] else [];
            |Owned(Offer(u, e).value.flows, o)| - |Owned(u.flows, o)| == CountOwned(ks + more, o) - CountOwned(ks, o)
  {
    var v := Offer(u, e).value;
    OfferFrame(u, e);
    if Opens(u, e) {
      var k := Key(e.incarnation.value, e.id);
      OwnedGrows(u.flows, v.flows, k, o);
      CountNext(ks, k, o);
    } else {
      OwnedSame(u.flows, v.flows, o);
      assert ks + [] == ks;
    }
  }

  lemma OneMoreKey(t: Sched, u: Sched, es: seq<Envelope>, e: Envelope)
    requires Queues(t, es, u) && Offer(u, e).Some?
    ensures var v, all := Offer(u, e).value, es + [e];
            && SameOtherwise(t, v) && v.active == t.active + NewKeys(t, all)
            && (forall k :: k in v.flows <==> k in t.flows || k in NewKeys(t, all))
            && (forall o :: |Owned(v.flows, o)| == |Owned(t.flows, o)| + CountOwned(NewKeys(t, all), o))
  {
    var ks := NewKeys(t, es);
    OfferFrame(u, e);
    NewKeysNext(t, u, es, e);
    forall o ensures |Owned(Offer(u, e).value.flows, o)| == |Owned(t.flows, o)| + CountOwned(NewKeys(t, es + [e]), o) {
      OwnedNext(u, e, ks, o);
    }
    if !Opens(u, e) {
      assert ks + [] == ks;
    }
  }

  lemma QueuesNext(t: Sched, u: Sched, es: seq<Envelope>, e: Envelope)
    requires Queues(t, es, u) && Offer(u, e).Some?
    ensures Queues(t, es + [e], Offer(u, e).value)
  {
    OneMoreKey(t, u, es, e);
    forall k ensures QueuesAt(t, Wanted(t, es + [e], k), Offer(u, e).value, k) {
      OneMoreWanted(t, u, es, e, k);
    }
  }

  /** The records of a poll, once admitted, are queued exactly. */
  lemma {:induction false} IntakeIsExact(t: Sched, es: seq<Envelope>)
    requires OfferAll(t, es).Some?
    ensures Queues(t, es, OfferAll(t, es).value)
  {
    if es == [] {
      QueuesNothing(t);
    } else {
      var front, e := es[..|es| - 1], es[|es| - 1];
      IntakeIsExact(t, front);
      QueuesNext(t, OfferAll(t, front).value, front, e);
      assert front + [e] == es;
    }
  }

  lemma OfferFailsIff(t: Sched, u: Sched, es: seq<Envelope>, n: nat)
    requires n < |es| && Queues(t, es[..n], u)
    ensures Offer(u, es[n]).None? <==> Refused(t, es, n)
  {
    var e := es[n];
    if e.generation == t.generation && Schedulable(e) {
      var k := Key(e.incarnation.value, e.id);
      assert Tombstoned(u, k) == Tombstoned(t, k);
      assert QueuesAt(t, Wanted(t, es[..n], k), u, k);
    }
  }

  /** Exactly when the records of a poll end the writer. */
  lemma {:induction false} IntakeFailsIff(t: Sched, es: seq<Envelope>)
    ensures OfferAll(t, es).None? <==> exists n :: Refused(t, es, n)
  {
    if es != [] {
      var front, last := es[..|es| - 1], |es| - 1;
      IntakeFailsIff(t, front);
      forall n | 0 <= n < last ensures Refused(t, es, n) <==> Refused(t, front, n) {
        assert es[..n] == front[..n];
      }
      if OfferAll(t, front).Some? {
        IntakeIsExact(t, front);
        OfferFailsIff(t, OfferAll(t, front).value, es, last);
        assert forall n :: Refused(t, es, n) ==> n == last || Refused(t, front, n);
      } else {
        var n :| Refused(t, front, n);
        assert Refused(t, es, n);
      }
    }
  }

  /** Exactly when the commands of a poll do: one drops a correlation that lies in no range. */
  lemma {:induction false} CommandsFailIff(s: Sched, cs: seq<Command>)
    ensures ApplyAll(s, cs).None? <==> exists i :: 0 <= i < |cs| && cs[i].DropFlow? && Slot(cs[i].id).None?
  {
    if cs != [] {
      var front, last := cs[..|cs| - 1], |cs| - 1;
      CommandsFailIff(s, front);
      assert forall i :: 0 <= i < last ==> cs[i] == front[i];
      if ApplyAll(s, front).Some? {
        assert ApplyAll(s, cs).None? <==> cs[last].DropFlow? && Slot(cs[last].id).None?;
      }
    }
  }

  /** Exactly when a poll ends the writer. */
  lemma PollFailsIff(s: Sched, cs: seq<Command>, es: seq<Envelope>)
    ensures Poll(s, cs, es).None? <==>
            || (exists i :: 0 <= i < |cs| && cs[i].DropFlow? && Slot(cs[i].id).None?)
            || (ApplyAll(s, cs).Some? && exists n :: Refused(ApplyAll(s, cs).value, es, n))
  {
    CommandsFailIff(s, cs);
    if ApplyAll(s, cs).Some? {
      IntakeFailsIff(ApplyAll(s, cs).value, es);
    }
  }

  // ---- whole runs: records ----

  /** Commands accept nothing. */
  lemma CommandAccepts(s: Sched, c: Command, k: Key)
    requires Apply(s, c).Some?
    ensures AcceptedOf(Apply(s, c).value.log, k) == AcceptedOf(s.log, k)
  {
    var x := CommandLogs(s, c);
    AppendEntry(s.log, x, k);
  }

  lemma {:induction false} CommandsAccept(s: Sched, cs: seq<Command>, k: Key)
    requires ApplyAll(s, cs).Some?
    ensures AcceptedOf(ApplyAll(s, cs).value.log, k) == AcceptedOf(s.log, k)
  {
    if cs != [] {
      CommandsAccept(s, cs[..|cs| - 1], k);
      CommandAccepts(ApplyAll(s, cs[..|cs| - 1]).value, cs[|cs| - 1], k);
    }
  }

  lemma PollAccepts(s: Sched, cs: seq<Command>, es: seq<Envelope>, k: Key)
    requires Poll(s, cs, es).Some?
    ensures AcceptedOf(Poll(s, cs, es).value.log, k) ==
            AcceptedOf(s.log, k) + Wanted(ApplyAll(s, cs).value, es, k)
  {
    var t := ApplyAll(s, cs).value;
    CommandsAccept(s, cs, k);
    IntakeIsExact(t, es);
    assert QueuesAt(t, Wanted(t, es, k), OfferAll(t, es).value, k);
  }

  lemma OthersAcceptNothing(s: Sched, ev: Event, k: Key)
    requires !ev.Polled? && Next(s, ev).Some?
    ensures AcceptedOf(Next(s, ev).value.log, k) == AcceptedOf(s.log, k)
  {
    match ev
    case BeginRound =>
    case BeginVisit => AppendEntry(s.log, Visited(s.active[0], s.quantum), k);
    case Send =>
      var e := s.flows[s.visiting.value].queue[0];
      AppendEntry(s.log, Wrote(Key(e.incarnation.value, e.id), e), k);
    case Leave => AppendEntry(s.log, Left(s.visiting.value), k);
  }

  /** In every run the records accepted for a key are exactly those handed over while they were wanted, in order. */
  lemma {:induction false} AcceptedIsHanded(evs: seq<Event>, k: Key)
    requires Run(Init, evs).Some?
    ensures AcceptedOf(Run(Init, evs).value.log, k) == Handed(evs, k)
  {
    if evs != [] {
      var front, ev := evs[..|evs| - 1], evs[|evs| - 1];
      AcceptedIsHanded(front, k);
      var s := Run(Init, front).value;
      if ev.Polled? {
        PollAccepts(s, ev.commands, ev.envelopes, k);
      } else {
        OthersAcceptNothing(s, ev, k);
      }
    }
  }

  // ---- whole runs: commands ----

  /** The flows a command drops. */
  function ScopeOf(c: Command): Option<Scope>
  {
    match c
    case Restore(_) => Some(AllFlows)
    case DropFlow(owner, id) => Some(OneFlow(Key(owner, id)))
    case DropIncarnation(owner) => Some(OwnerFlows(owner))
    case _ => None
  }

  predicate Spares(cs: seq<Command>, k: Key)
  {
    forall i :: 0 <= i < |cs| && ScopeOf(cs[i]).Some? ==> !Covers(ScopeOf(cs[i]).value, k)
  }

  function ParkedBy(cs: seq<Command>): bool
  {
    cs != [] && if cs[|cs| - 1].Park? then true else if cs[|cs| - 1].Resume? then false else ParkedBy(cs[..|cs| - 1])
  }

  function RestoredBy(cs: seq<Command>): nat
  {
    if cs == [] then 0
    else if cs[|cs| - 1].Restore? then cs[|cs| - 1].generation
    else RestoredBy(cs[..|cs| - 1])
  }

  /** The state agrees with the commands so far: parked, generation, and what was flushed. */
  ghost predicate Obeys(s: Sched, cs: seq<Command>)
  {
    && s.parked == ParkedBy(cs) && s.generation == RestoredBy(cs)
    && forall k :: FlushFree(s.log, k) <==> Spares(cs, k)
  }

  lemma OneMoreSpared(cs: seq<Command>, c: Command, k: Key)
    ensures Spares(cs + [c], k) <==> Spares(cs, k) && (ScopeOf(c).Some? ==> !Covers(ScopeOf(c).value, k))
  {
    if Spares(cs + [c], k) {
      assert (cs + [c])[|cs|] == c;
      assert forall i :: 0 <= i < |cs| ==> (cs + [c])[i] == cs[i];
    }
  }

  lemma FlushEntry(s: Sched, c: Command) returns (x: Entry)
    requires Apply(s, c).Some?
    ensures Apply(s, c).value.log == s.log + [x]
    ensures x.Flushed? <==> ScopeOf(c).Some?
    ensures x.Flushed? ==> x.scope == ScopeOf(c).value
  {
    x := Apply(s, c).value.log[|s.log|];
  }

  lemma CommandObeyed(s: Sched, cs: seq<Command>, c: Command)
    requires Obeys(s, cs) && Apply(s, c).Some?
    ensures Obeys(Apply(s, c).value, cs + [c])
  {
    assert (cs + [c])[..|cs|] == cs;
    var x := FlushEntry(s, c);
    forall k ensures FlushFree(s.log + [x], k) <==> Spares(cs + [c], k) {
      AppendEntry(s.log, x, k);
      OneMoreSpared(cs, c, k);
    }
  }

  lemma {:induction false} CommandsObeyed(s: Sched, before: seq<Command>, cs: seq<Command>)
    requires Obeys(s, before) && ApplyAll(s, cs).Some?
    ensures Obeys(ApplyAll(s, cs).value, before + cs)
  {
    if cs == [] {
      assert before + cs == before;
    } else {
      var front, c := cs[..|cs| - 1], cs[|cs| - 1];
      CommandsObeyed(s, before, front);
      CommandObeyed(ApplyAll(s, front).value, before + front, c);
      assert before + front + [c] == before + cs;
    }
  }

  lemma OfferFlushesNothing(s: Sched, e: Envelope, k: Key)
    requires Offer(s, e).Some?
    ensures FlushFree(Offer(s, e).value.log, k) <==> FlushFree(s.log, k)
  {
    if e.generation == s.generation {
      var j := Key(e.incarnation.value, e.id);
      if !Tombstoned(s, j) {
        if j in s.flows {
          AppendEntry(s.log, Accepted(j, e), k);
        } else {
          AppendEntry(s.log, Opened(j), k);
          AppendEntry(Open(s, j).log, Accepted(j, e), k);
        }
      }
    }
  }

  lemma {:induction false} OffersFlushNothing(s: Sched, es: seq<Envelope>, k: Key)
    requires OfferAll(s, es).Some?
    ensures FlushFree(OfferAll(s, es).value.log, k) <==> FlushFree(s.log, k)
  {
    if es != [] {
      OffersFlushNothing(s, es[..|es| - 1], k);
      OfferFlushesNothing(OfferAll(s, es[..|es| - 1]).value, es[|es| - 1], k);
    }
  }

  lemma PollObeyed(s: Sched, before: seq<Command>, cs: seq<Command>, es: seq<Envelope>)
    requires Obeys(s, before) && Poll(s, cs, es).Some?
    ensures Obeys(Poll(s, cs, es).value, before + cs)
  {
    CommandsObeyed(s, before, cs);
    var t := ApplyAll(s, cs).value;
    IntakeIsExact(t, es);
    forall k ensures FlushFree(OfferAll(t, es).value.log, k) <==> FlushFree(t.log, k) {
      OffersFlushNothing(t, es, k);
    }
  }

  lemma OthersObey(s: Sched, cs: seq<Command>, ev: Event)
    requires Obeys(s, cs) && !ev.Polled? && Next(s, ev).Some?
    ensures Obeys(Next(s, ev).value, cs)
  {
    var t := Next(s, ev).value;
    forall k ensures FlushFree(t.log, k) <==> FlushFree(s.log, k) {
      if !ev.BeginRound? {
        assert t.log == s.log + [t.log[|s.log|]];
        AppendEntry(s.log, t.log[|s.log|], k);
      }
    }
  }

  /** In every run the writer is parked, and in a generation, as the last command about it says. */
  lemma {:induction false} CommandsAreObeyed(evs: seq<Event>)
    requires Run(Init, evs).Some?
    ensures Obeys(Run(Init, evs).value, CommandsOf(evs))
  {
    if evs != [] {
      var front, ev := evs[..|evs| - 1], evs[|evs| - 1];
      CommandsAreObeyed(front);
      var s := Run(Init, front).value;
      if ev.Polled? {
        PollObeyed(s, CommandsOf(front), ev.commands, ev.envelopes);
      } else {
        OthersObey(s, CommandsOf(front), ev);
      }
    }
  }

  /**
   From the channel to the port: for every run and every key no command dropped, the records
   handed over while wanted are, in order, those written followed by those still queued.
   */
  lemma HandedIsWrittenOrQueued(evs: seq<Event>, k: Key)
    requires Run(Init, evs).Some? && Spares(CommandsOf(evs), k)
    ensures Handed(evs, k) == WrittenOf(Run(Init, evs).value.log, k) + QueueOf(Run(Init, evs).value, k)
  {
    var log := Run(Init, evs).value.log;
    CommandsAreObeyed(evs);
    AcceptedIsHanded(evs, k);
    assert FlushFree(log, k) && log[0..] == log && log[..0] == [];
    NothingLostOrReordered(evs, 0, k);
    assert Queued([], k) == Some([]);
    assert [] + AcceptedOf(log, k) == AcceptedOf(log, k);
  }

  // ---- whole runs: visits ----

  /** What keeps the head of the visited flow from being written now. */
  predicate Held(s: Sched, k: Key)
  {
    || k !in s.flows || s.flows[k].queue == []
    || |Payload(s.flows[k].queue[0])| > s.flows[k].deficit
    || s.burst + |Payload(s.flows[k].queue[0])| > MAX_BURST
  }

  function Payload(e: Envelope): seq<byte>
  {
    if e.output.Bulk? then e.output.payload else []
  }

  /** In every run a visit is left only when the writer is parked or nothing more fits the deficit or the burst. */
  lemma VisitsAreGreedy(evs: seq<Event>)
    requires Run(Init, evs + [Leave]).Some?
    ensures Run(Init, evs).Some?
    ensures var s := Run(Init, evs).value;
            s.visiting.Some? && (ParkedBy(CommandsOf(evs)) || Held(s, s.visiting.value))
  {
    assert (evs + [Leave])[..|evs|] == evs;
    var s := Run(Init, evs).value;
    CommandsAreObeyed(evs);
    RunKeepsShape(evs);
    var k := s.visiting.value;
    if k in s.flows && s.flows[k].queue != [] {
      assert FlowOk(k, s.flows[k], s.generation);
      assert Belongs(s.flows[k].queue[0], k, s.generation);
    }
  }

  /** And a record is written exactly when a visit is under way, the writer is not parked and the head is not held. */
  lemma SendIff(evs: seq<Event>)
    requires Run(Init, evs).Some?
    ensures var s := Run(Init, evs).value;
            Run(Init, evs + [Send]).Some? <==>
            && !ParkedBy(CommandsOf(evs)) && s.visiting.Some? && !Held(s, s.visiting.value)
            && s.wireBytes + WIRE_OVERHEAD + |Payload(s.flows[s.visiting.value].queue[0])| <= U64_MAX
  {
    assert (evs + [Send])[..|evs|] == evs;
    var s := Run(Init, evs).value;
    CommandsAreObeyed(evs);
    RunKeepsShape(evs);
    if s.visiting.Some? && s.visiting.value in s.flows && s.flows[s.visiting.value].queue != [] {
      var k := s.visiting.value;
      assert FlowOk(k, s.flows[k], s.generation);
      assert Belongs(s.flows[k].queue[0], k, s.generation);
    }
  }

  /** How many flows were active when the current round began. */
  function RoundSize(evs: seq<Event>): nat
    requires Run(Init, evs).Some?
  {
    if evs == [] then 0
    else
      var front := evs[..|evs| - 1];
      if evs[|evs| - 1].BeginRound? then |Run(Init, front).value.active| else RoundSize(front)
  }

  lemma OthersKeepQuantum(s: Sched, ev: Event)
    requires !ev.BeginRound? && Next(s, ev).Some?
    ensures Next(s, ev).value.quantum == s.quantum
  {
    if ev.Polled? {
      CommandsKeepQuantum(s, ev.commands);
      IntakeIsExact(ApplyAll(s, ev.commands).value, ev.envelopes);
    }
  }

  lemma {:induction false} CommandsKeepQuantum(s: Sched, cs: seq<Command>)
    requires ApplyAll(s, cs).Some?
    ensures ApplyAll(s, cs).value.quantum == s.quantum
  {
    if cs != [] {
      CommandsKeepQuantum(s, cs[..|cs| - 1]);
    }
  }

  /**
   In every run a flow alone in its round is visited with the whole burst, and flows that share it with
   the quantum.
   */
  lemma {:induction false} QuantumFollowsTheRound(evs: seq<Event>)
    requires Run(Init, evs).Some?
    ensures Run(Init, evs).value.quantum == if RoundSize(evs) == 1 then MAX_BURST else QUANTUM
  {
    if evs != [] {
      var front, ev := evs[..|evs| - 1], evs[|evs| - 1];
      QuantumFollowsTheRound(front);
      if !ev.BeginRound? {
        OthersKeepQuantum(Run(Init, front).value, ev);
      }
    }
  }
}
