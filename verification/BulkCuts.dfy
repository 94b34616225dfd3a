/**
 What an acknowledged drop or restore guarantees about queued records, and how long a
 tombstone blocks a correlation.
 */
module BulkCuts {
  import opened Prelude
  import opened RelaySlots
  import opened BulkModel
  import opened BulkShape

  predicate RestoreFree(cs: seq<Command>)
  {
    forall i :: 0 <= i < |cs| ==> !cs[i].Restore?
  }

  predicate NoLaterRestore(cs: seq<Command>, i: nat)
    requires i < |cs|
  {
    RestoreFree(cs[i + 1..])
  }

  /** A command whose tombstone covers `k`: its owner, or an id sharing its bit. */
  predicate Shields(c: Command, k: Key)
  {
    || c == DropIncarnation(k.owner)
    || (c.DropFlow? && c.owner == k.owner && Local(c.id).Some? && Local(c.id) == Local(k.id))
  }

  /** Some command of the batch shields `k` and no restore follows it in the same batch. */
  ghost predicate Shielded(cs: seq<Command>, k: Key)
  {
    exists i :: 0 <= i < |cs| && Shields(cs[i], k) && NoLaterRestore(cs, i)
  }

  ghost predicate OwnerShielded(cs: seq<Command>, o: Incarnation)
  {
    exists i :: 0 <= i < |cs| && cs[i] == DropIncarnation(o) && NoLaterRestore(cs, i)
  }

  lemma RestoreFreeSplit(cs: seq<Command>, i: nat)
    requires i < |cs|
    ensures NoLaterRestore(cs, i) <==>
            (i + 1 < |cs| ==> NoLaterRestore(cs[..|cs| - 1], i) && !cs[|cs| - 1].Restore?)
  {
    if i + 1 < |cs| {
      assert cs[i + 1..] == cs[..|cs| - 1][i + 1..] + [cs[|cs| - 1]];
    }
  }

  lemma ShieldedSplit(cs: seq<Command>, k: Key)
    requires cs != []
    ensures var front, c := cs[..|cs| - 1], cs[|cs| - 1];
            Shielded(cs, k) <==> Shields(c, k) || (Shielded(front, k) && !c.Restore?)
    ensures var front, c := cs[..|cs| - 1], cs[|cs| - 1];
            OwnerShielded(cs, k.owner) <==>
              c == DropIncarnation(k.owner) || (OwnerShielded(front, k.owner) && !c.Restore?)
    ensures RestoreFree(cs) <==> RestoreFree(cs[..|cs| - 1]) && !cs[|cs| - 1].Restore?
  {
    forall i | 0 <= i < |cs|
      ensures NoLaterRestore(cs, i) <==>
              (i + 1 < |cs| ==> NoLaterRestore(cs[..|cs| - 1], i) && !cs[|cs| - 1].Restore?)
    {
      RestoreFreeSplit(cs, i);
    }
    assert cs == cs[..|cs| - 1] + [cs[|cs| - 1]];
  }

  lemma ApplyTombstone(s: Sched, c: Command, k: Key)
    requires Apply(s, c).Some?
    ensures Tombstoned(Apply(s, c).value, k) <==> Shields(c, k) || (Tombstoned(s, k) && !c.Restore?)
    ensures k.owner in Apply(s, c).value.retiring <==>
            c == DropIncarnation(k.owner) || (k.owner in s.retiring && !c.Restore?)
    ensures k in Apply(s, c).value.flows ==> k in s.flows
    ensures (c == DropFlow(k.owner, k.id) || c == DropIncarnation(k.owner) || c.Restore?) ==>
              k !in Apply(s, c).value.flows
  {
    if c.DropFlow? {
      RetireAddsOneId(s.retired, c.owner, c.id, k.owner, k.id);
    }
  }

  /** After a batch of commands a key is blocked exactly when the batch, or a surviving tombstone, says so. */
  lemma {:induction false} TombstonesAfter(s: Sched, cs: seq<Command>, k: Key)
    requires ApplyAll(s, cs).Some?
    ensures var t := ApplyAll(s, cs).value;
            && (Tombstoned(t, k) <==> Shielded(cs, k) || (Tombstoned(s, k) && RestoreFree(cs)))
            && (k.owner in t.retiring <==> OwnerShielded(cs, k.owner) || (k.owner in s.retiring && RestoreFree(cs)))
            && (k in t.flows ==> k in s.flows)
            && (DropFlow(k.owner, k.id) in cs || DropIncarnation(k.owner) in cs || !RestoreFree(cs) ==> k !in t.flows)
  {
    if cs != [] {
      var front, c := cs[..|cs| - 1], cs[|cs| - 1];
      assert cs == front + [c];
      TombstonesAfter(s, front, k);
      ApplyTombstone(ApplyAll(s, front).value, c, k);
      ShieldedSplit(cs, k);
    }
  }

  /** The generation after a batch: the one its last restore starts, or the current one. */
  function GenerationOf(s: Sched, cs: seq<Command>): nat
  {
    if cs == [] then s.generation
    else if cs[|cs| - 1].Restore? then cs[|cs| - 1].generation
    else GenerationOf(s, cs[..|cs| - 1])
  }

  lemma {:induction false} GenerationAfter(s: Sched, cs: seq<Command>)
    requires ApplyAll(s, cs).Some?
    ensures ApplyAll(s, cs).value.generation == GenerationOf(s, cs)
  {
    if cs != [] {
      GenerationAfter(s, cs[..|cs| - 1]);
    }
  }

  // ---- which records of a poll are queued ----

  /** The envelope is queued under `k` by a scheduler whose commands have been applied. */
  predicate Accepts(t: Sched, e: Envelope, k: Key)
  {
    e.generation == t.generation && e.incarnation == Some(k.owner) && e.id == k.id && !Tombstoned(t, k)
  }

  lemma OfferedKey(t: Sched, e: Envelope, k: Key)
    requires Offer(t, e).Some?
    ensures var u := Offer(t, e).value;
            && u.generation == t.generation && u.retired == t.retired && u.retiring == t.retiring
            && (k in u.flows <==> k in t.flows || Accepts(t, e, k))
  {
  }

  /** After any envelopes a key has a flow exactly when it had one or one of them was accepted for it. */
  lemma {:induction false} OfferedKeys(t: Sched, es: seq<Envelope>, k: Key)
    requires OfferAll(t, es).Some?
    ensures var u := OfferAll(t, es).value;
            && u.generation == t.generation && u.retired == t.retired && u.retiring == t.retiring
            && (k in u.flows <==> k in t.flows || exists e :: e in es && Accepts(t, e, k))
  {
    if es != [] {
      var front, e := es[..|es| - 1], es[|es| - 1];
      OfferedKeys(t, front, k);
      OfferedKey(OfferAll(t, front).value, e, k);
      assert es == front + [e] && e in es;
      assert forall x :: x in es <==> x in front || x == e;
    }
  }

  // ---- the cuts, for any batch and any records ----

  /** A dropped key stays blocked for the batch, unless a restore follows. */
  lemma DropShields(cs: seq<Command>, c: Command, k: Key)
    requires c in cs && Shields(c, k) && RestoreFree(cs)
    ensures Shielded(cs, k)
  {
    var i :| 0 <= i < |cs| && cs[i] == c;
    assert RestoreFree(cs[i + 1..]);
    assert NoLaterRestore(cs, i);
  }

  /**
   A record slips past the drops of its key in a batch: it already carries the generation the
   batch ends with, and no drop of its key comes after the last restore.
   */
  ghost predicate Slips(s: Sched, cs: seq<Command>, e: Envelope, k: Key)
  {
    e.generation == GenerationOf(s, cs) && e.incarnation == Some(k.owner) && e.id == k.id && !Shielded(cs, k)
  }

  /** A batch that drops `k` leaves it queued exactly when some record slips past. */
  lemma DroppedKeyQueuedIff(s: Sched, cs: seq<Command>, es: seq<Envelope>, k: Key)
    requires Poll(s, cs, es).Some?
    requires DropIncarnation(k.owner) in cs || (DropFlow(k.owner, k.id) in cs && Local(k.id).Some?)
    ensures k in Poll(s, cs, es).value.flows <==> exists e :: e in es && Slips(s, cs, e, k)
  {
    var t := ApplyAll(s, cs).value;
    TombstonesAfter(s, cs, k);
    GenerationAfter(s, cs);
    OfferedKeys(t, es, k);
    if RestoreFree(cs) {
      DropShields(cs, if DropIncarnation(k.owner) in cs then DropIncarnation(k.owner) else DropFlow(k.owner, k.id), k);
    }
    assert Tombstoned(t, k) <==> Shielded(cs, k);
    assert forall e :: Accepts(t, e, k) <==> Slips(s, cs, e, k);
  }

  lemma {:induction false} DroppedIdsHavePlaces(s: Sched, cs: seq<Command>, o: Incarnation, id: nat)
    requires ApplyAll(s, cs).Some? && DropFlow(o, id) in cs
    ensures Local(id).Some?
  {
    var front, c := cs[..|cs| - 1], cs[|cs| - 1];
    assert cs == front + [c];
    if c != DropFlow(o, id) {
      DroppedIdsHavePlaces(s, front, o, id);
    }
  }

  ghost predicate OwnerGone(s: Sched, o: Incarnation)
  {
    (forall k :: k in s.flows ==> k.owner != o) && (forall k :: k in s.active ==> k.owner != o)
  }

  /** Exactly when an acknowledged drop of `o` leaves nothing of it queued: no record slips past. */
  lemma DropIncarnationCut(s: Sched, cs: seq<Command>, es: seq<Envelope>, o: Incarnation)
    requires Shape(s) && OwnersBounded(s) && Poll(s, cs, es).Some? && DropIncarnation(o) in cs
    ensures OwnerGone(Poll(s, cs, es).value, o) <==> forall e :: e in es ==> !Slips(s, cs, e, Key(o, e.id))
  {
    PollKeepsShape(s, cs, es);
    var u := Poll(s, cs, es).value;
    forall k: Key | k.owner == o ensures k in u.flows <==> exists e :: e in es && Slips(s, cs, e, k) {
      DroppedKeyQueuedIff(s, cs, es, k);
    }
    if !OwnerGone(u, o) {
      var k :| k in u.flows && k.owner == o;
      var e :| e in es && Slips(s, cs, e, k);
      assert Slips(s, cs, e, Key(o, e.id));
    }
    if e :| e in es && Slips(s, cs, e, Key(o, e.id)) {
      assert Key(o, e.id) in u.flows;
    }
  }

  /** The same for one dropped correlation. */
  lemma DropFlowCut(s: Sched, cs: seq<Command>, es: seq<Envelope>, k: Key)
    requires Shape(s) && OwnersBounded(s) && Poll(s, cs, es).Some? && DropFlow(k.owner, k.id) in cs
    ensures k !in Poll(s, cs, es).value.flows && k !in Poll(s, cs, es).value.active <==>
            forall e :: e in es ==> !Slips(s, cs, e, k)
  {
    PollKeepsShape(s, cs, es);
    DroppedIdsHavePlaces(s, cs, k.owner, k.id);
    DroppedKeyQueuedIff(s, cs, es, k);
  }

  /** The smallest batch and record that slip: the record carries the generation the restore starts. */
  lemma RestoreAfterDropReopensOwner(o: Incarnation)
    ensures var cs, e := [DropIncarnation(o), Restore(1)], Envelope(1, 1, Some(o), Bulk([0]));
            && Slot(1) == Some(0) && Slips(Init, cs, e, Key(o, 1))
            && Poll(Init, cs, [e]).Some? && !OwnerGone(Poll(Init, cs, [e]).value, o)
  {
    var cs, k := [DropIncarnation(o), Restore(1)], Key(o, 1);
    var e := Envelope(1, 1, Some(o), Bulk([0]));
    SlotIsTheOwningRange(1, 0);
    assert cs[..1] == [DropIncarnation(o)] && cs[..1][..0] == [];
    var one := Apply(Init, DropIncarnation(o)).value;
    assert ApplyAll(Init, []) == Some(Init) && ApplyAll(Init, cs[..1]) == Some(one);
    var t := Apply(one, Restore(1)).value;
    assert ApplyAll(Init, cs) == Some(t) && t.flows == map[];
    assert Owned(t.flows, o) == {} && [e][..0] == [] && OfferAll(t, []) == Some(t);
    assert Offer(t, e) == Append(Open(t, k), k, e);
    assert k in Poll(Init, cs, [e]).value.flows;
    DroppedKeyQueuedIff(Init, cs, [e], k);
  }

  // ---- the batches the agent sends ----

  /**
   What the agent keeps to: a restore starts a newer generation, and producers of that
   generation exist only after its acknowledgement, so no record of the poll is newer than `s`.
   */
  predicate Honest(s: Sched, cs: seq<Command>, es: seq<Envelope>)
  {
    && (forall i :: 0 <= i < |cs| && cs[i].Restore? ==> cs[i].generation > s.generation)
    && (forall i :: 0 <= i < |es| ==> es[i].generation <= s.generation)
  }

  lemma {:induction false} RestoreIsNewer(s: Sched, cs: seq<Command>)
    requires forall i :: 0 <= i < |cs| && cs[i].Restore? ==> cs[i].generation > s.generation
    requires !RestoreFree(cs)
    ensures GenerationOf(s, cs) > s.generation
  {
    if !cs[|cs| - 1].Restore? {
      assert forall i :: 0 <= i < |cs| - 1 ==> cs[..|cs| - 1][i] == cs[i];
      RestoreIsNewer(s, cs[..|cs| - 1]);
    }
  }

  lemma NothingSlips(s: Sched, cs: seq<Command>, es: seq<Envelope>, c: Command, k: Key, e: Envelope)
    requires Honest(s, cs, es) && c in cs && Shields(c, k) && e in es
    ensures !Slips(s, cs, e, k)
  {
    if RestoreFree(cs) {
      DropShields(cs, c, k);
    } else {
      RestoreIsNewer(s, cs);
    }
  }

  /** For an honest poll every acknowledged drop cuts, also one followed by a restore in its batch. */
  lemma HonestDropsCut(s: Sched, cs: seq<Command>, es: seq<Envelope>, k: Key)
    requires Shape(s) && OwnersBounded(s) && Poll(s, cs, es).Some? && Honest(s, cs, es)
    ensures DropIncarnation(k.owner) in cs ==> OwnerGone(Poll(s, cs, es).value, k.owner)
    ensures DropFlow(k.owner, k.id) in cs ==> k !in Poll(s, cs, es).value.flows && k !in Poll(s, cs, es).value.active
  {
    if DropIncarnation(k.owner) in cs {
      forall e | e in es ensures !Slips(s, cs, e, Key(k.owner, e.id)) {
        NothingSlips(s, cs, es, DropIncarnation(k.owner), Key(k.owner, e.id), e);
      }
      DropIncarnationCut(s, cs, es, k.owner);
    }
    if DropFlow(k.owner, k.id) in cs {
      DroppedIdsHavePlaces(s, cs, k.owner, k.id);
      forall e | e in es ensures !Slips(s, cs, e, k) {
        NothingSlips(s, cs, es, DropFlow(k.owner, k.id), k, e);
      }
      DropFlowCut(s, cs, es, k);
    }
  }

  lemma Inhabited(ks: seq<Key>)
    requires ks != []
    ensures exists k :: k in ks
  {
    assert ks[0] in ks;
  }

  /** Once an honest restore is acknowledged nothing is queued at all. */
  lemma RestoreCut(s: Sched, cs: seq<Command>, es: seq<Envelope>)
    requires Shape(s) && OwnersBounded(s) && Poll(s, cs, es).Some? && Honest(s, cs, es) && !RestoreFree(cs)
    ensures Poll(s, cs, es).value.flows == map[] && Poll(s, cs, es).value.active == []
    ensures Poll(s, cs, es).value.generation == GenerationOf(s, cs) > s.generation
  {
    var t, u := ApplyAll(s, cs).value, Poll(s, cs, es).value;
    PollKeepsShape(s, cs, es);
    GenerationAfter(s, cs);
    RestoreIsNewer(s, cs);
    forall k ensures k !in u.flows {
      TombstonesAfter(s, cs, k);
      OfferedKeys(t, es, k);
    }
    OfferedKeys(t, es, Key(0, 0));
    if u.active != [] {
      Inhabited(u.active);
    }
  }

  // ---- the cuts in every run ----

  /** Every acknowledgement empties the set of owners being retired. */
  lemma PollRetiresEveryOwner(s: Sched, cs: seq<Command>, es: seq<Envelope>)
    requires Poll(s, cs, es).Some? && s.retiring == {}
    ensures Poll(s, cs, es).value.retiring == {}
  {
    forall o ensures o !in Poll(s, cs, es).value.retiring {
      OfferedKeys(ApplyAll(s, cs).value, es, Key(o, 0));
      TombstonesAfter(s, cs, Key(o, 0));
      if OwnerShielded(cs, o) {
        assert DropIncarnation(o) in cs;
      }
    }
  }

  lemma {:induction false} NoOwnerRetiringBetweenEvents(evs: seq<Event>)
    requires Run(Init, evs).Some?
    ensures Run(Init, evs).value.retiring == {}
  {
    if evs != [] {
      NoOwnerRetiringBetweenEvents(evs[..|evs| - 1]);
      var s, ev := Run(Init, evs[..|evs| - 1]).value, evs[|evs| - 1];
      if ev.Polled? {
        PollRetiresEveryOwner(s, ev.commands, ev.envelopes);
      }
    }
  }

  /** At any point of any run: an acknowledged owner drop leaves no tombstone of the owner to be kept. */
  lemma DroppedOwnersAreForgotten(evs: seq<Event>, cs: seq<Command>, es: seq<Envelope>, k: Key)
    requires Run(Init, evs).Some? && Poll(Run(Init, evs).value, cs, es).Some? && DropIncarnation(k.owner) in cs
    ensures var u := Poll(Run(Init, evs).value, cs, es).value;
            k.owner !in u.retired && !Tombstoned(u, k)
  {
    var dropped := DropIncarnation(k.owner);
    assert dropped.owner in DroppedOwners(cs);
  }

  /** At any point of any run: once an honest poll is acknowledged, no record its commands drop is left. */
  lemma AcknowledgedDropsCut(evs: seq<Event>, cs: seq<Command>, es: seq<Envelope>, k: Key)
    requires Run(Init, evs).Some? && Honest(Run(Init, evs).value, cs, es) && Poll(Run(Init, evs).value, cs, es).Some?
    ensures var u := Poll(Run(Init, evs).value, cs, es).value;
            && (DropIncarnation(k.owner) in cs ==> OwnerGone(u, k.owner))
            && (DropFlow(k.owner, k.id) in cs ==> k !in u.flows && k !in u.active)
            && (!RestoreFree(cs) ==> u.flows == map[] && u.active == [])
  {
    var s := Run(Init, evs).value;
    RunKeepsShape(evs);
    HonestDropsCut(s, cs, es, k);
    if !RestoreFree(cs) {
      RestoreCut(s, cs, es);
    }
  }

  // ---- how long a tombstone blocks ----

  /** An event that ends the tombstone of `k`: its owner is retired, or everything is restored. */
  predicate Lifts(ev: Event, k: Key)
  {
    && ev.Polled?
    && exists i :: 0 <= i < |ev.commands| && (ev.commands[i].Restore? || ev.commands[i] == DropIncarnation(k.owner))
  }

  predicate Blocked(s: Sched, k: Key)
  {
    k !in s.flows && IsRetired(s.retired, k.owner, k.id)
  }

  predicate Mentions(x: Entry, k: Key)
  {
    (x.Wrote? || x.Accepted? || x.Opened?) && x.key == k
  }

  /** `t` extends the history of `s` without a record of `k`. */
  ghost predicate SilentFor(s: Sched, t: Sched, k: Key)
  {
    |s.log| <= |t.log| && t.log[..|s.log|] == s.log && forall i :: |s.log| <= i < |t.log| ==> !Mentions(t.log[i], k)
  }

  lemma SilentTrans(a: Sched, b: Sched, c: Sched, k: Key)
    requires SilentFor(a, b, k) && SilentFor(b, c, k)
    ensures SilentFor(a, c, k)
  {
    assert c.log[..|a.log|] == c.log[..|b.log|][..|a.log|];
    forall i | |a.log| <= i < |c.log| ensures !Mentions(c.log[i], k) {
      if i < |b.log| {
        assert c.log[i] == c.log[..|b.log|][i];
      }
    }
  }

  lemma {:induction false} CommandsSilent(s: Sched, cs: seq<Command>, k: Key)
    requires ApplyAll(s, cs).Some? && Blocked(s, k)
    requires forall i :: 0 <= i < |cs| ==> !cs[i].Restore?
    ensures Blocked(ApplyAll(s, cs).value, k) && SilentFor(s, ApplyAll(s, cs).value, k)
  {
    if cs != [] {
      var front, c := cs[..|cs| - 1], cs[|cs| - 1];
      CommandsSilent(s, front, k);
      var t := ApplyAll(s, front).value;
      if c.DropFlow? {
        RetireAddsOneId(t.retired, c.owner, c.id, k.owner, k.id);
      }
      SilentTrans(s, t, Apply(t, c).value, k);
    }
  }

  lemma OfferSilent(s: Sched, e: Envelope, k: Key)
    requires Offer(s, e).Some? && Blocked(s, k)
    ensures Blocked(Offer(s, e).value, k) && SilentFor(s, Offer(s, e).value, k)
  {
  }

  lemma {:induction false} OffersSilent(s: Sched, es: seq<Envelope>, k: Key)
    requires OfferAll(s, es).Some? && Blocked(s, k)
    ensures Blocked(OfferAll(s, es).value, k) && SilentFor(s, OfferAll(s, es).value, k)
  {
    if es != [] {
      var t := OfferAll(s, es[..|es| - 1]);
      OffersSilent(s, es[..|es| - 1], k);
      OfferSilent(t.value, es[|es| - 1], k);
      SilentTrans(s, t.value, OfferAll(s, es).value, k);
    }
  }

  lemma PollSilent(s: Sched, cs: seq<Command>, es: seq<Envelope>, k: Key)
    requires Poll(s, cs, es).Some? && Blocked(s, k) && !Lifts(Polled(cs, es), k)
    ensures Blocked(Poll(s, cs, es).value, k) && SilentFor(s, Poll(s, cs, es).value, k)
  {
    assert forall i :: 0 <= i < |cs| ==> !(cs[i].Restore? || cs[i] == DropIncarnation(k.owner));
    CommandsSilent(s, cs, k);
    var t := ApplyAll(s, cs).value;
    OffersSilent(t, es, k);
    SilentTrans(s, t, OfferAll(t, es).value, k);
    assert k.owner !in DroppedOwners(cs);
  }

  lemma SilentOne(s: Sched, t: Sched, x: Entry, k: Key)
    requires t.log == s.log + [x] && !Mentions(x, k)
    ensures SilentFor(s, t, k)
  {
  }

  lemma SendSilent(s: Sched, k: Key)
    requires Shape(s) && CanSend(s) && SendHead(s).Some? && Blocked(s, k)
    ensures Blocked(SendHead(s).value, k) && SilentFor(s, SendHead(s).value, k)
  {
    var v := s.visiting.value;
    var e := s.flows[v].queue[0];
    assert FlowOk(v, s.flows[v], s.generation);
    SilentOne(s, SendHead(s).value, Wrote(Key(e.incarnation.value, e.id), e), k);
  }

  lemma VisitSilent(s: Sched, k: Key)
    requires s.active != [] && Blocked(s, k)
    ensures Blocked(StartVisit(s), k) && SilentFor(s, StartVisit(s), k)
  {
    SilentOne(s, StartVisit(s), Visited(s.active[0], s.quantum), k);
  }

  lemma LeaveSilent(s: Sched, k: Key)
    requires s.visiting.Some? && Blocked(s, k)
    ensures Blocked(EndVisit(s), k) && SilentFor(s, EndVisit(s), k)
  {
    SilentOne(s, EndVisit(s), Left(s.visiting.value), k);
  }

  lemma NextSilent(s: Sched, ev: Event, k: Key)
    requires Shape(s) && Next(s, ev).Some? && Blocked(s, k) && !Lifts(ev, k)
    ensures Blocked(Next(s, ev).value, k) && SilentFor(s, Next(s, ev).value, k)
  {
    match ev
    case Polled(cs, es) => PollSilent(s, cs, es, k);
    case BeginRound => assert Next(s, ev).value.log == s.log;
    case BeginVisit => VisitSilent(s, k);
    case Send => SendSilent(s, k);
    case Leave => LeaveSilent(s, k);
  }

  /** For every continuation: a dropped correlation stays silent until its owner is retired or a restore. */
  lemma {:induction false} TombstoneBlocks(s: Sched, evs: seq<Event>, k: Key)
    requires Shape(s) && OwnersBounded(s) && Run(s, evs).Some? && Blocked(s, k)
    requires forall i :: 0 <= i < |evs| ==> !Lifts(evs[i], k)
    ensures Shape(Run(s, evs).value) && OwnersBounded(Run(s, evs).value)
    ensures Blocked(Run(s, evs).value, k) && SilentFor(s, Run(s, evs).value, k)
  {
    if evs != [] {
      TombstoneBlocks(s, evs[..|evs| - 1], k);
      var t := Run(s, evs[..|evs| - 1]).value;
      NextKeepsShape(t, evs[|evs| - 1]);
      NextSilent(t, evs[|evs| - 1], k);
      SilentTrans(s, t, Run(s, evs).value, k);
    }
  }
}
