/**
 What the lane does with the records it reads, from the events alone: every frame is the record
 that was read at its place, owners are the leases of the clients, and the outcome of a read turn
 follows from what was read, who owns the ranges and how much budget and credit there is.
 */
module AdmissionIntake {
  import opened Prelude
  import opened RelaySlots
  import opened AdmissionModel
  import opened AdmissionOrder

  // ---- what was read, and who owned what ----

  /** Every record of every read turn, in order. */
  function RawsOf(evs: seq<Event>): seq<Raw>
  {
    if evs == [] then []
    else
      var rest, ev := RawsOf(evs[..|evs| - 1]), evs[|evs| - 1];
      if ev.ReadTurn? then rest + ev.raws else rest
  }

  /** The leases after the clients' comings and goings, until a restore ends them all. */
  function LeasesOf(evs: seq<Event>): map<nat, Incarnation>
  {
    if evs == [] then map[]
    else
      var owners := LeasesOf(evs[..|evs| - 1]);
      match evs[|evs| - 1]
      case Connected(start, end, incarnation) =>
        if Lease(owners, start, end, incarnation).Some? then Lease(owners, start, end, incarnation).value else owners
      case Disconnected(start, end, claimed) =>
        if Unlease(owners, start, end, claimed).Some? then Unlease(owners, start, end, claimed).value else owners
      case Restored => map[]
      case _ => owners
  }

  /** The frame is the record read at its place. */
  predicate IsRead(raws: seq<Raw>, f: Frame)
  {
    f.index < |raws| && raws[f.index] == Raw(f.id, f.incarnation, f.length)
  }

  /** Everything decoded, wherever it is now, is what was read. */
  ghost predicate Faithful(s: Lane, raws: seq<Raw>)
  {
    && s.decoded == |raws|
    && (forall i :: 0 <= i < |s.pending| ==> IsRead(raws, s.pending[i]))
    && (forall i :: 0 <= i < |s.live| ==> IsRead(raws, s.live[i]))
    && (forall i :: 0 <= i < |s.log| ==> IsRead(raws, s.log[i].frame))
  }

  /** Everything logged from place `from` on names the owner of its range under these leases. */
  ghost predicate JudgedBy(s: Lane, from: nat, owners: map<nat, Incarnation>)
  {
    from <= |s.log| && forall i :: from <= i < |s.log| ==> s.log[i].owner == Owner(owners, s.log[i].frame.id)
  }

  lemma ReadGrows(raws: seq<Raw>, more: seq<Raw>, f: Frame)
    requires IsRead(raws, f)
    ensures IsRead(raws + more, f)
  {
  }

  lemma FaithfulGrows(s: Lane, raws: seq<Raw>, more: seq<Raw>)
    requires Faithful(s, raws)
    ensures Faithful(s.(decoded := s.decoded + |more|), raws + more)
  {
  }

  lemma {:induction false} RetainFaithful(s: Lane, waiting: seq<Frame>, raws: seq<Raw>)
    requires Faithful(s, raws) && forall i :: 0 <= i < |waiting| ==> IsRead(raws, waiting[i])
    ensures Faithful(Retain(s, waiting), raws) && Retain(s, waiting).owners == s.owners
    ensures JudgedBy(Retain(s, waiting), |s.log|, s.owners)
    decreases |waiting|
  {
    if waiting != [] {
      RetainFaithful(s, waiting[..|waiting| - 1], raws);
    }
  }

  lemma RetainedFaithful(s: Lane, raws: seq<Raw>)
    requires Faithful(s, raws)
    ensures Faithful(Retained(s), raws) && Retained(s).owners == s.owners
    ensures JudgedBy(Retained(s), |s.log|, s.owners)
  {
    RetainFaithful(s.(pending := []), s.pending, raws);
  }

  lemma DecodeFaithful(t: Turn, r: Raw, raws: seq<Raw>)
    requires Faithful(t.lane, raws) && Decode(t, r).Some?
    ensures var u := Decode(t, r).value.lane;
            && Faithful(u, raws + [r]) && u.owners == t.lane.owners && JudgedBy(u, |t.lane.log|, t.lane.owners)
  {
    FaithfulGrows(t.lane, raws, [r]);
    assert IsRead(raws + [r], Frame(t.lane.decoded, r.id, r.incarnation, r.length));
  }

  lemma {:induction false} DecodeAllFaithful(t: Turn, rs: seq<Raw>, raws: seq<Raw>)
    requires Faithful(t.lane, raws) && DecodeAll(t, rs).Some?
    ensures var u := DecodeAll(t, rs).value.lane;
            && Faithful(u, raws + rs) && u.owners == t.lane.owners && JudgedBy(u, |t.lane.log|, t.lane.owners)
    decreases |rs|
  {
    if rs == [] {
      assert raws + rs == raws;
    } else {
      var front, r := rs[..|rs| - 1], rs[|rs| - 1];
      DecodeAllFaithful(t, front, raws);
      var v := DecodeAll(t, front).value;
      DecodeFaithful(v, r, raws + front);
      assert raws + front + [r] == raws + rs;
      JudgedTogether(t.lane, v.lane, Decode(v, r).value.lane, t.lane.owners);
    }
  }

  /** Logs only grow; judgements of two steps under the same leases join. */
  lemma JudgedTogether(s: Lane, t: Lane, u: Lane, owners: map<nat, Incarnation>)
    requires JudgedBy(t, |s.log|, owners) && JudgedBy(u, |t.log|, owners) && t.log <= u.log
    ensures JudgedBy(u, |s.log|, owners)
  {
  }

  lemma DisposeFaithful(s: Lane, i: nat, raws: seq<Raw>)
    requires Faithful(s, raws) && i < |s.live|
    ensures Faithful(Dispose(s, i), raws)
  {
  }

  lemma GrantFaithful(s: Lane, raws: seq<Raw>)
    requires Faithful(s, raws) && s.pending != [] && s.pending[0].length <= s.available && Grant(s).Some?
    ensures Faithful(Grant(s).value, raws) && Grant(s).value.owners == s.owners
    ensures JudgedBy(Grant(s).value, |s.log|, s.owners)
  {
  }

  /** `t` continues `s`: what it logged in between was judged by the leases of `s`. */
  ghost predicate Continues(s: Lane, t: Lane)
  {
    s.log <= t.log && JudgedBy(t, |s.log|, s.owners)
  }

  lemma {:induction false} DecodeAllContinues(t: Turn, rs: seq<Raw>)
    requires DecodeAll(t, rs).Some?
    ensures t.lane.log <= DecodeAll(t, rs).value.lane.log
    decreases |rs|
  {
    if rs != [] {
      DecodeAllContinues(t, rs[..|rs| - 1]);
    }
  }

  lemma {:induction false} RetainContinues(s: Lane, waiting: seq<Frame>)
    ensures s.log <= Retain(s, waiting).log
    decreases |waiting|
  {
    if waiting != [] {
      RetainContinues(s, waiting[..|waiting| - 1]);
    }
  }

  lemma ReadFaithful(s: Lane, raws: seq<Raw>, rs: seq<Raw>)
    requires Faithful(s, raws) && Next(s, ReadTurn(rs)).Some?
    ensures var t := Next(s, ReadTurn(rs)).value;
            Faithful(t, raws + rs) && t.owners == s.owners && Continues(s, t)
  {
    RetainedFaithful(s, raws);
    RetainContinues(s.(pending := []), s.pending);
    DecodeAllFaithful(Turn(Retained(s), false), rs, raws);
    DecodeAllContinues(Turn(Retained(s), false), rs);
    JudgedTogether(s, Retained(s), Next(s, ReadTurn(rs)).value, s.owners);
  }

  lemma GrantedFaithful(s: Lane, raws: seq<Raw>)
    requires Faithful(s, raws) && Next(s, Granted).Some?
    ensures var t := Next(s, Granted).value; Faithful(t, raws) && t.owners == s.owners && Continues(s, t)
  {
    RetainedFaithful(s, raws);
    RetainContinues(s.(pending := []), s.pending);
    GrantFaithful(Retained(s), raws);
    JudgedTogether(s, Retained(s), Next(s, Granted).value, s.owners);
  }

  lemma NextFaithful(s: Lane, ev: Event, raws: seq<Raw>)
    requires Faithful(s, raws) && Next(s, ev).Some?
    ensures var t := Next(s, ev).value;
            Faithful(t, if ev.ReadTurn? then raws + ev.raws else raws) && Continues(s, t)
  {
    match ev
    case ReadTurn(rs) => ReadFaithful(s, raws, rs);
    case Granted => GrantedFaithful(s, raws);
    case Disposed(i) => DisposeFaithful(s, i, raws);
    case _ =>
      RetainedFaithful(s, raws);
      RetainContinues(s.(pending := []), s.pending);
  }

  lemma NextOwners(s: Lane, ev: Event)
    requires Next(s, ev).Some?
    ensures ev.Connected? ==> Lease(s.owners, ev.start, ev.end, ev.incarnation).Some?
    ensures ev.Disconnected? ==> Unlease(s.owners, ev.start, ev.end, ev.claimed).Some?
    ensures Next(s, ev).value.owners ==
            match ev
            case Connected(start, end, incarnation) => Lease(s.owners, start, end, incarnation).value
            case Disconnected(start, end, claimed) => Unlease(s.owners, start, end, claimed).value
            case Restored => map[]
            case _ => s.owners
  {
    RetainOwners(s.(pending := []), s.pending);
    if ev.ReadTurn? {
      DecodeOwners(Turn(Retained(s), false), ev.raws);
    }
  }

  lemma {:induction false} RetainOwners(s: Lane, waiting: seq<Frame>)
    ensures Retain(s, waiting).owners == s.owners
    decreases |waiting|
  {
    if waiting != [] {
      RetainOwners(s, waiting[..|waiting| - 1]);
    }
  }

  lemma {:induction false} DecodeOwners(t: Turn, rs: seq<Raw>)
    requires DecodeAll(t, rs).Some?
    ensures DecodeAll(t, rs).value.lane.owners == t.lane.owners
    decreases |rs|
  {
    if rs != [] {
      DecodeOwners(t, rs[..|rs| - 1]);
    }
  }

  /** In every run each frame is the record read at its place, and the owners are the clients' leases. */
  lemma {:induction false} FramesAreWhatWasRead(credit: Counter, evs: seq<Event>)
    requires Run(Init(credit), evs).Some?
    ensures Faithful(Run(Init(credit), evs).value, RawsOf(evs)) && Run(Init(credit), evs).value.owners == LeasesOf(evs)
  {
    if evs != [] {
      var front, ev := evs[..|evs| - 1], evs[|evs| - 1];
      FramesAreWhatWasRead(credit, front);
      var s := Run(Init(credit), front).value;
      NextFaithful(s, ev, RawsOf(front));
      NextOwners(s, ev);
    }
  }

  /**
   In every run a record that is decided by an event, however long after it was read, is delivered
   iff the client it names owned its range then, and is dropped otherwise.
   */
  lemma FatesFollowTheLeases(credit: Counter, evs: seq<Event>, ev: Event, i: nat)
    requires Run(Init(credit), evs + [ev]).Some?
    ensures Run(Init(credit), evs).Some?
    ensures Run(Init(credit), evs).value.log <= Run(Init(credit), evs + [ev]).value.log
    ensures var log := Run(Init(credit), evs + [ev]).value.log;
            |Run(Init(credit), evs).value.log| <= i < |log| ==>
              && log[i].frame.index < |RawsOf(evs + [ev])|
              && var r := RawsOf(evs + [ev])[log[i].frame.index];
              log[i].Delivered? <==> Owner(LeasesOf(evs), r.id) == Some(r.incarnation)
  {
    assert (evs + [ev])[..|evs|] == evs;
    FramesAreWhatWasRead(credit, evs);
    FramesAreWhatWasRead(credit, evs + [ev]);
    NextFaithful(Run(Init(credit), evs).value, ev, RawsOf(evs));
    var log := Run(Init(credit), evs + [ev]).value.log;
    if |Run(Init(credit), evs).value.log| <= i < |log| {
      OnlyOwnersDeliver(credit, evs + [ev]);
      FateAt(log, i);
    }
  }

  lemma {:induction false} FateAt(log: seq<Fate>, i: nat)
    requires FatesOk(log) && i < |log|
    ensures FateOk(log[i])
    decreases |log|
  {
    if i < |log| - 1 {
      FateAt(log[..|log| - 1], i);
    }
  }

  // ---- one read turn ----

  predicate Owns(owners: map<nat, Incarnation>, r: Raw)
  {
    Slot(r.id).Some? && Slot(r.id).value in owners && owners[Slot(r.id).value] == r.incarnation
  }

  /** Payload bytes the owned records among the first `n` ask for. */
  function Demand(owners: map<nat, Incarnation>, raws: seq<Raw>, n: nat): nat
    requires n <= |raws|
  {
    if n == 0 then 0 else Demand(owners, raws, n - 1) + if Owns(owners, raws[n - 1]) then raws[n - 1].length else 0
  }

  /** Wire bytes and number of the first `n` records, of all of them or of those nobody owns. */
  function Charged(raws: seq<Raw>, n: nat): Counter
    requires n <= |raws|
  {
    if n == 0 then Counter(0, 0)
    else
      var c := Charged(raws, n - 1);
      Counter(c.bytes + WIRE_OVERHEAD + raws[n - 1].length, c.frames + 1)
  }

  function Returned(owners: map<nat, Incarnation>, raws: seq<Raw>, n: nat): Counter
    requires n <= |raws|
  {
    if n == 0 then Counter(0, 0)
    else
      var c := Returned(owners, raws, n - 1);
      if Owns(owners, raws[n - 1]) then c else Counter(c.bytes + WIRE_OVERHEAD + raws[n - 1].length, c.frames + 1)
  }

  function Plus(a: Counter, b: Counter): Counter
  {
    Counter(a.bytes + b.bytes, a.frames + b.frames)
  }

  predicate Fits(c: Counter)
  {
    c.bytes <= U64_MAX && c.frames <= U64_MAX
  }

  /** Record `i` of the turn, as a frame. */
  function FrameAt(s: Lane, raws: seq<Raw>, i: nat): Frame
    requires i < |raws|
  {
    Frame(s.decoded + i, raws[i].id, raws[i].incarnation, raws[i].length)
  }

  /** The owned records among the first `n` within the budget, and those beyond it. */
  function Now(s: Lane, raws: seq<Raw>, n: nat): seq<Frame>
    requires n <= |raws|
  {
    if n == 0 then []
    else
      Now(s, raws, n - 1) +
      if Owns(s.owners, raws[n - 1]) && Demand(s.owners, raws, n) <= s.available then [FrameAt(s, raws, n - 1)] else []
  }

  function Later(s: Lane, raws: seq<Raw>, n: nat): seq<Frame>
    requires n <= |raws|
  {
    if n == 0 then []
    else
      Later(s, raws, n - 1) +
      if Owns(s.owners, raws[n - 1]) && Demand(s.owners, raws, n) > s.available then [FrameAt(s, raws, n - 1)] else []
  }

  /** What the turn decides about the first `n`. */
  function Fates(s: Lane, raws: seq<Raw>, n: nat): seq<Fate>
    requires n <= |raws|
  {
    if n == 0 then []
    else
      var f, owner := FrameAt(s, raws, n - 1), Owner(s.owners, raws[n - 1].id);
      Fates(s, raws, n - 1) +
      if !Owns(s.owners, raws[n - 1]) then [Stale(f, owner)]
      else if Demand(s.owners, raws, n) <= s.available then [Delivered(f, owner)]
      else []
  }

  /** The queues after the first `n` records of a turn. */
  ghost predicate TurnQueues(s: Lane, raws: seq<Raw>, n: nat, t: Turn)
    requires n <= |raws|
  {
    && t.lane.owners == s.owners && t.lane.others == s.others && t.lane.decoded == s.decoded + n
    && t.lane.live == s.live + Now(s, raws, n) && t.lane.pending == Later(s, raws, n)
    && t.lane.log == s.log + Fates(s, raws, n)
    && (t.deferred <==> Demand(s.owners, raws, n) > s.available)
    && t.lane.available + Lengths(Now(s, raws, n)) == s.available
    && (!t.deferred ==> t.lane.available == s.available - Demand(s.owners, raws, n))
  }

  /** The credit after them: what was dropped is returned, unless a counter overflowed. */
  predicate TurnLedger(s: Lane, raws: seq<Raw>, n: nat, l: Ledger)
    requires n <= |raws|
  {
    && l.position == Plus(s.ledger.position, Charged(raws, n))
    && (l.exhausted <==> !Fits(Plus(s.ledger.credit, Returned(s.owners, raws, n))))
    && (!l.exhausted ==> l.credit == Plus(s.ledger.credit, Returned(s.owners, raws, n)))
  }

  ghost predicate TurnOf(s: Lane, raws: seq<Raw>, n: nat, t: Turn)
    requires n <= |raws|
  {
    TurnQueues(s, raws, n, t) && TurnLedger(s, raws, n, t.lane.ledger)
  }

  /**
   Record `n` ends the agent: a live client uses a range that is not its own, or the credit, with
   what the dropped records before it returned, does not cover it.
   */
  predicate Fatal(s: Lane, raws: seq<Raw>, n: nat)
  {
    && n < |raws|
    && var credit, position := Plus(s.ledger.credit, Returned(s.owners, raws, n)),
                               Plus(s.ledger.position, Charged(raws, n + 1));
    || (!Owns(s.owners, raws[n]) && raws[n].incarnation in s.owners.Values)
    || !Fits(credit) || !Fits(position) || position.bytes > credit.bytes || position.frames > credit.frames
  }

  lemma OwnsIsCurrent(s: Lane, raws: seq<Raw>, i: nat)
    requires i < |raws|
    ensures Owns(s.owners, raws[i]) <==> Current(s.owners, FrameAt(s, raws, i))
  {
  }

  lemma DecodeFailsIff(s: Lane, raws: seq<Raw>, n: nat, t: Turn)
    requires n < |raws| && TurnOf(s, raws, n, t)
    ensures Decode(t, raws[n]).None? <==> Fatal(s, raws, n)
  {
    OwnsIsCurrent(s, raws, n);
  }

  lemma DecodeLedger(s: Lane, raws: seq<Raw>, n: nat, t: Turn)
    requires n < |raws| && t.lane.owners == s.owners && TurnLedger(s, raws, n, t.lane.ledger)
    requires Decode(t, raws[n]).Some?
    ensures TurnLedger(s, raws, n + 1, Decode(t, raws[n]).value.lane.ledger)
  {
    OwnsIsCurrent(s, raws, n);
  }

  lemma DropQueues(s: Lane, raws: seq<Raw>, n: nat, t: Turn)
    requires n < |raws| && TurnQueues(s, raws, n, t) && Decode(t, raws[n]).Some? && !Owns(s.owners, raws[n])
    ensures TurnQueues(s, raws, n + 1, Decode(t, raws[n]).value)
  {
    OwnsIsCurrent(s, raws, n);
    assert Now(s, raws, n + 1) == Now(s, raws, n) && Later(s, raws, n + 1) == Later(s, raws, n);
  }

  lemma DeferQueues(s: Lane, raws: seq<Raw>, n: nat, t: Turn)
    requires n < |raws| && TurnQueues(s, raws, n, t) && Decode(t, raws[n]).Some?
    requires Owns(s.owners, raws[n]) && Demand(s.owners, raws, n + 1) > s.available
    ensures TurnQueues(s, raws, n + 1, Decode(t, raws[n]).value)
  {
    OwnsIsCurrent(s, raws, n);
    assert Now(s, raws, n + 1) == Now(s, raws, n) && Fates(s, raws, n + 1) == Fates(s, raws, n);
  }

  lemma Delivers(s: Lane, raws: seq<Raw>, n: nat, t: Turn)
    requires n < |raws| && TurnQueues(s, raws, n, t) && Decode(t, raws[n]).Some?
    requires Owns(s.owners, raws[n]) && Demand(s.owners, raws, n + 1) <= s.available
    ensures !t.deferred && raws[n].length <= t.lane.available
    ensures var f, u := FrameAt(s, raws, n), Decode(t, raws[n]).value;
            u == Turn(t.lane.(ledger := u.lane.ledger, decoded := s.decoded + n + 1, live := t.lane.live + [f],
                              available := t.lane.available - f.length,
                              log := t.lane.log + [Delivered(f, Owner(s.owners, raws[n].id))]), false)
  {
    OwnsIsCurrent(s, raws, n);
  }

  lemma DeliverQueues(s: Lane, raws: seq<Raw>, n: nat, t: Turn)
    requires n < |raws| && TurnQueues(s, raws, n, t) && Decode(t, raws[n]).Some?
    requires Owns(s.owners, raws[n]) && Demand(s.owners, raws, n + 1) <= s.available
    ensures TurnQueues(s, raws, n + 1, Decode(t, raws[n]).value)
  {
    Delivers(s, raws, n, t);
    var f := FrameAt(s, raws, n);
    SumsAppend(Now(s, raws, n), f);
    assert Now(s, raws, n + 1) == Now(s, raws, n) + [f] && Later(s, raws, n + 1) == Later(s, raws, n);
    assert Fates(s, raws, n + 1) == Fates(s, raws, n) + [Delivered(f, Owner(s.owners, raws[n].id))];
    assert s.live + (Now(s, raws, n) + [f]) == s.live + Now(s, raws, n) + [f];
  }

  lemma DecodeQueues(s: Lane, raws: seq<Raw>, n: nat, t: Turn)
    requires n < |raws| && TurnQueues(s, raws, n, t) && Decode(t, raws[n]).Some?
    ensures TurnQueues(s, raws, n + 1, Decode(t, raws[n]).value)
  {
    if !Owns(s.owners, raws[n]) {
      DropQueues(s, raws, n, t);
    } else if Demand(s.owners, raws, n + 1) > s.available {
      DeferQueues(s, raws, n, t);
    } else {
      DeliverQueues(s, raws, n, t);
    }
  }

  lemma DecodeTurn(s: Lane, raws: seq<Raw>, n: nat, t: Turn)
    requires n < |raws| && TurnOf(s, raws, n, t) && Decode(t, raws[n]).Some?
    ensures TurnOf(s, raws, n + 1, Decode(t, raws[n]).value)
  {
    DecodeLedger(s, raws, n, t);
    DecodeQueues(s, raws, n, t);
  }

  lemma {:induction false} TurnUpTo(s: Lane, raws: seq<Raw>, n: nat)
    requires n <= |raws| && s.pending == [] && !s.ledger.exhausted && Fits(s.ledger.credit)
    ensures DecodeAll(Turn(s, false), raws[..n]).None? <==> exists m: nat :: m < n && Fatal(s, raws, m)
    ensures DecodeAll(Turn(s, false), raws[..n]).Some? ==>
            TurnOf(s, raws, n, DecodeAll(Turn(s, false), raws[..n]).value)
    decreases n
  {
    if n > 0 {
      TurnUpTo(s, raws, n - 1);
      assert raws[..n][..n - 1] == raws[..n - 1] && raws[..n][n - 1] == raws[n - 1];
      var before := DecodeAll(Turn(s, false), raws[..n - 1]);
      if before.Some? {
        DecodeFailsIff(s, raws, n - 1, before.value);
        if Decode(before.value, raws[n - 1]).Some? {
          DecodeTurn(s, raws, n - 1, before.value);
        }
      }
    }
  }

  /**
   A read turn, exactly: it ends the agent iff some record of it is fatal; otherwise what nobody
   owns is dropped and its credit returned, the owned records are delivered as long as together
   they fit the free budget, and the rest waits, in order.
   */
  lemma ReadTurnIsExact(s: Lane, raws: seq<Raw>)
    requires s.pending == [] && !s.ledger.exhausted && Fits(s.ledger.credit)
    ensures Next(s, ReadTurn(raws)).None? <==> exists n :: Fatal(s, raws, n)
    ensures Next(s, ReadTurn(raws)).Some? ==>
            exists deferred :: TurnOf(s, raws, |raws|, Turn(Next(s, ReadTurn(raws)).value, deferred))
  {
    TurnUpTo(s, raws, |raws|);
    assert raws[..|raws|] == raws;
    assert s.(pending := []) == s && Retained(s) == s;
    var t := DecodeAll(Turn(s, false), raws);
    if t.Some? {
      assert t.value == Turn(Next(s, ReadTurn(raws)).value, t.value.deferred);
    }
  }

  /** A lane that stopped after an overflow reads nothing more. */
  lemma {:induction false} StoppedLaneReadsNothing(s: Lane, raws: seq<Raw>)
    requires s.ledger.exhausted && raws != []
    ensures DecodeAll(Turn(s, false), raws).None?
    decreases |raws|
  {
    if |raws| > 1 {
      StoppedLaneReadsNothing(s, raws[..|raws| - 1]);
    } else {
      assert raws[..0] == [];
    }
  }
}
