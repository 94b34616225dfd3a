/**
 What admission guarantees over every run: one fate per decoded record, delivery in decoding
 order to the current owner only, and conservation of the byte budget and of transport credit.
 */
module AdmissionOrder {
  import opened Prelude
  import opened RelaySlots
  import opened AdmissionModel
  import opened TransferModel

  // ---- one fate for every decoded record ----

  function Tally(log: seq<Fate>, i: nat): nat
  {
    if log == [] then 0 else Tally(log[..|log| - 1], i) + if log[|log| - 1].frame.index == i then 1 else 0
  }

  function Count(fs: seq<Frame>, i: nat): nat
  {
    if fs == [] then 0 else Count(fs[..|fs| - 1], i) + if fs[|fs| - 1].index == i then 1 else 0
  }

  /** Record `i` was delivered, dropped as stale, or is deferred: exactly one of these, exactly once. */
  predicate OneFate(s: Lane, i: nat)
  {
    Tally(s.log, i) + Count(s.pending, i) == if i < s.decoded then 1 else 0
  }

  lemma TallyAppend(log: seq<Fate>, x: Fate, i: nat)
    ensures Tally(log + [x], i) == Tally(log, i) + if x.frame.index == i then 1 else 0
  {
    assert (log + [x])[..|log|] == log;
  }

  lemma CountAppend(fs: seq<Frame>, f: Frame, i: nat)
    ensures Count(fs + [f], i) == Count(fs, i) + if f.index == i then 1 else 0
  {
    assert (fs + [f])[..|fs|] == fs;
  }

  lemma {:induction false} CountHead(fs: seq<Frame>, i: nat)
    requires fs != []
    ensures Count(fs, i) == (if fs[0].index == i then 1 else 0) + Count(fs[1..], i)
  {
    if |fs| > 1 {
      CountHead(fs[..|fs| - 1], i);
      assert fs[..|fs| - 1][1..] == fs[1..][..|fs| - 2];
    }
  }

  lemma {:induction false} RetainKeepsFate(s: Lane, waiting: seq<Frame>, i: nat)
    ensures var t := Retain(s, waiting);
            && t.decoded == s.decoded && t.owners == s.owners
            && Tally(t.log, i) + Count(t.pending, i) == Tally(s.log, i) + Count(s.pending, i) + Count(waiting, i)
    decreases |waiting|
  {
    if waiting != [] {
      var t, f := Retain(s, waiting[..|waiting| - 1]), waiting[|waiting| - 1];
      RetainKeepsFate(s, waiting[..|waiting| - 1], i);
      CountAppend(t.pending, f, i);
      TallyAppend(t.log, Stale(f, Owner(t.owners, f.id)), i);
    }
  }

  lemma RetainedKeepsFate(s: Lane, i: nat)
    ensures Tally(Retained(s).log, i) + Count(Retained(s).pending, i) == Tally(s.log, i) + Count(s.pending, i)
    ensures Retained(s).decoded == s.decoded
  {
    RetainKeepsFate(s.(pending := []), s.pending, i);
  }

  lemma DecodeKeepsFate(t: Turn, r: Raw, i: nat)
    requires OneFate(t.lane, i) && Decode(t, r).Some?
    ensures OneFate(Decode(t, r).value.lane, i)
  {
    var s, f := t.lane, Frame(t.lane.decoded, r.id, r.incarnation, r.length);
    CountAppend(s.pending, f, i);
    TallyAppend(s.log, Stale(f, Owner(s.owners, f.id)), i);
    TallyAppend(s.log, Delivered(f, Owner(s.owners, f.id)), i);
  }

  lemma {:induction false} DecodeAllKeepsFate(t: Turn, rs: seq<Raw>, i: nat)
    requires OneFate(t.lane, i) && DecodeAll(t, rs).Some?
    ensures OneFate(DecodeAll(t, rs).value.lane, i)
  {
    if rs != [] {
      DecodeAllKeepsFate(t, rs[..|rs| - 1], i);
      DecodeKeepsFate(DecodeAll(t, rs[..|rs| - 1]).value, rs[|rs| - 1], i);
    }
  }

  lemma GrantKeepsFate(s: Lane, i: nat)
    requires OneFate(s, i) && s.pending != [] && s.pending[0].length <= s.available && Grant(s).Some?
    ensures OneFate(Grant(s).value, i)
  {
    var f := s.pending[0];
    CountHead(s.pending, i);
    if Current(s.owners, f) {
      TallyAppend(s.log, Delivered(f, Owner(s.owners, f.id)), i);
    } else {
      TallyAppend(s.log, Stale(f, Owner(s.owners, f.id)), i);
    }
  }

  lemma NextKeepsFate(s: Lane, ev: Event, i: nat)
    requires OneFate(s, i) && Next(s, ev).Some?
    ensures OneFate(Next(s, ev).value, i)
  {
    var r := Retained(s);
    RetainedKeepsFate(s, i);
    if ev.ReadTurn? {
      DecodeAllKeepsFate(Turn(r, false), ev.raws, i);
    } else if ev.Granted? {
      GrantKeepsFate(r, i);
    }
  }

  /** In every run every decoded record has exactly one fate. */
  lemma {:induction false} EveryRecordHasOneFate(credit: Counter, evs: seq<Event>, i: nat)
    requires Run(Init(credit), evs).Some?
    ensures OneFate(Run(Init(credit), evs).value, i)
  {
    if evs != [] {
      EveryRecordHasOneFate(credit, evs[..|evs| - 1], i);
      NextKeepsFate(Run(Init(credit), evs[..|evs| - 1]).value, evs[|evs| - 1], i);
    }
  }

  // ---- order ----

  /** Indices rise strictly from at least `lo` to below `hi`. */
  predicate Rising(fs: seq<Frame>, lo: nat, hi: nat)
  {
    if fs == [] then lo <= hi else fs[|fs| - 1].index < hi && Rising(fs[..|fs| - 1], lo, fs[|fs| - 1].index)
  }

  /** One past the last record delivered. */
  function DeliveredUpTo(log: seq<Fate>): nat
  {
    if log == [] then 0
    else if log[|log| - 1].Delivered? then log[|log| - 1].frame.index + 1
    else DeliveredUpTo(log[..|log| - 1])
  }

  /** Every delivery is of a later record than all deliveries before it. */
  predicate InOrder(log: seq<Fate>)
  {
    log == [] || (
      && InOrder(log[..|log| - 1])
      && (log[|log| - 1].Delivered? ==> log[|log| - 1].frame.index >= DeliveredUpTo(log[..|log| - 1])))
  }

  /** Deliveries are in decoding order, and everything deferred comes after them, in order. */
  predicate Ordered(s: Lane)
  {
    InOrder(s.log) && Rising(s.pending, DeliveredUpTo(s.log), s.decoded)
  }

  lemma LogAppend(log: seq<Fate>, x: Fate)
    ensures DeliveredUpTo(log + [x]) == if x.Delivered? then x.frame.index + 1 else DeliveredUpTo(log)
    ensures InOrder(log + [x]) <==> InOrder(log) && (x.Delivered? ==> x.frame.index >= DeliveredUpTo(log))
  {
    assert (log + [x])[..|log|] == log;
  }

  lemma {:induction false} RisingBounds(fs: seq<Frame>, lo: nat, hi: nat, higher: nat)
    requires Rising(fs, lo, hi) && hi <= higher
    ensures lo <= hi && Rising(fs, lo, higher)
  {
    if fs != [] {
      RisingBounds(fs[..|fs| - 1], lo, fs[|fs| - 1].index, fs[|fs| - 1].index);
    }
  }

  lemma RisingAppend(fs: seq<Frame>, lo: nat, f: Frame, hi: nat)
    requires Rising(fs, lo, f.index) && f.index < hi
    ensures Rising(fs + [f], lo, hi)
  {
    assert (fs + [f])[..|fs|] == fs;
  }

  /** Without its first record the rest still rises, also from past that record. */
  lemma {:induction false} RisingTail(fs: seq<Frame>, lo: nat, hi: nat)
    requires fs != [] && Rising(fs, lo, hi)
    ensures lo <= fs[0].index && Rising(fs[1..], lo, hi) && Rising(fs[1..], fs[0].index + 1, hi)
  {
    var front, last := fs[..|fs| - 1], fs[|fs| - 1];
    RisingBounds(front, lo, last.index, last.index);
    if |fs| > 1 {
      RisingTail(front, lo, last.index);
      assert fs[1..][..|fs| - 2] == front[1..];
    }
  }

  lemma {:induction false} RetainKeepsOrder(s: Lane, waiting: seq<Frame>, lo: nat, hi: nat)
    requires s.pending == [] && InOrder(s.log) && Rising(waiting, lo, hi)
    ensures var t := Retain(s, waiting);
            && InOrder(t.log) && DeliveredUpTo(t.log) == DeliveredUpTo(s.log) && t.decoded == s.decoded
            && Rising(t.pending, lo, hi)
    decreases |waiting|
  {
    if waiting != [] {
      var front, f := waiting[..|waiting| - 1], waiting[|waiting| - 1];
      RetainKeepsOrder(s, front, lo, f.index);
      var t := Retain(s, front);
      RisingAppend(t.pending, lo, f, hi);
      RisingBounds(t.pending, lo, f.index, hi);
      LogAppend(t.log, Stale(f, Owner(t.owners, f.id)));
    }
  }

  lemma RetainedKeepsOrder(s: Lane)
    requires Ordered(s)
    ensures Ordered(Retained(s))
  {
    RetainKeepsOrder(s.(pending := []), s.pending, DeliveredUpTo(s.log), s.decoded);
  }

  /** Once a record of the turn is deferred, later ones queue behind it. */
  predicate TurnOrdered(t: Turn)
  {
    Ordered(t.lane) && (!t.deferred ==> t.lane.pending == [])
  }

  lemma DecodeKeepsOrder(t: Turn, r: Raw)
    requires TurnOrdered(t) && Decode(t, r).Some?
    ensures TurnOrdered(Decode(t, r).value)
  {
    var s, f := t.lane, Frame(t.lane.decoded, r.id, r.incarnation, r.length);
    var lo := DeliveredUpTo(s.log);
    if !Current(s.owners, f) {
      LogAppend(s.log, Stale(f, Owner(s.owners, f.id)));
      RisingBounds(s.pending, lo, s.decoded, s.decoded + 1);
    } else if t.deferred || f.length > s.available {
      RisingAppend(s.pending, lo, f, s.decoded + 1);
    } else {
      LogAppend(s.log, Delivered(f, Owner(s.owners, f.id)));
    }
  }

  lemma {:induction false} DecodeAllKeepsOrder(t: Turn, rs: seq<Raw>)
    requires TurnOrdered(t) && DecodeAll(t, rs).Some?
    ensures TurnOrdered(DecodeAll(t, rs).value)
  {
    if rs != [] {
      DecodeAllKeepsOrder(t, rs[..|rs| - 1]);
      DecodeKeepsOrder(DecodeAll(t, rs[..|rs| - 1]).value, rs[|rs| - 1]);
    }
  }

  lemma GrantKeepsOrder(s: Lane)
    requires Ordered(s) && s.pending != [] && s.pending[0].length <= s.available && Grant(s).Some?
    ensures Ordered(Grant(s).value)
  {
    var f, rest := s.pending[0], s.pending[1..];
    RisingTail(s.pending, DeliveredUpTo(s.log), s.decoded);
    if Current(s.owners, f) {
      DeliverKeepsOrder(s.(pending := rest), f);
    } else {
      DropKeepsOrder(s.(pending := rest), f);
    }
  }

  lemma DeliverKeepsOrder(s: Lane, f: Frame)
    requires InOrder(s.log) && DeliveredUpTo(s.log) <= f.index && Rising(s.pending, f.index + 1, s.decoded)
    requires f.length <= s.available
    ensures Ordered(Deliver(s, f))
  {
    LogAppend(s.log, Delivered(f, Owner(s.owners, f.id)));
  }

  lemma DropKeepsOrder(s: Lane, f: Frame)
    requires Ordered(s)
    ensures Ordered(Drop(s, f))
  {
    LogAppend(s.log, Stale(f, Owner(s.owners, f.id)));
  }

  lemma TurnKeepsOrder(r: Lane, raws: seq<Raw>)
    requires Ordered(r) && r.pending == [] && DecodeAll(Turn(r, false), raws).Some?
    ensures Ordered(DecodeAll(Turn(r, false), raws).value.lane)
  {
    DecodeAllKeepsOrder(Turn(r, false), raws);
  }

  /** Leases and charges leave what is decoded, deferred and logged alone. */
  lemma OthersKeepOrder(s: Lane, ev: Event)
    requires Next(s, ev).Some? && !ev.ReadTurn? && !ev.Granted?
    ensures var t, r := Next(s, ev).value, if ev.Disposed? || ev.OtherDisposed? then s else Retained(s);
            t.log == r.log && t.pending == r.pending && t.decoded == r.decoded
  {
  }

  lemma NextKeepsOrder(s: Lane, ev: Event)
    requires Ordered(s) && Next(s, ev).Some?
    ensures Ordered(Next(s, ev).value)
  {
    RetainedKeepsOrder(s);
    if ev.ReadTurn? {
      TurnKeepsOrder(Retained(s), ev.raws);
    } else if ev.Granted? {
      GrantKeepsOrder(Retained(s));
    } else {
      OthersKeepOrder(s, ev);
    }
  }

  lemma {:induction false} RunKeepsOrder(credit: Counter, evs: seq<Event>)
    requires Run(Init(credit), evs).Some?
    ensures Ordered(Run(Init(credit), evs).value)
  {
    if evs != [] {
      RunKeepsOrder(credit, evs[..|evs| - 1]);
      NextKeepsOrder(Run(Init(credit), evs[..|evs| - 1]).value, evs[|evs| - 1]);
    }
  }

  lemma {:induction false} DeliveredBelow(log: seq<Fate>, i: nat)
    requires InOrder(log) && i < |log| && log[i].Delivered?
    ensures log[i].frame.index < DeliveredUpTo(log)
  {
    if i < |log| - 1 {
      DeliveredBelow(log[..|log| - 1], i);
    }
  }

  lemma {:induction false} RisingFrom(fs: seq<Frame>, lo: nat, hi: nat, i: nat)
    requires Rising(fs, lo, hi) && i < |fs|
    ensures lo <= fs[i].index < hi
  {
    RisingBounds(fs[..|fs| - 1], lo, fs[|fs| - 1].index, fs[|fs| - 1].index);
    if i < |fs| - 1 {
      RisingFrom(fs[..|fs| - 1], lo, fs[|fs| - 1].index, i);
    }
  }

  lemma {:induction false} EarlierDelivery(log: seq<Fate>, i: nat, j: nat)
    requires InOrder(log) && i < j < |log| && log[i].Delivered? && log[j].Delivered?
    ensures log[i].frame.index < log[j].frame.index
  {
    if j == |log| - 1 {
      DeliveredBelow(log[..|log| - 1], i);
    } else {
      EarlierDelivery(log[..|log| - 1], i, j);
    }
  }

  /** In every run records reach destinations in decoding order, and everything deferred was decoded after them. */
  lemma DeliveryIsInOrder(credit: Counter, evs: seq<Event>, i: nat)
    requires Run(Init(credit), evs).Some?
    requires i < |Run(Init(credit), evs).value.log| && Run(Init(credit), evs).value.log[i].Delivered?
    ensures var s := Run(Init(credit), evs).value;
            && (forall j :: i < j < |s.log| && s.log[j].Delivered? ==> s.log[i].frame.index < s.log[j].frame.index)
            && (forall p :: 0 <= p < |s.pending| ==> s.log[i].frame.index < s.pending[p].index < s.decoded)
  {
    var s := Run(Init(credit), evs).value;
    RunKeepsOrder(credit, evs);
    DeliveredBelow(s.log, i);
    forall j | i < j < |s.log| && s.log[j].Delivered? ensures s.log[i].frame.index < s.log[j].frame.index {
      EarlierDelivery(s.log, i, j);
    }
    forall p | 0 <= p < |s.pending| ensures s.log[i].frame.index < s.pending[p].index < s.decoded {
      RisingFrom(s.pending, DeliveredUpTo(s.log), s.decoded, p);
    }
  }

  // ---- ownership ----

  /** A record was delivered while its incarnation owned its slot, and dropped while it did not. */
  predicate FateOk(x: Fate)
  {
    x.Delivered? <==> x.owner == Some(x.frame.incarnation)
  }

  predicate FatesOk(log: seq<Fate>)
  {
    log == [] || (FateOk(log[|log| - 1]) && FatesOk(log[..|log| - 1]))
  }

  lemma FatesAppend(log: seq<Fate>, x: Fate)
    requires FatesOk(log) && FateOk(x)
    ensures FatesOk(log + [x])
  {
    assert (log + [x])[..|log|] == log;
  }

  lemma {:induction false} RetainKeepsFates(s: Lane, waiting: seq<Frame>)
    requires FatesOk(s.log)
    ensures FatesOk(Retain(s, waiting).log)
    decreases |waiting|
  {
    if waiting != [] {
      var t, f := Retain(s, waiting[..|waiting| - 1]), waiting[|waiting| - 1];
      RetainKeepsFates(s, waiting[..|waiting| - 1]);
      if !Current(t.owners, f) {
        FatesAppend(t.log, Stale(f, Owner(t.owners, f.id)));
      }
    }
  }

  lemma {:induction false} DecodeAllKeepsFates(t: Turn, rs: seq<Raw>)
    requires FatesOk(t.lane.log) && DecodeAll(t, rs).Some?
    ensures FatesOk(DecodeAll(t, rs).value.lane.log)
  {
    if rs != [] {
      DecodeAllKeepsFates(t, rs[..|rs| - 1]);
      var s, r := DecodeAll(t, rs[..|rs| - 1]).value.lane, rs[|rs| - 1];
      var f := Frame(s.decoded, r.id, r.incarnation, r.length);
      if Current(s.owners, f) {
        FatesAppend(s.log, Delivered(f, Owner(s.owners, f.id)));
      } else {
        FatesAppend(s.log, Stale(f, Owner(s.owners, f.id)));
      }
    }
  }

  lemma {:induction false} RetainLeavesCurrent(s: Lane, waiting: seq<Frame>)
    requires s.pending == []
    ensures Retain(s, waiting).owners == s.owners
    ensures forall i :: 0 <= i < |Retain(s, waiting).pending| ==> Current(s.owners, Retain(s, waiting).pending[i])
    decreases |waiting|
  {
    if waiting != [] {
      RetainLeavesCurrent(s, waiting[..|waiting| - 1]);
    }
  }

  /** A granted permit always delivers: the retain at the loop top leaves no stale or spoofed record behind. */
  lemma GrantAlwaysDelivers(s: Lane)
    requires Retained(s).pending != [] && Retained(s).pending[0].length <= Retained(s).available
    ensures var r := Retained(s); Grant(r) == Some(Deliver(r.(pending := r.pending[1..]), r.pending[0]))
  {
    RetainLeavesCurrent(s.(pending := []), s.pending);
  }

  /** In every run only the current owner's records are delivered, and only others' are dropped. */
  lemma {:induction false} OnlyOwnersDeliver(credit: Counter, evs: seq<Event>)
    requires Run(Init(credit), evs).Some?
    ensures FatesOk(Run(Init(credit), evs).value.log)
  {
    if evs != [] {
      var s, ev := Run(Init(credit), evs[..|evs| - 1]).value, evs[|evs| - 1];
      OnlyOwnersDeliver(credit, evs[..|evs| - 1]);
      RetainKeepsFates(s.(pending := []), s.pending);
      var r := Retained(s);
      if ev.ReadTurn? {
        DecodeAllKeepsFates(Turn(r, false), ev.raws);
      } else if ev.Granted? {
        var f := r.pending[0];
        if Current(r.owners, f) {
          FatesAppend(r.log, Delivered(f, Owner(r.owners, f.id)));
        } else {
          FatesAppend(r.log, Stale(f, Owner(r.owners, f.id)));
        }
      }
    }
  }

  // ---- conservation ----

  function Lengths(fs: seq<Frame>): nat
  {
    if fs == [] then 0 else Lengths(fs[..|fs| - 1]) + fs[|fs| - 1].length
  }

  function Wires(fs: seq<Frame>): nat
  {
    if fs == [] then 0 else Wires(fs[..|fs| - 1]) + Wire(fs[|fs| - 1])
  }

  lemma SumsAppend(fs: seq<Frame>, f: Frame)
    ensures Lengths(fs + [f]) == Lengths(fs) + f.length && Wires(fs + [f]) == Wires(fs) + Wire(f)
  {
    assert (fs + [f])[..|fs|] == fs;
  }

  lemma {:induction false} SumsOmit(fs: seq<Frame>, f: Frame, gs: seq<Frame>)
    ensures Lengths(fs + [f] + gs) == Lengths(fs + gs) + f.length
    ensures Wires(fs + [f] + gs) == Wires(fs + gs) + Wire(f)
    decreases |gs|
  {
    if gs == [] {
      assert fs + [f] + gs == fs + [f] && fs + gs == fs;
      SumsAppend(fs, f);
    } else {
      var front, last := gs[..|gs| - 1], gs[|gs| - 1];
      SumsOmit(fs, f, front);
      assert fs + [f] + gs == fs + [f] + front + [last] && fs + gs == fs + front + [last];
      SumsAppend(fs + [f] + front, last);
      SumsAppend(fs + front, last);
    }
  }

  /** Wire bytes of everything the agent still holds on the data lane. */
  function HeldBytes(s: Lane): nat
  {
    Wires(s.live) + Wires(s.pending) + Sum(s.others)
  }

  function HeldFrames(s: Lane): nat
  {
    |s.live| + |s.pending| + |s.others|
  }

  /**
   The budget is split between what is free and what live records hold; the credit granted is
   the initial grant plus everything no longer held, so the host is never ahead of it.
   */
  predicate Conserved(s: Lane, grant: Counter)
  {
    ConservedWith(s, grant, [])
  }

  /** The same while the records in `extra` are charged but in neither queue. */
  predicate ConservedWith(s: Lane, grant: Counter, extra: seq<Frame>)
  {
    && s.available + Lengths(s.live) == BUDGET
    && s.ledger.position.bytes <= s.ledger.credit.bytes && s.ledger.position.frames <= s.ledger.credit.frames
    && (!s.ledger.exhausted ==>
          && s.ledger.credit.bytes + HeldBytes(s) + Wires(extra) == grant.bytes + s.ledger.position.bytes
          && s.ledger.credit.frames + HeldFrames(s) + |extra| == grant.frames + s.ledger.position.frames)
  }

  lemma SumsHead(f: Frame, fs: seq<Frame>)
    ensures Lengths([f] + fs) == f.length + Lengths(fs) && Wires([f] + fs) == Wire(f) + Wires(fs)
  {
    SumsOmit([], f, fs);
    assert [] + [f] + fs == [f] + fs && [] + fs == fs;
  }

  lemma DropConserves(s: Lane, f: Frame, extra: seq<Frame>, grant: Counter)
    requires ConservedWith(s, grant, [f] + extra)
    ensures ConservedWith(Drop(s, f), grant, extra)
  {
    SumsHead(f, extra);
  }

  lemma QueueConserves(s: Lane, f: Frame, extra: seq<Frame>, grant: Counter)
    requires ConservedWith(s, grant, [f] + extra)
    ensures ConservedWith(s.(pending := s.pending + [f]), grant, extra)
  {
    SumsHead(f, extra);
    SumsAppend(s.pending, f);
  }

  lemma DeliverConserves(s: Lane, f: Frame, extra: seq<Frame>, grant: Counter)
    requires ConservedWith(s, grant, [f] + extra) && f.length <= s.available
    ensures ConservedWith(Deliver(s, f), grant, extra)
  {
    SumsHead(f, extra);
    SumsAppend(s.live, f);
  }

  lemma {:induction false} RetainConserves(s: Lane, waiting: seq<Frame>, extra: seq<Frame>, grant: Counter)
    requires ConservedWith(s, grant, waiting + extra)
    ensures ConservedWith(Retain(s, waiting), grant, extra)
    decreases |waiting|
  {
    if waiting == [] {
      assert waiting + extra == extra;
    } else {
      var front, f := waiting[..|waiting| - 1], waiting[|waiting| - 1];
      assert waiting + extra == front + ([f] + extra);
      RetainConserves(s, front, [f] + extra, grant);
      var t := Retain(s, front);
      if Current(t.owners, f) {
        QueueConserves(t, f, extra, grant);
      } else {
        DropConserves(t, f, extra, grant);
      }
    }
  }

  lemma RetainedConserves(s: Lane, grant: Counter)
    requires Conserved(s, grant)
    ensures Conserved(Retained(s), grant)
  {
    assert s.pending + [] == s.pending;
    RetainConserves(s.(pending := []), s.pending, [], grant);
  }

  lemma ChargeConserves(s: Lane, f: Frame, grant: Counter)
    requires Conserved(s, grant) && Admits(s.ledger, Wire(f))
    ensures ConservedWith(s.(ledger := Charge(s.ledger, Wire(f)), decoded := s.decoded + 1), grant, [f] + [])
  {
    SumsHead(f, []);
  }

  lemma DecodeConserves(t: Turn, r: Raw, grant: Counter)
    requires Conserved(t.lane, grant) && Decode(t, r).Some?
    ensures Conserved(Decode(t, r).value.lane, grant)
  {
    var s, f := t.lane, Frame(t.lane.decoded, r.id, r.incarnation, r.length);
    var u := s.(ledger := Charge(s.ledger, Wire(f)), decoded := s.decoded + 1);
    ChargeConserves(s, f, grant);
    if !Current(s.owners, f) {
      DropConserves(u, f, [], grant);
      assert Decode(t, r).value.lane == Drop(u, f);
    } else if t.deferred || f.length > u.available {
      QueueConserves(u, f, [], grant);
      assert Decode(t, r).value.lane == u.(pending := u.pending + [f]);
    } else {
      DeliverConserves(u, f, [], grant);
      assert Decode(t, r).value.lane == Deliver(u, f);
    }
  }

  lemma {:induction false} DecodeAllConserves(t: Turn, rs: seq<Raw>, grant: Counter)
    requires Conserved(t.lane, grant) && DecodeAll(t, rs).Some?
    ensures Conserved(DecodeAll(t, rs).value.lane, grant)
  {
    if rs != [] {
      DecodeAllConserves(t, rs[..|rs| - 1], grant);
      DecodeConserves(DecodeAll(t, rs[..|rs| - 1]).value, rs[|rs| - 1], grant);
    }
  }

  lemma GrantConserves(s: Lane, grant: Counter)
    requires Conserved(s, grant) && s.pending != [] && s.pending[0].length <= s.available && Grant(s).Some?
    ensures Conserved(Grant(s).value, grant)
  {
    var f, u := s.pending[0], s.(pending := s.pending[1..]);
    assert s.pending == [f] + s.pending[1..];
    SumsHead(f, s.pending[1..]);
    SumsHead(f, []);
    assert [f] + [] == [f];
    if Current(s.owners, f) {
      DeliverConserves(u, f, [], grant);
    } else {
      DropConserves(u, f, [], grant);
    }
  }

  lemma DisposeConserves(s: Lane, i: nat, grant: Counter)
    requires Conserved(s, grant) && i < |s.live|
    ensures Conserved(Dispose(s, i), grant)
  {
    assert s.live == s.live[..i] + [s.live[i]] + s.live[i + 1..];
    SumsOmit(s.live[..i], s.live[i], s.live[i + 1..]);
  }

  lemma OtherConserves(s: Lane, bytes: nat, grant: Counter)
    requires Conserved(s, grant) && ChargeOther(s, bytes).Some?
    ensures Conserved(ChargeOther(s, bytes).value, grant)
  {
    SumAppend(s.others, bytes);
  }

  lemma DisposeOtherConserves(s: Lane, i: nat, grant: Counter)
    requires Conserved(s, grant) && i < |s.others|
    ensures Conserved(DisposeOther(s, i), grant)
  {
    SumOmit(s.others, i);
  }

  /** Leases do not touch the ledger, the budget or what is held. */
  lemma SameHoldings(s: Lane, t: Lane, grant: Counter)
    requires Conserved(s, grant) && t.ledger == s.ledger && t.available == s.available
    requires t.live == s.live && t.pending == s.pending && t.others == s.others
    ensures Conserved(t, grant)
  {
  }

  lemma NextConserves(s: Lane, ev: Event, grant: Counter)
    requires Conserved(s, grant) && Next(s, ev).Some?
    ensures Conserved(Next(s, ev).value, grant)
  {
    RetainedConserves(s, grant);
    match ev
    case ReadTurn(raws) => DecodeAllConserves(Turn(Retained(s), false), raws, grant);
    case Granted => GrantConserves(Retained(s), grant);
    case Disposed(which) => DisposeConserves(s, which, grant);
    case OtherCharged(bytes) => OtherConserves(Retained(s), bytes, grant);
    case OtherDisposed(which) => DisposeOtherConserves(s, which, grant);
    case _ => SameHoldings(Retained(s), Next(s, ev).value, grant);
  }

  /** In every run the budget and the transport credit are conserved. */
  lemma {:induction false} BudgetAndCreditAreConserved(credit: Counter, evs: seq<Event>)
    requires Run(Init(credit), evs).Some?
    ensures Conserved(Run(Init(credit), evs).value, credit)
  {
    if evs != [] {
      BudgetAndCreditAreConserved(credit, evs[..|evs| - 1]);
      NextConserves(Run(Init(credit), evs[..|evs| - 1]).value, evs[|evs| - 1], credit);
    }
  }

  /** What the agent holds never exceeds the initial grant, until a counter overflows. */
  lemma HeldWithinGrant(credit: Counter, evs: seq<Event>)
    requires Run(Init(credit), evs).Some? && !Run(Init(credit), evs).value.ledger.exhausted
    ensures HeldFrames(Run(Init(credit), evs).value) <= credit.frames
    ensures HeldBytes(Run(Init(credit), evs).value) <= credit.bytes
  {
    BudgetAndCreditAreConserved(credit, evs);
  }

  /** The data lane's grant is smaller than any transfer's queue, so a delivered record always finds room. */
  lemma QueuesNeverOverflow(evs: seq<Event>, transfer: seq<Frame>)
    requires Run(Init(Counter(DATA_BYTES, DATA_FRAMES)), evs).Some?
    requires var s := Run(Init(Counter(DATA_BYTES, DATA_FRAMES)), evs).value;
             !s.ledger.exhausted && multiset(transfer) <= multiset(s.live)
    ensures |transfer| <= DATA_FRAMES < ITEM_CAPACITY
  {
    var s := Run(Init(Counter(DATA_BYTES, DATA_FRAMES)), evs).value;
    HeldWithinGrant(Counter(DATA_BYTES, DATA_FRAMES), evs);
    assert |multiset(transfer)| == |transfer| && |multiset(s.live)| == |s.live|;
    assert multiset(s.live) == multiset(transfer) + (multiset(s.live) - multiset(transfer));
  }

  // ---- restores ----

  /** `t` comes after `s`, nobody owns a range, and everything logged in between was dropped. */
  ghost predicate OnlyDrops(s: Lane, t: Lane)
  {
    && t.owners == map[] && |s.log| <= |t.log|
    && (forall i :: |s.log| <= i < |t.log| ==> t.log[i].Stale?)
  }

  lemma {:induction false} RetainDrops(s: Lane, t: Lane, waiting: seq<Frame>)
    requires OnlyDrops(s, t) && t.pending == []
    ensures OnlyDrops(s, Retain(t, waiting)) && Retain(t, waiting).pending == []
    decreases |waiting|
  {
    if waiting != [] {
      RetainDrops(s, t, waiting[..|waiting| - 1]);
    }
  }

  lemma {:induction false} DecodeAllDrops(s: Lane, t: Turn, raws: seq<Raw>)
    requires OnlyDrops(s, t.lane) && DecodeAll(t, raws).Some?
    ensures OnlyDrops(s, DecodeAll(t, raws).value.lane)
    decreases |raws|
  {
    if raws != [] {
      DecodeAllDrops(s, t, raws[..|raws| - 1]);
    }
  }

  lemma NextDrops(s: Lane, t: Lane, ev: Event)
    requires OnlyDrops(s, t) && Next(t, ev).Some? && !ev.Connected?
    ensures OnlyDrops(s, Next(t, ev).value)
  {
    RetainDrops(s, t.(pending := []), t.pending);
    if ev.ReadTurn? {
      DecodeAllDrops(s, Turn(Retained(t), false), ev.raws);
    }
  }

  /** After a restore, and whatever arrives, no record is delivered until a client connects again. */
  lemma {:induction false} RestoreCutsInput(s: Lane, evs: seq<Event>)
    requires Run(Unowned(s), evs).Some? && forall i :: 0 <= i < |evs| ==> !evs[i].Connected?
    ensures OnlyDrops(s, Run(Unowned(s), evs).value)
    decreases |evs|
  {
    if evs != [] {
      RestoreCutsInput(s, evs[..|evs| - 1]);
      NextDrops(s, Run(Unowned(s), evs[..|evs| - 1]).value, evs[|evs| - 1]);
    }
  }
}
