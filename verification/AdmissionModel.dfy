/**
 Admission of records from the dedicated bulk lane: transport credit, ownership checks, the
 shared byte budget, and records deferred behind it. Handlers appear by when they dispose of
 a record; `others` are the wire sizes of stdin and inline messages charged to the same lane.
 The log records the fate of every decoded record, oldest first.
 */
module AdmissionModel {
  import opened Prelude
  import opened RelaySlots

  const BUDGET: nat := 32 * 1024 * 1024

  datatype Counter = Counter(bytes: nat, frames: nat)

  /** The cumulative position of the lane, the credit granted so far, and a stop after overflow. */
  datatype Ledger = Ledger(position: Counter, credit: Counter, exhausted: bool)

  /** A decoded record with its place in decoding order. */
  datatype Frame = Frame(index: nat, id: nat, incarnation: Incarnation, length: nat)

  datatype Fate = Delivered(frame: Frame, owner: Option<Incarnation>) | Stale(frame: Frame, owner: Option<Incarnation>)

  datatype Lane = Lane(
    owners: map<nat, Incarnation>,
    ledger: Ledger,
    available: nat,
    pending: seq<Frame>,
    live: seq<Frame>,
    others: seq<nat>,
    decoded: nat,
    log: seq<Fate>)

  function Init(credit: Counter): Lane
  {
    Lane(map[], Ledger(Counter(0, 0), credit, false), BUDGET, [], [], [], 0, [])
  }

  function Wire(f: Frame): nat
  {
    WIRE_OVERHEAD + f.length
  }

  // ---- the transport ledger ----

  predicate Admits(l: Ledger, bytes: nat)
  {
    && !l.exhausted
    && l.position.bytes + bytes <= U64_MAX && l.position.frames + 1 <= U64_MAX
    && l.position.bytes + bytes <= l.credit.bytes && l.position.frames + 1 <= l.credit.frames
  }

  function Charge(l: Ledger, bytes: nat): Ledger
  {
    l.(position := Counter(l.position.bytes + bytes, l.position.frames + 1))
  }

  /** Dropping a charge extends the credit; a counter that would overflow stops the lane instead. */
  function Refund(l: Ledger, bytes: nat): Ledger
  {
    if l.credit.bytes + bytes > U64_MAX || l.credit.frames + 1 > U64_MAX then l.(exhausted := true)
    else l.(credit := Counter(l.credit.bytes + bytes, l.credit.frames + 1))
  }

  // ---- ownership ----

  predicate Current(owners: map<nat, Incarnation>, f: Frame)
  {
    Owner(owners, f.id) == Some(f.incarnation)
  }

  /** A live client names a correlation outside its own range: fatal. */
  predicate Spoofed(owners: map<nat, Incarnation>, f: Frame)
  {
    !Current(owners, f) && f.incarnation in owners.Values
  }

  /** None is a refusal that ends the agent. */
  function Connect(s: Lane, start: nat, end: nat, incarnation: Incarnation): Option<Lane>
  {
    match Lease(s.owners, start, end, incarnation)
    case None => None
    case Some(owners) => Some(s.(owners := owners))
  }

  function Disconnect(s: Lane, start: nat, end: nat, claimed: Option<Incarnation>): Option<Lane>
  {
    match Unlease(s.owners, start, end, claimed)
    case None => None
    case Some(owners) => Some(s.(owners := owners))
  }

  /** A restore ends every lease at once; what is held and what waits is dealt with as it comes up. */
  function Unowned(s: Lane): Lane
  {
    s.(owners := map[])
  }

  // ---- records ----

  function Drop(s: Lane, f: Frame): Lane
  {
    s.(ledger := Refund(s.ledger, Wire(f)), log := s.log + [Stale(f, Owner(s.owners, f.id))])
  }

  function Deliver(s: Lane, f: Frame): Lane
    requires f.length <= s.available
  {
    s.(available := s.available - f.length, live := s.live + [f], log := s.log + [Delivered(f, Owner(s.owners, f.id))])
  }

  /** Deferred records whose owner has left are dropped before the budget is asked again. */
  function Retain(s: Lane, waiting: seq<Frame>): Lane
    decreases |waiting|
  {
    if waiting == [] then s
    else
      var t := Retain(s, waiting[..|waiting| - 1]);
      var f := waiting[|waiting| - 1];
      if Current(t.owners, f) then t.(pending := t.pending + [f]) else Drop(t, f)
  }

  function Retained(s: Lane): Lane
  {
    Retain(s.(pending := []), s.pending)
  }

  /** One record of a read turn; `deferred` once an earlier one of the turn met an empty budget. */
  datatype Turn = Turn(lane: Lane, deferred: bool)

  datatype Raw = Raw(id: nat, incarnation: Incarnation, length: nat)

  function Decode(t: Turn, r: Raw): Option<Turn>
  {
    var s, f := t.lane, Frame(t.lane.decoded, r.id, r.incarnation, r.length);
    if !Admits(s.ledger, Wire(f)) || Spoofed(s.owners, f) then None
    else
      var u := s.(ledger := Charge(s.ledger, Wire(f)), decoded := s.decoded + 1);
      if !Current(s.owners, f) then Some(t.(lane := Drop(u, f)))
      else if t.deferred || f.length > u.available then Some(Turn(u.(pending := u.pending + [f]), true))
      else Some(t.(lane := Deliver(u, f)))
  }

  function DecodeAll(t: Turn, rs: seq<Raw>): Option<Turn>
  {
    if rs == [] then Some(t)
    else match DecodeAll(t, rs[..|rs| - 1])
      case None => None
      case Some(u) => Decode(u, rs[|rs| - 1])
  }

  /** The budget granted the first deferred record. */
  function Grant(s: Lane): Option<Lane>
    requires s.pending != [] && s.pending[0].length <= s.available
  {
    var f := s.pending[0];
    var u := s.(pending := s.pending[1..]);
    if Spoofed(s.owners, f) then None
    else if !Current(s.owners, f) then Some(Drop(u, f))
    else Some(Deliver(u, f))
  }

  /** A destination is done with a record: its permit and its charge are returned. */
  function Dispose(s: Lane, i: nat): Lane
    requires i < |s.live|
  {
    var f := s.live[i];
    s.(live := s.live[..i] + s.live[i + 1..], available := s.available + f.length, ledger := Refund(s.ledger, Wire(f)))
  }

  /** A message of the primary port that uses data credit. */
  function ChargeOther(s: Lane, bytes: nat): Option<Lane>
  {
    if Admits(s.ledger, bytes) then Some(s.(ledger := Charge(s.ledger, bytes), others := s.others + [bytes])) else None
  }

  function DisposeOther(s: Lane, i: nat): Lane
    requires i < |s.others|
  {
    s.(others := s.others[..i] + s.others[i + 1..], ledger := Refund(s.ledger, s.others[i]))
  }

  datatype Event =
    | ReadTurn(raws: seq<Raw>)
    | Granted
    | Disposed(which: nat)
    | OtherCharged(bytes: nat)
    | OtherDisposed(which: nat)
    | Connected(start: nat, end: nat, incarnation: Incarnation)
    | Disconnected(start: nat, end: nat, claimed: Option<Incarnation>)
    | Restored

  /** None when the event cannot happen or ends the agent; every loop iteration first drops stale records. */
  function Next(s: Lane, ev: Event): Option<Lane>
  {
    var r := Retained(s);
    match ev
    case ReadTurn(raws) =>
      if r.pending != [] then None
      else (match DecodeAll(Turn(r, false), raws) case None => None case Some(t) => Some(t.lane))
    case Granted => if r.pending == [] || r.pending[0].length > r.available then None else Grant(r)
    case Disposed(which) => if which < |s.live| then Some(Dispose(s, which)) else None
    case OtherCharged(bytes) => ChargeOther(r, bytes)
    case OtherDisposed(which) => if which < |s.others| then Some(DisposeOther(s, which)) else None
    case Connected(start, end, incarnation) => Connect(r, start, end, incarnation)
    case Disconnected(start, end, claimed) => Disconnect(r, start, end, claimed)
    case Restored => Some(Unowned(r))
  }

  function Run(s: Lane, evs: seq<Event>): Option<Lane>
  {
    if evs == [] then Some(s)
    else match Run(s, evs[..|evs| - 1])
      case None => None
      case Some(t) => Next(t, evs[|evs| - 1])
  }
}
