/**
 The guest-to-host bulk scheduler as a transition system: deficit round robin over
 one queue per (owner, correlation), with lifecycle commands between records.
 The port and the lifecycle decisions are recorded in `log`, oldest first.
 */
module BulkModel {
  import opened Prelude
  import opened RelaySlots

  type Positive = n: nat | 0 < n witness 1
  type Burst = n: nat | QUANTUM <= n witness QUANTUM

  // Parameters: everything below holds for any quantum, any burst maximum that covers it, and
  // any capacity and number of flows. In the agent they are 256 KiB, 3 MiB, 8 MiB and 64.
  const QUANTUM: Positive
  const MAX_BURST: Burst
  const FLOW_CAPACITY: Positive
  const MAX_FLOWS_PER_CLIENT: Positive

  datatype Output = Bulk(payload: seq<byte>) | Other

  datatype Envelope = Envelope(generation: nat, id: nat, incarnation: Option<Incarnation>, output: Output)

  datatype Key = Key(owner: Incarnation, id: nat)

  datatype Flow = Flow(queue: seq<Envelope>, queuedBytes: nat, deficit: nat)

  datatype Command =
    | Park
    | Resume
    | Restore(generation: nat)
    | DropFlow(owner: Incarnation, id: nat)
    | DropIncarnation(owner: Incarnation)

  datatype Scope = AllFlows | OneFlow(key: Key) | OwnerFlows(owner: Incarnation)

  datatype Entry =
    | Opened(key: Key)
    | Accepted(key: Key, envelope: Envelope)
    | Visited(key: Key, quantum: nat)
    | Wrote(key: Key, envelope: Envelope)
    | Left(key: Key)
    | Parked(wireBytes: nat)
    | Resumed
    | Flushed(scope: Scope)

  datatype Sched = Sched(
    generation: nat,
    flows: map<Key, Flow>,
    active: seq<Key>,
    retired: map<Incarnation, Bitmap>,
    retiring: set<Incarnation>,
    parked: bool,
    wireBytes: nat,
    quantum: nat,
    visiting: Option<Key>,
    burst: nat,
    log: seq<Entry>)

  const Init: Sched := Sched(0, map[], [], map[], {}, false, 0, QUANTUM, None, 0, [])

  function Size(e: Envelope): nat
  {
    if e.output.Bulk? then |e.output.payload| else 0
  }

  function WireSize(e: Envelope): nat
  {
    WIRE_OVERHEAD + Size(e)
  }

  predicate Covers(scope: Scope, k: Key)
  {
    match scope
    case AllFlows => true
    case OneFlow(key) => key == k
    case OwnerFlows(owner) => owner == k.owner
  }

  // ---- lifecycle commands ----

  function Flush(s: Sched, scope: Scope): Sched
  {
    s.(flows := map k | k in s.flows && !Covers(scope, k) :: s.flows[k],
       active := Without(s.active, set k | k in s.active && Covers(scope, k)),
       log := s.log + [Flushed(scope)])
  }

  /** None when the command fails: a dropped id that belongs to no relay slot. */
  function Apply(s: Sched, c: Command): Option<Sched>
  {
    match c
    case Park => Some(s.(parked := true, log := s.log + [Parked(s.wireBytes)]))
    case Resume => Some(s.(parked := false, log := s.log + [Resumed]))
    case Restore(next) =>
      Some(Flush(s, AllFlows).(generation := next, retired := map[], retiring := {}))
    case DropFlow(owner, id) =>
      (match Retire(s.retired, owner, id)
       case None => None
       case Some(retired) => Some(Flush(s, OneFlow(Key(owner, id))).(retired := retired)))
    case DropIncarnation(owner) =>
      Some(Flush(s, OwnerFlows(owner)).(retiring := s.retiring + {owner}))
  }

  function ApplyAll(s: Sched, cs: seq<Command>): Option<Sched>
  {
    if cs == [] then Some(s)
    else match ApplyAll(s, cs[..|cs| - 1])
      case None => None
      case Some(t) => Apply(t, cs[|cs| - 1])
  }

  // ---- producer output ----

  function Owned(flows: map<Key, Flow>, owner: Incarnation): set<Key>
  {
    set k | k in flows && k.owner == owner
  }

  predicate Schedulable(e: Envelope)
  {
    e.incarnation.Some? && e.output.Bulk? && e.id != 0 && 0 < Size(e) <= MAX_BURST
  }

  predicate Tombstoned(s: Sched, k: Key)
  {
    k.owner in s.retiring || IsRetired(s.retired, k.owner, k.id)
  }

  function Append(s: Sched, k: Key, e: Envelope): Option<Sched>
    requires k in s.flows
  {
    var f := s.flows[k];
    if f.queuedBytes + Size(e) > FLOW_CAPACITY then None
    else
      var g := f.(queue := f.queue + [e], queuedBytes := f.queuedBytes + Size(e));
      Some(s.(flows := s.flows[k := g], log := s.log + [Accepted(k, e)]))
  }

  function Open(s: Sched, k: Key): Sched
  {
    s.(flows := s.flows[k := Flow([], 0, 0)], active := s.active + [k], log := s.log + [Opened(k)])
  }

  /** Queue one envelope. None is an error that ends the writer. */
  function Offer(s: Sched, e: Envelope): Option<Sched>
  {
    if e.generation != s.generation then Some(s)
    else if !Schedulable(e) then None
    else
      var k := Key(e.incarnation.value, e.id);
      if Tombstoned(s, k) then Some(s)
      else if k in s.flows then Append(s, k, e)
      else if |Owned(s.flows, k.owner)| >= MAX_FLOWS_PER_CLIENT then None
      else Append(Open(s, k), k, e)
  }

  function OfferAll(s: Sched, es: seq<Envelope>): Option<Sched>
  {
    if es == [] then Some(s)
    else match OfferAll(s, es[..|es| - 1])
      case None => None
      case Some(t) => Offer(t, es[|es| - 1])
  }

  // ---- one poll of both channels, then the acknowledgements ----

  function DroppedOwners(cs: seq<Command>): set<Incarnation>
  {
    set c | c in cs && c.DropIncarnation? :: c.owner
  }

  function Acknowledge(s: Sched, owners: set<Incarnation>): Sched
  {
    s.(retired := s.retired - owners, retiring := s.retiring - owners)
  }

  function Poll(s: Sched, cs: seq<Command>, es: seq<Envelope>): Option<Sched>
  {
    match ApplyAll(s, cs)
    case None => None
    case Some(t) =>
      match OfferAll(t, es)
      case None => None
      case Some(u) => Some(Acknowledge(u, DroppedOwners(cs)))
  }

  // ---- deficit round robin ----

  function Min(a: nat, b: nat): nat
  {
    if a < b then a else b
  }

  function Credit(f: Flow, quantum: nat): Flow
  {
    f.(deficit := Min(f.deficit + quantum, MAX_BURST))
  }

  function StartVisit(s: Sched): Sched
    requires s.active != []
  {
    var k := s.active[0];
    s.(active := s.active[1..],
       flows := if k in s.flows then s.flows[k := Credit(s.flows[k], s.quantum)] else s.flows,
       visiting := Some(k),
       burst := 0,
       log := s.log + [Visited(k, s.quantum)])
  }

  predicate CanSend(s: Sched)
  {
    && s.visiting.Some?
    && s.visiting.value in s.flows
    && var f := s.flows[s.visiting.value];
    && f.queue != []
    && Size(f.queue[0]) != 0
    && Size(f.queue[0]) <= f.deficit
    && s.burst + Size(f.queue[0]) <= MAX_BURST
  }

  /** Write the head record; None when it has no owner or the byte counter would overflow. */
  function SendHead(s: Sched): Option<Sched>
    requires CanSend(s)
  {
    var k := s.visiting.value;
    var f := s.flows[k];
    var e := f.queue[0];
    if e.incarnation.None? || s.wireBytes + WireSize(e) > U64_MAX then None
    else Some(s.(
      flows := s.flows[k := Flow(f.queue[1..], if f.queuedBytes < Size(e) then 0 else f.queuedBytes - Size(e),
                                 f.deficit - Size(e))],
      wireBytes := s.wireBytes + WireSize(e),
      burst := s.burst + Size(e),
      log := s.log + [Wrote(Key(e.incarnation.value, e.id), e)]))
  }

  function EndVisit(s: Sched): Sched
    requires s.visiting.Some?
  {
    var k := s.visiting.value;
    var t := s.(visiting := None, log := s.log + [Left(k)]);
    if k in s.flows && s.flows[k].queue == [] then t.(flows := s.flows - {k})
    else if k in s.flows && k !in s.active then t.(active := s.active + [k])
    else t
  }

  datatype Event =
    | Polled(commands: seq<Command>, envelopes: seq<Envelope>)
    | BeginRound
    | BeginVisit
    | Send
    | Leave

  /**
   None when the event is not enabled or ends the writer with an error. During a visit the
   channels are polled only after a record, so never before the first one.
   */
  function Next(s: Sched, ev: Event): Option<Sched>
  {
    match ev
    case Polled(cs, es) =>
      if s.visiting.Some? && s.burst == 0 then None else Poll(s, cs, es)
    case BeginRound =>
      if s.visiting.Some? || s.parked || s.active == [] then None
      else Some(s.(quantum := if |s.active| == 1 then MAX_BURST else QUANTUM))
    case BeginVisit =>
      if s.visiting.Some? || s.parked || s.active == [] then None else Some(StartVisit(s))
    case Send =>
      if s.parked || !CanSend(s) then None else SendHead(s)
    case Leave =>
      if s.visiting.None? || (!s.parked && CanSend(s)) then None else Some(EndVisit(s))
  }

  function Run(s: Sched, evs: seq<Event>): Option<Sched>
  {
    if evs == [] then Some(s)
    else match Run(s, evs[..|evs| - 1])
      case None => None
      case Some(t) => Next(t, evs[|evs| - 1])
  }
}
