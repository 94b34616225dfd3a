/**
 The agent's checkpoint barrier: freeze requests that name a cut of the host's input, the
 workload latch, thaw and restore, and the loop that releases parked writers. Results of the
 freezer and of the heartbeat gate are parameters; the bulk writer appears by its park cut.
 */
module CheckpointModel {
  import opened Prelude
  import opened RelaySlots

  datatype Position = Position(controlBytes: nat, controlFrames: nat, bulkBytes: nat, bulkFrames: nat)

  datatype Lane = Control | Data

  datatype FreezeRequest = FreezeRequest(attempt: string, cut: Position, mountTags: seq<string>)

  datatype Mode = Continue | Restore

  datatype Latch =
    | Running(lastThawed: Option<string>)
    | Frozen(attempt: string)
    | RecoveryRequired(attempt: string)

  /** One execution; `exited` while its reported exit waits for unread output. */
  datatype Session = Session(execution: nat, exited: bool)

  /** What the reader of an execution stamps on its reports. */
  datatype Stamp = Stamp(generation: nat, id: nat, owner: Option<Incarnation>)

  datatype Reply =
    | FrozenReply(attempt: string, bulkTarget: nat)
    | ThawedReply(attempt: string)
    | ErrorReply(attempt: string)

  /** Whether writing the freezer, pausing the heartbeat and releasing the freezer succeed. */
  datatype Outcome = Outcome(freezes: bool, pauses: bool, thaws: bool)

  /** The dedicated bulk writer, as its parks and resumes show it to the agent. */
  datatype BulkLane = BulkLane(wire: nat, parked: bool)

  /** A reported cut and its bulk target, or the release that ends it. */
  datatype Note = FrozenAt(request: FreezeRequest, position: Position, bulkTarget: nat) | Released

  /** The transport side of the agent's state. */
  datatype Gate = Gate(
    position: Position,
    pending: Option<FreezeRequest>,
    aborted: Option<string>,
    outputParked: bool,
    resumeAfterFlush: bool,
    frozenInput: Option<Position>,
    frozenBulk: nat,
    latch: Latch,
    freezer: bool,
    bulk: BulkLane,
    outbox: seq<Reply>,
    mustRelease: bool,
    notes: seq<Note>)

  datatype Custody = FreshFreeze | Detached(generation: nat)

  /**
   The clients a restore detaches. History: `custody` lists captures and detachments, `stamps`
   the executions in the order they were spawned, and `reported` those whose exit has arrived.
   */
  datatype Clients = Clients(
    restored: Option<string>,
    incarnations: map<nat, Incarnation>,
    sessions: map<nat, Session>,
    detached: map<(nat, nat), Session>,
    generation: nat,
    custody: seq<Custody>,
    stamps: seq<Stamp>,
    reported: set<nat>)

  const NoClients: Clients := Clients(None, map[], map[], map[], 0, [], [], {})

  datatype Agent = Agent(gate: Gate, clients: Clients)

  const Origin: Position := Position(0, 0, 0, 0)

  function Init(freezer: bool): Agent
  {
    Agent(Gate(Origin, None, None, false, false, None, 0, Running(None), freezer, BulkLane(0, false), [], false, []),
          NoClients)
  }

  // ---- the workload latch ----

  predicate ValidAttempt(a: string)
  {
    0 < |a| <= 128 && forall i :: 0 <= i < |a| ==> '!' <= a[i] <= '~'
  }

  predicate IsFrozen(l: Latch)
  {
    !l.Running?
  }

  predicate OwnsFreeze(l: Latch, a: string)
  {
    ValidAttempt(a) && l == Frozen(a)
  }

  /** Freezing again is idempotent for the owner and refused to everyone else. */
  predicate MayFreeze(l: Latch, freezer: bool, a: string)
  {
    ValidAttempt(a) && if l.Running? then freezer else l == Frozen(a)
  }

  function LatchFreeze(l: Latch, a: string, writes: bool): Latch
  {
    if !l.Running? then l else if writes then Frozen(a) else RecoveryRequired(a)
  }

  /** Thawing is repeatable for the last attempt thawed, and otherwise only for the owner. */
  predicate MayThaw(l: Latch, a: string)
  {
    ValidAttempt(a) && if l.Running? then l.lastThawed == Some(a) else l.attempt == a
  }

  function LatchThaw(l: Latch, freezer: bool, a: string, writes: bool): Latch
  {
    if l.Running? then l else if freezer && writes then Running(Some(a)) else RecoveryRequired(a)
  }

  // ---- freeze ----

  function Answer(g: Gate, r: Reply): Gate
  {
    g.(outbox := g.outbox + [r])
  }

  /** The request conflicts with a pending cut, with the owner of the freeze, or with its cut. */
  predicate Conflicts(g: Gate, r: FreezeRequest)
  {
    || (g.pending.Some? && g.pending.value != r)
    || (IsFrozen(g.latch) && (!OwnsFreeze(g.latch, r.attempt) || (g.frozenInput.Some? && g.frozenInput.value != r.cut)))
  }

  /** The host claims input the control lane did not carry, or less bulk than was received. */
  predicate OutOfStep(g: Gate, cut: Position)
  {
    || cut.controlBytes != g.position.controlBytes
    || cut.controlFrames != g.position.controlFrames
    || cut.bulkBytes < g.position.bulkBytes
    || cut.bulkFrames < g.position.bulkFrames
  }

  predicate Refused(g: Gate, r: FreezeRequest)
  {
    Conflicts(g, r) || OutOfStep(g, r.cut)
  }

  /** The request reaches the latch and the latch ends up frozen for its attempt. */
  predicate Captures(g: Gate, r: FreezeRequest, o: Outcome)
  {
    && !Refused(g, r)
    && r.cut == g.position
    && MayFreeze(g.latch, g.freezer, r.attempt)
    && (g.latch.Running? ==> o.freezes)
  }

  /** Both writers are parked; the cut and the bulk byte count are recorded and reported. */
  function Park(g: Gate, r: FreezeRequest): Gate
  {
    g.(latch := Frozen(r.attempt),
       outputParked := true,
       frozenInput := Some(g.position),
       frozenBulk := g.bulk.wire,
       bulk := BulkLane(g.bulk.wire, true),
       outbox := g.outbox + [FrozenReply(r.attempt, g.bulk.wire)],
       notes := g.notes + [FrozenAt(r, g.position, g.bulk.wire)])
  }

  function Fail(g: Gate, r: FreezeRequest, latch: Latch): Gate
  {
    g.(latch := latch, outbox := g.outbox + [ErrorReply(r.attempt)])
  }

  function GateFreeze(g: Gate, r: FreezeRequest, o: Outcome): Gate
  {
    if Refused(g, r) then Answer(g, ErrorReply(r.attempt))
    else if r.cut != g.position then g.(aborted := None, pending := Some(r))
    else
      var h := g.(aborted := None, pending := None);
      if !MayFreeze(g.latch, g.freezer, r.attempt) then Answer(h, ErrorReply(r.attempt))
      else if g.latch.Running? && !o.freezes then Fail(h, r, RecoveryRequired(r.attempt))
      else if o.pauses then Park(h, r)
      else Fail(h, r, LatchThaw(Frozen(r.attempt), g.freezer, r.attempt, o.thaws))
  }

  /** A new capture forgets which attempt was restored: its name may be reused. */
  function Freeze(s: Agent, r: FreezeRequest, o: Outcome): Agent
  {
    var newCapture := s.gate.latch.Running? && Captures(s.gate, r, o);
    Agent(GateFreeze(s.gate, r, o),
          if newCapture then s.clients.(restored := None, custody := s.clients.custody + [FreshFreeze]) else s.clients)
  }

  // ---- thaw and restore ----

  /** The sessions still running, keyed by the generation they belong to. */
  function Survivors(sessions: map<nat, Session>, generation: nat): map<(nat, nat), Session>
  {
    map id | id in sessions && !sessions[id].exited :: (generation, id) := sessions[id]
  }

  function Detach(c: Clients, attempt: string): Clients
  {
    c.(restored := Some(attempt),
       incarnations := map[],
       sessions := map[],
       detached := c.detached + Survivors(c.sessions, c.generation),
       generation := c.generation + 1,
       custody := c.custody + [Detached(c.generation)])
  }

  /** The attempt's cut never completed: it is still pending, or was already abandoned. */
  predicate Uncut(g: Gate, attempt: string)
  {
    !IsFrozen(g.latch) && ((g.pending.Some? && g.pending.value.attempt == attempt) || g.aborted == Some(attempt))
  }

  /** Give up a cut that never completed; its freeze request is answered first. */
  function Abandon(g: Gate, attempt: string): Gate
  {
    g.(pending := None,
       aborted := Some(attempt),
       outbox := g.outbox + (if g.pending.Some? then [ErrorReply(attempt)] else []) + [ThawedReply(attempt)])
  }

  function Unlatch(g: Gate, attempt: string, o: Outcome): Gate
  {
    var latch := LatchThaw(g.latch, g.freezer, attempt, o.thaws);
    if !MayThaw(g.latch, attempt) then Answer(g, ErrorReply(attempt))
    else if latch.RecoveryRequired? then Answer(g.(latch := latch), ErrorReply(attempt))
    else g.(latch := latch, resumeAfterFlush := true, frozenInput := None,
            outbox := g.outbox + [ThawedReply(attempt)], notes := g.notes + [Released])
  }

  predicate ForeignPending(g: Gate, attempt: string)
  {
    g.pending.Some? && g.pending.value.attempt != attempt
  }

  /** This thaw detaches the clients: a restore not yet done, by the owner of the freeze. */
  predicate Detaches(s: Agent, attempt: string, mode: Mode)
  {
    && !ForeignPending(s.gate, attempt) && !Uncut(s.gate, attempt)
    && mode.Restore? && s.clients.restored != Some(attempt) && OwnsFreeze(s.gate.latch, attempt)
  }

  function GateThaw(s: Agent, attempt: string, mode: Mode, o: Outcome): Gate
  {
    if ForeignPending(s.gate, attempt) then Answer(s.gate, ErrorReply(attempt))
    else if Uncut(s.gate, attempt) then
      if mode.Restore? then Answer(s.gate, ErrorReply(attempt)) else Abandon(s.gate, attempt)
    else if mode.Restore? && s.clients.restored != Some(attempt) && !OwnsFreeze(s.gate.latch, attempt) then
      Answer(s.gate, ErrorReply(attempt))
    else Unlatch(s.gate, attempt, o)
  }

  function Thaw(s: Agent, attempt: string, mode: Mode, o: Outcome): Agent
  {
    Agent(GateThaw(s, attempt, mode, o), if Detaches(s, attempt, mode) then Detach(s.clients, attempt) else s.clients)
  }

  // ---- the main loop ----

  /** Flush, then let both ordinary writers go. */
  function Release(g: Gate): Gate
  {
    if g.resumeAfterFlush
    then g.(outbox := [], resumeAfterFlush := false, outputParked := false, mustRelease := false,
            bulk := BulkLane(g.bulk.wire, false))
    else g.(mustRelease := false)
  }

  predicate PendingReady(g: Gate)
  {
    && g.pending.Some?
    && g.position.bulkBytes >= g.pending.value.cut.bulkBytes
    && g.position.bulkFrames >= g.pending.value.cut.bulkFrames
  }

  function Flushed(g: Gate): Gate
  {
    g.(outbox := [])
  }

  function LoopTop(s: Agent, o: Outcome): Agent
  {
    var g := Release(s.gate);
    if PendingReady(g) then
      var t := Freeze(Agent(g.(pending := None), s.clients), g.pending.value, o);
      Agent(Flushed(t.gate), t.clients)
    else Agent(g, s.clients)
  }

  function Advance(p: Position, lane: Lane, bytes: nat): Position
  {
    match lane
    case Control => Position(p.controlBytes + bytes, p.controlFrames + 1, p.bulkBytes, p.bulkFrames)
    case Data => Position(p.controlBytes, p.controlFrames, p.bulkBytes + bytes, p.bulkFrames + 1)
  }

  // ---- executions ----

  function SpawnExec(c: Clients, id: nat): Clients
  {
    c.(sessions := c.sessions[id := Session(|c.stamps|, false)],
       stamps := c.stamps + [Stamp(c.generation, id, Owner(c.incarnations, id))])
  }

  /** The sessions whose correlation lies outside a departing client's range. */
  function Outside(sessions: map<nat, Session>, start: nat, end: nat): map<nat, Session>
  {
    map id | id in sessions && !(start <= id < end) :: sessions[id]
  }

  function Leave(c: Clients, start: nat, end: nat, claimed: Option<Incarnation>): Clients
    requires Unlease(c.incarnations, start, end, claimed).Some?
  {
    if Departs(c.incarnations, start, end, claimed)
    then c.(incarnations := Unlease(c.incarnations, start, end, claimed).value,
            sessions := Outside(c.sessions, start, end))
    else c
  }

  /** The stamp names an earlier owner of its range. */
  predicate StaleOwner(c: Clients, stamp: Stamp)
  {
    stamp.owner.Some? && Owner(c.incarnations, stamp.id) != stamp.owner
  }

  /** An exit ends its session, which stays while output is unread. */
  function Finish(c: Clients, id: nat, drained: bool): Clients
  {
    if id !in c.sessions then c
    else if drained then c.(sessions := c.sessions - {id})
    else c.(sessions := c.sessions[id := c.sessions[id].(exited := true)])
  }

  /** An inherited exit touches only the detached table; one of a departed owner touches nothing. */
  function TakeExit(c: Clients, stamp: Stamp, drained: bool): Clients
  {
    if stamp.generation != c.generation then c.(detached := c.detached - {(stamp.generation, stamp.id)})
    else if StaleOwner(c, stamp) then c
    else Finish(c, stamp.id, drained)
  }

  function ReportExit(c: Clients, x: nat, drained: bool): Clients
    requires x < |c.stamps|
  {
    TakeExit(c, c.stamps[x], drained).(reported := c.reported + {x})
  }

  /** An acknowledgement releases a retained exit once everything is read. */
  function Acknowledge(c: Clients, id: nat, drained: bool): Clients
  {
    if id in c.sessions && c.sessions[id].exited && drained then c.(sessions := c.sessions - {id}) else c
  }

  /** `drained` says whether the output window of the named execution is empty. */
  datatype Event =
    | Input(lane: Lane, bytes: nat)
    | Connect(start: nat, end: nat, incarnation: Incarnation)
    | Disconnect(start: nat, end: nat, claimed: Option<Incarnation>)
    | Spawn(id: nat)
    | OutputAck(id: nat, drained: bool)
    | FreezeMessage(request: FreezeRequest, outcome: Outcome)
    | ThawMessage(attempt: string, mode: Mode, outcome: Outcome)
    | EndBatch
    | Top(outcome: Outcome)
    | BulkRecord(wireBytes: nat)
    | Exit(execution: nat, drained: bool)

  /** Ordinary messages are decoded. */
  predicate Open(g: Gate)
  {
    !g.outputParked && !g.mustRelease
  }

  /**
   Whether the event can happen: input after the frozen cut ends the agent with an error, and
   after a flushed Thawed nothing is decoded before the loop top releases the writers.
   */
  predicate Enabled(s: Agent, ev: Event)
  {
    match ev
    case Input(_, _) => Open(s.gate)
    case Connect(start, end, incarnation) =>
      Open(s.gate) && Lease(s.clients.incarnations, start, end, incarnation).Some?
    case Disconnect(start, end, claimed) => Open(s.gate) && Unlease(s.clients.incarnations, start, end, claimed).Some?
    case Spawn(_) => Open(s.gate)
    case OutputAck(_, _) => Open(s.gate)
    case FreezeMessage(_, _) => !s.gate.mustRelease
    case ThawMessage(_, _, _) => !s.gate.mustRelease
    case BulkRecord(_) => !s.gate.bulk.parked
    case Exit(x, _) => !s.gate.outputParked && x < |s.clients.stamps| && x !in s.clients.reported
    case _ => true
  }

  function Next(s: Agent, ev: Event): Agent
    requires Enabled(s, ev)
  {
    match ev
    case Input(lane, bytes) => s.(gate := s.gate.(position := Advance(s.gate.position, lane, bytes)))
    case Connect(start, end, incarnation) =>
      s.(clients := s.clients.(incarnations := Lease(s.clients.incarnations, start, end, incarnation).value))
    case Disconnect(start, end, claimed) => s.(clients := Leave(s.clients, start, end, claimed))
    case Spawn(id) => if IsFrozen(s.gate.latch) then s else s.(clients := SpawnExec(s.clients, id))
    case OutputAck(id, drained) => s.(clients := Acknowledge(s.clients, id, drained))
    case FreezeMessage(r, o) => Freeze(s, r, o)
    case ThawMessage(a, mode, o) => Thaw(s, a, mode, o)
    case EndBatch => s.(gate := s.gate.(outbox := [], mustRelease := s.gate.resumeAfterFlush))
    case Top(o) => LoopTop(s, o)
    case BulkRecord(n) => s.(gate := s.gate.(bulk := BulkLane(s.gate.bulk.wire + n, s.gate.bulk.parked)))
    case Exit(x, drained) => s.(clients := ReportExit(s.clients, x, drained))
  }

  /** A Thawed reply is encoded but not yet flushed to the host. */
  predicate OwesThawed(outbox: seq<Reply>)
  {
    outbox != [] && (outbox[|outbox| - 1].ThawedReply? || OwesThawed(outbox[..|outbox| - 1]))
  }

  /** The host sends the next Freeze only after it has received every Thawed it is owed. */
  predicate HostDiscipline(s: Agent, ev: Event)
  {
    ev.FreezeMessage? ==> !OwesThawed(s.gate.outbox)
  }

  /** None when some event of the run cannot happen. */
  function Run(s: Agent, evs: seq<Event>): Option<Agent>
  {
    if evs == [] then Some(s)
    else match Run(s, evs[..|evs| - 1])
      case None => None
      case Some(t) => if Enabled(t, evs[|evs| - 1]) then Some(Next(t, evs[|evs| - 1])) else None
  }

  lemma Unroll(s: Agent, evs: seq<Event>, n: nat)
    requires 0 < n <= |evs|
    ensures Run(s, evs[..n]) ==
            match Run(s, evs[..n - 1])
            case None => None
            case Some(t) => if Enabled(t, evs[n - 1]) then Some(Next(t, evs[n - 1])) else None
  {
    assert evs[..n][..n - 1] == evs[..n - 1];
  }

  lemma Step(s: Agent, evs: seq<Event>, n: nat, t: Agent, u: Agent)
    requires n < |evs| && Run(s, evs[..n]) == Some(t) && Enabled(t, evs[n]) && Next(t, evs[n]) == u
    ensures Run(s, evs[..n + 1]) == Some(u)
  {
    Unroll(s, evs, n + 1);
  }

  predicate Disciplined(s: Agent, evs: seq<Event>)
    requires Run(s, evs).Some?
  {
    evs == [] ||
    (Disciplined(s, evs[..|evs| - 1]) && HostDiscipline(Run(s, evs[..|evs| - 1]).value, evs[|evs| - 1]))
  }
}
