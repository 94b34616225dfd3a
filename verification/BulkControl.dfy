/**
 The control flow of the bulk writer: which event is due at each point of its nested loops,
 what a trace of events took from the channels, and which acknowledgements it earned.
 */
module BulkControl {
  import opened Prelude
  import opened RelaySlots
  import opened BulkModel

  /**
   Where the writer is: waiting for a message, filling up after a lone envelope, starting a
   round, with `left` flows of the round still to visit, writing, polling after a record, or
   polling after the round.
   */
  datatype Pc =
    | Idle
    | Filling
    | RoundStart
    | Turn(left: nat)
    | Writing(left: nat)
    | Polling(left: nat)
    | RoundEnd

  /** After a poll outside a visit: wait if parked or without work, otherwise start a round. */
  function Ready(t: Sched): Pc
  {
    if t.parked || t.active == [] then Idle else RoundStart
  }

  /** After a visit: the next flow of the round, unless it is over, parked or out of flows. */
  function AfterTurn(left: nat, t: Sched): Pc
  {
    if left == 0 || t.parked || t.active == [] then RoundEnd else Turn(left)
  }

  /**
   The event the writer may take next at a point of its loops. A waiting writer prefers a
   command; a lone envelope is taken by itself, and only while not parked.
   */
  predicate Due(pc: Pc, s: Sched, ev: Event)
  {
    match pc
    case Idle => ev.Polled? && (ev.commands != [] || (|ev.envelopes| == 1 && !s.parked))
    case Filling => ev.Polled?
    case RoundStart => ev.BeginRound?
    case Turn(left) => ev.BeginVisit? && left > 0
    case Writing(_) => ev.Send? || ev.Leave?
    case Polling(_) => ev.Polled?
    case RoundEnd => ev.Polled?
  }

  /** The point after event `ev` took `s` to `t`; None when the event is not due. */
  function After(pc: Pc, s: Sched, ev: Event, t: Sched): Option<Pc>
  {
    if !Due(pc, s, ev) then None
    else match pc
      case Idle => Some(if ev.commands != [] then Ready(t) else Filling)
      case Filling => Some(Ready(t))
      case RoundStart => Some(Turn(|s.active|))
      case Turn(left) => Some(Writing(left - 1))
      case Writing(left) => Some(if ev.Send? then Polling(left) else AfterTurn(left, t))
      case Polling(left) => Some(Writing(left))
      case RoundEnd => Some(Ready(t))
  }

  /** At a poll point a poll is due; a waiting writer needs a command for it. */
  lemma PollIsDue(pc: Pc, s: Sched, cs: seq<Command>, es: seq<Envelope>, t: Sched)
    requires pc.Polling? || pc.RoundEnd? || pc.Filling? || (pc.Idle? && cs != [])
    requires s.visiting.Some? ==> s.burst > 0
    ensures After(pc, s, Polled(cs, es), t) == Some(if pc.Polling? then Writing(pc.left) else Ready(t))
    ensures Next(s, Polled(cs, es)) == Poll(s, cs, es)
    ensures Due(pc, s, Polled(cs, es)) && (Poll(s, cs, es).None? ==> Fails(s, Polled(cs, es)))
  {
  }

  /** Where a trace leads; None when some event of it was not due. */
  function PcOf(evs: seq<Event>): Option<Pc>
  {
    if evs == [] then Some(Idle)
    else
      var front := evs[..|evs| - 1];
      match PcOf(front)
      case None => None
      case Some(pc) =>
        if Run(Init, front).Some? && Run(Init, evs).Some?
        then After(pc, Run(Init, front).value, evs[|evs| - 1], Run(Init, evs).value)
        else None
  }

  lemma OneEvent(evs: seq<Event>, ev: Event, s: Sched, t: Sched, pc: Pc)
    requires Run(Init, evs) == Some(s) && Next(s, ev) == Some(t)
    requires PcOf(evs) == Some(pc) && After(pc, s, ev, t).Some?
    ensures Run(Init, evs + [ev]) == Some(t) && PcOf(evs + [ev]) == After(pc, s, ev, t)
  {
    var all := evs + [ev];
    assert all[..|all| - 1] == evs && all[|all| - 1] == ev;
  }

  /** `evs` continues `before` with a visit so far: it began, and every record was followed by a poll. */
  predicate InVisit(before: seq<Event>, evs: seq<Event>)
  {
    if |evs| <= |before| + 1 then evs == before + [BeginVisit]
    else evs[|evs| - 1].Polled? && evs[|evs| - 2] == Send && InVisit(before, evs[..|evs| - 2])
  }

  /** The visit that `evs` adds to `before` has ended, with its last record or with the flow returned. */
  predicate VisitEnds(before: seq<Event>, evs: seq<Event>, last: Event)
  {
    evs != [] && evs[|evs| - 1] == last && InVisit(before, evs[..|evs| - 1])
  }

  /** The visit that `evs` adds to `before` fails at a record, or at the poll after one. */
  predicate VisitBreaks(before: seq<Event>, evs: seq<Event>, failure: Option<Event>)
  {
    || (failure == Some(Send) && InVisit(before, evs))
    || (failure.Some? && failure.value.Polled? && VisitEnds(before, evs, Send))
  }

  /** However a visit ends, it only adds to the trace. */
  lemma VisitGrows(before: seq<Event>, evs: seq<Event>, last: Event)
    ensures InVisit(before, evs) ==> before <= evs
    ensures VisitEnds(before, evs, last) ==> before <= evs
  {
    if InVisit(before, evs) {
      InVisitGrows(before, evs);
    }
    if VisitEnds(before, evs, last) {
      InVisitGrows(before, evs[..|evs| - 1]);
    }
  }

  lemma InVisitPair(before: seq<Event>, evs: seq<Event>, poll: Event)
    requires InVisit(before, evs) && poll.Polled?
    ensures InVisit(before, evs + [Send] + [poll])
  {
    InVisitGrows(before, evs);
    var all := evs + [Send] + [poll];
    assert all[..|all| - 2] == evs;
  }

  lemma {:induction false} InVisitGrows(before: seq<Event>, evs: seq<Event>)
    requires InVisit(before, evs)
    ensures |evs| > |before| && evs[..|before|] == before
    decreases |evs|
  {
    if |evs| > |before| + 1 {
      InVisitGrows(before, evs[..|evs| - 2]);
      assert evs[..|evs| - 2][..|before|] == evs[..|before|];
    }
  }

  lemma VisitEnded(before: seq<Event>, evs: seq<Event>, last: Event)
    requires InVisit(before, evs)
    ensures VisitEnds(before, evs + [last], last)
  {
    assert (evs + [last])[..|evs|] == evs;
  }

  /** The event ends the writer with an error. */
  predicate Fails(s: Sched, ev: Event)
  {
    match ev
    case Polled(cs, es) => (s.visiting.Some? ==> s.burst > 0) && Poll(s, cs, es).None?
    case Send => !s.parked && CanSend(s) && SendHead(s).None?
    case _ => false
  }

  // ---- messages ----

  function CommandsOf(evs: seq<Event>): seq<Command>
  {
    if evs == [] then []
    else
      var rest, ev := CommandsOf(evs[..|evs| - 1]), evs[|evs| - 1];
      if ev.Polled? then rest + ev.commands else rest
  }

  function EnvelopesOf(evs: seq<Event>): seq<Envelope>
  {
    if evs == [] then []
    else
      var rest, ev := EnvelopesOf(evs[..|evs| - 1]), evs[|evs| - 1];
      if ev.Polled? then rest + ev.envelopes else rest
  }

  lemma MessagesOf(evs: seq<Event>, ev: Event)
    ensures ev.Polled? ==> CommandsOf(evs + [ev]) == CommandsOf(evs) + ev.commands
    ensures ev.Polled? ==> EnvelopesOf(evs + [ev]) == EnvelopesOf(evs) + ev.envelopes
    ensures !ev.Polled? ==> CommandsOf(evs + [ev]) == CommandsOf(evs) && EnvelopesOf(evs + [ev]) == EnvelopesOf(evs)
  {
    assert (evs + [ev])[..|evs|] == evs;
  }

  // ---- acknowledgements ----

  /** Acknowledgement owed once the data channel has been drained past its command. */
  datatype Cleanup = ParkAck(wireBytes: nat) | FlowAck | IncarnationAck(owner: Incarnation)

  function CleanupFor(s: Sched, c: Command): Cleanup
  {
    match c
    case Park => ParkAck(s.wireBytes)
    case DropIncarnation(owner) => IncarnationAck(owner)
    case _ => FlowAck
  }

  /** The acknowledgements a batch of commands earns, in order. */
  function CleanupsFor(s: Sched, cs: seq<Command>): (r: seq<Cleanup>)
    requires ApplyAll(s, cs).Some?
    ensures |r| == |cs|
  {
    if cs == [] then []
    else
      var front := cs[..|cs| - 1];
      CleanupsFor(s, front) + [CleanupFor(ApplyAll(s, front).value, cs[|cs| - 1])]
  }

  /** Every acknowledgement of a trace, in order. */
  function AcksOf(evs: seq<Event>): seq<Cleanup>
    requires Run(Init, evs).Some?
  {
    if evs == [] then []
    else
      var front, ev := evs[..|evs| - 1], evs[|evs| - 1];
      if ev.Polled? then AcksOf(front) + CleanupsFor(Run(Init, front).value, ev.commands) else AcksOf(front)
  }

  lemma OneMoreAck(evs: seq<Event>, ev: Event, s: Sched)
    requires Run(Init, evs) == Some(s) && Run(Init, evs + [ev]).Some?
    ensures Next(s, ev).Some?
    ensures AcksOf(evs + [ev]) == if ev.Polled? then AcksOf(evs) + CleanupsFor(s, ev.commands) else AcksOf(evs)
  {
    assert (evs + [ev])[..|evs|] == evs;
  }

  function ParkAcks(acks: seq<Cleanup>): seq<nat>
  {
    if acks == [] then []
    else
      var front, a := ParkAcks(acks[..|acks| - 1]), acks[|acks| - 1];
      if a.ParkAck? then front + [a.wireBytes] else front
  }

  function ParkEntries(log: seq<Entry>): seq<nat>
  {
    if log == [] then []
    else
      var front, x := ParkEntries(log[..|log| - 1]), log[|log| - 1];
      if x.Parked? then front + [x.wireBytes] else front
  }

  lemma {:induction false} ParkAcksConcat(a: seq<Cleanup>, b: seq<Cleanup>)
    ensures ParkAcks(a + b) == ParkAcks(a) + ParkAcks(b)
  {
    if b == [] {
      assert a + b == a;
    } else {
      assert (a + b)[..|a + b| - 1] == a + b[..|b| - 1];
      ParkAcksConcat(a, b[..|b| - 1]);
    }
  }

  lemma ParkEntriesSnoc(log: seq<Entry>, x: Entry)
    ensures ParkEntries(log + [x]) == if x.Parked? then ParkEntries(log) + [x.wireBytes] else ParkEntries(log)
  {
    assert (log + [x])[..|log|] == log;
  }

  /** A command leaves one entry, and only a park leaves a cut. */
  lemma CommandLogs(s: Sched, c: Command) returns (x: Entry)
    requires Apply(s, c).Some?
    ensures Apply(s, c).value.log == s.log + [x]
    ensures if c.Park? then x == Parked(s.wireBytes) else !x.Parked?
  {
    x := Apply(s, c).value.log[|s.log|];
  }

  lemma OneAck(a: Cleanup)
    ensures ParkAcks([a]) == if a.ParkAck? then [a.wireBytes] else []
  {
    assert [a][..0] == [];
  }

  lemma CommandParks(s: Sched, c: Command)
    requires Apply(s, c).Some?
    ensures ParkEntries(Apply(s, c).value.log) == ParkEntries(s.log) + ParkAcks([CleanupFor(s, c)])
  {
    var x := CommandLogs(s, c);
    ParkEntriesSnoc(s.log, x);
    OneAck(CleanupFor(s, c));
  }

  lemma {:induction false} CommandsPark(s: Sched, cs: seq<Command>)
    requires ApplyAll(s, cs).Some?
    ensures ParkEntries(ApplyAll(s, cs).value.log) == ParkEntries(s.log) + ParkAcks(CleanupsFor(s, cs))
  {
    if cs != [] {
      var front, c := cs[..|cs| - 1], cs[|cs| - 1];
      CommandsPark(s, front);
      var t := ApplyAll(s, front).value;
      CommandParks(t, c);
      ParkAcksConcat(CleanupsFor(s, front), [CleanupFor(t, c)]);
    }
  }

  lemma AppendParksNothing(s: Sched, k: Key, e: Envelope)
    requires k in s.flows && Append(s, k, e).Some?
    ensures ParkEntries(Append(s, k, e).value.log) == ParkEntries(s.log)
  {
    ParkEntriesSnoc(s.log, Accepted(k, e));
  }

  lemma OpenParksNothing(s: Sched, k: Key)
    ensures ParkEntries(Open(s, k).log) == ParkEntries(s.log)
  {
    ParkEntriesSnoc(s.log, Opened(k));
  }

  lemma OfferParksNothing(s: Sched, e: Envelope)
    requires Offer(s, e).Some?
    ensures ParkEntries(Offer(s, e).value.log) == ParkEntries(s.log)
  {
    if e.generation == s.generation {
      var k := Key(e.incarnation.value, e.id);
      if !Tombstoned(s, k) {
        if k in s.flows {
          AppendParksNothing(s, k, e);
        } else {
          OpenParksNothing(s, k);
          AppendParksNothing(Open(s, k), k, e);
        }
      }
    }
  }

  lemma {:induction false} OffersParkNothing(s: Sched, es: seq<Envelope>)
    requires OfferAll(s, es).Some?
    ensures ParkEntries(OfferAll(s, es).value.log) == ParkEntries(s.log)
  {
    if es != [] {
      OffersParkNothing(s, es[..|es| - 1]);
      OfferParksNothing(OfferAll(s, es[..|es| - 1]).value, es[|es| - 1]);
    }
  }

  lemma PollParks(s: Sched, cs: seq<Command>, es: seq<Envelope>)
    requires Poll(s, cs, es).Some?
    ensures ParkEntries(Poll(s, cs, es).value.log) == ParkEntries(s.log) + ParkAcks(CleanupsFor(s, cs))
  {
    CommandsPark(s, cs);
    OffersParkNothing(ApplyAll(s, cs).value, es);
  }

  lemma OtherEventsParkNothing(s: Sched, ev: Event)
    requires Next(s, ev).Some? && !ev.Polled?
    ensures ParkEntries(Next(s, ev).value.log) == ParkEntries(s.log)
  {
    var t := Next(s, ev).value;
    if !ev.BeginRound? {
      assert t.log == s.log + [t.log[|s.log|]];
      ParkEntriesSnoc(s.log, t.log[|s.log|]);
    }
  }

  /** In every run the park acknowledgements, in order, are exactly the parks of the log. */
  lemma {:induction false} AcknowledgedParksAreTheCuts(evs: seq<Event>)
    requires Run(Init, evs).Some?
    ensures ParkAcks(AcksOf(evs)) == ParkEntries(Run(Init, evs).value.log)
  {
    if evs != [] {
      var front, ev := evs[..|evs| - 1], evs[|evs| - 1];
      AcknowledgedParksAreTheCuts(front);
      var s := Run(Init, front).value;
      if ev.Polled? {
        PollParks(s, ev.commands, ev.envelopes);
        ParkAcksConcat(AcksOf(front), CleanupsFor(s, ev.commands));
      } else {
        OtherEventsParkNothing(s, ev);
      }
    }
  }

  // ---- what the writer keeps about its trace ----

  /** The trace is a run that leads to `s` and to the point `pc` of the loops, and earns `acks`. */
  ghost predicate Explains(evs: seq<Event>, s: Sched, pc: Pc, acks: seq<Cleanup>)
  {
    forall key: nat {:trigger Unlock(key)} :: Unlock(key) ==>
      Run(Init, evs) == Some(s) && PcOf(evs) == Some(pc) && acks == AcksOf(evs)
  }

  /** Everything that arrived is in an event of the trace or still in its channel, in order. */
  ghost predicate Conveys(evs: seq<Event>, commands: seq<Command>, envelopes: seq<Envelope>,
                          allCommands: seq<Command>, allEnvelopes: seq<Envelope>)
  {
    forall key: nat {:trigger Unlock(key)} :: Unlock(key) ==>
      CommandsOf(evs) + commands == allCommands && EnvelopesOf(evs) + envelopes == allEnvelopes
  }

  /** With `ev` the trace takes every command that arrived, and every record unless `ev` is a lone one. */
  predicate TakesAll(evs: seq<Event>, pc: Pc, ev: Event, allCommands: seq<Command>, allEnvelopes: seq<Envelope>)
  {
    && CommandsOf(evs + [ev]) == allCommands
    && EnvelopesOf(evs + [ev]) <= allEnvelopes
    && (!pc.Idle? || (ev.Polled? && ev.commands != []) ==> EnvelopesOf(evs + [ev]) == allEnvelopes)
  }

  /**
   The trace is a run that earned `acks`, after which `ev` is due, made of what arrived, and fails.
   */
  ghost predicate BreaksAt(evs: seq<Event>, ev: Event, acks: seq<Cleanup>,
                           allCommands: seq<Command>, allEnvelopes: seq<Envelope>)
  {
    forall key: nat {:trigger Unlock(key)} :: Unlock(key) ==>
      && Run(Init, evs).Some? && PcOf(evs).Some? && acks == AcksOf(evs)
      && Due(PcOf(evs).value, Run(Init, evs).value, ev) && Fails(Run(Init, evs).value, ev)
      && TakesAll(evs, PcOf(evs).value, ev, allCommands, allEnvelopes)
  }

  /** The acknowledgements an event earns. */
  function AcksFor(s: Sched, ev: Event): seq<Cleanup>
  {
    if ev.Polled? && ApplyAll(s, ev.commands).Some? then CleanupsFor(s, ev.commands) else []
  }

  lemma ExplainsInit()
    ensures Explains([], Init, Idle, [])
  {
  }

  lemma ExplainsNext(evs: seq<Event>, s: Sched, pc: Pc, acks: seq<Cleanup>, ev: Event, t: Sched)
    requires Explains(evs, s, pc, acks) && Next(s, ev) == Some(t) && After(pc, s, ev, t).Some?
    ensures Explains(evs + [ev], t, After(pc, s, ev, t).value, acks + AcksFor(s, ev))
  {
    assert Unlock(0);
    OneEvent(evs, ev, s, t, pc);
    OneMoreAck(evs, ev, s);
  }

  /** A poll of `cs` and `es` fails, with `leftEs` still in the output channel. */
  lemma BreaksPoll(evs: seq<Event>, s: Sched, pc: Pc, acks: seq<Cleanup>, cs: seq<Command>, es: seq<Envelope>,
                   leftEs: seq<Envelope>, cs0: seq<Command>, es0: seq<Envelope>)
    requires Explains(evs, s, pc, acks) && Conveys(evs, cs, es + leftEs, cs0, es0)
    requires Due(pc, s, Polled(cs, es)) && Fails(s, Polled(cs, es))
    requires leftEs == [] || (pc.Idle? && cs == [])
    ensures BreaksAt(evs, Polled(cs, es), acks, cs0, es0)
  {
    assert Unlock(0);
    PollTakesAll(evs, pc, cs, es, leftEs, cs0, es0);
  }

  lemma PollTakesAll(evs: seq<Event>, pc: Pc, cs: seq<Command>, es: seq<Envelope>, leftEs: seq<Envelope>,
                     cs0: seq<Command>, es0: seq<Envelope>)
    requires CommandsOf(evs) + cs == cs0 && EnvelopesOf(evs) + (es + leftEs) == es0
    requires leftEs == [] || (pc.Idle? && cs == [])
    ensures TakesAll(evs, pc, Polled(cs, es), cs0, es0)
  {
    MessagesOf(evs, Polled(cs, es));
    assert EnvelopesOf(evs) + (es + leftEs) == EnvelopesOf(evs) + es + leftEs;
  }

  /** A write fails with nothing left in the channels. */
  lemma BreaksSend(evs: seq<Event>, s: Sched, pc: Pc, acks: seq<Cleanup>, cs0: seq<Command>, es0: seq<Envelope>)
    requires Explains(evs, s, pc, acks) && Conveys(evs, [], [], cs0, es0) && pc.Writing? && Fails(s, Send)
    ensures BreaksAt(evs, Send, acks, cs0, es0)
  {
    assert Unlock(0);
    MessagesOf(evs, Send);
  }

  lemma ConveysInit()
    ensures Conveys([], [], [], [], [])
  {
  }

  lemma ConveysArrivals(evs: seq<Event>, cs: seq<Command>, es: seq<Envelope>,
                        cs0: seq<Command>, es0: seq<Envelope>, newCs: seq<Command>, newEs: seq<Envelope>)
    requires Conveys(evs, cs, es, cs0, es0)
    ensures Conveys(evs, cs + newCs, es + newEs, cs0 + newCs, es0 + newEs)
  {
    assert Unlock(0);
  }

  /** A poll moves the front of each channel into the trace. */
  lemma ConveysPoll(evs: seq<Event>, cs: seq<Command>, es: seq<Envelope>,
                    cs0: seq<Command>, es0: seq<Envelope>, leftCs: seq<Command>, leftEs: seq<Envelope>)
    requires Conveys(evs, cs + leftCs, es + leftEs, cs0, es0)
    ensures Conveys(evs + [Polled(cs, es)], leftCs, leftEs, cs0, es0)
  {
    assert Unlock(0);
    MessagesOf(evs, Polled(cs, es));
  }

  lemma ConveysOther(evs: seq<Event>, ev: Event, cs: seq<Command>, es: seq<Envelope>,
                     cs0: seq<Command>, es0: seq<Envelope>)
    requires Conveys(evs, cs, es, cs0, es0) && !ev.Polled?
    ensures Conveys(evs + [ev], cs, es, cs0, es0)
  {
    assert Unlock(0);
    MessagesOf(evs, ev);
  }

  // ---- draining the command channel ----

  lemma {:induction false} ApplyAllFails(s: Sched, cs: seq<Command>, n: nat)
    requires n <= |cs| && ApplyAll(s, cs[..n]).None?
    ensures ApplyAll(s, cs).None?
    decreases |cs| - n
  {
    if n == |cs| {
      assert cs[..n] == cs;
    } else {
      assert cs[..n + 1][..n] == cs[..n];
      ApplyAllFails(s, cs, n + 1);
    }
  }

  /** The first n commands took s to t and were answered by `done`. */
  ghost predicate Applied(s: Sched, cs: seq<Command>, n: nat, t: Sched, done: seq<Cleanup>)
  {
    forall key: nat {:trigger Unlock(key)} :: Unlock(key) ==>
      n <= |cs| && ApplyAll(s, cs[..n]) == Some(t) && done == CleanupsFor(s, cs[..n])
  }

  lemma AppliedNone(s: Sched, cs: seq<Command>)
    ensures Applied(s, cs, 0, s, [])
  {
  }

  lemma AppliedNext(s: Sched, cs: seq<Command>, n: nat, t: Sched, done: seq<Cleanup>)
    requires n < |cs| && Applied(s, cs, n, t, done)
    ensures match Apply(t, cs[n])
            case None => ApplyAll(s, cs).None?
            case Some(u) => Applied(s, cs, n + 1, u, done + [CleanupFor(t, cs[n])])
  {
    assert Unlock(0);
    assert cs[..n + 1][..n] == cs[..n] && cs[..n + 1][n] == cs[n];
    if Apply(t, cs[n]).None? {
      ApplyAllFails(s, cs, n + 1);
    }
  }

  lemma AppliedAll(s: Sched, cs: seq<Command>, t: Sched, done: seq<Cleanup>)
    requires Applied(s, cs, |cs|, t, done)
    ensures ApplyAll(s, cs) == Some(t) && done == CleanupsFor(s, cs)
  {
    assert Unlock(0);
    assert cs[..|cs|] == cs;
  }
}
