/**
 The bulk writer itself: mutable scheduler state, two channels and the nested
 deficit-round-robin loops. Each operation is proved against the transition system, so every
 theorem about its runs is a theorem about this writer.
 */
module BulkWriter {
  import opened Prelude
  import opened RelaySlots
  import opened BulkModel
  import opened BulkControl

  /** What producers and the agent had sent by one poll of the channels. */
  datatype Arrivals = Arrivals(commands: seq<Command>, envelopes: seq<Envelope>)

  /** How a stretch of the loop ends: it goes on, is finished, stops with the schedule, or breaks on an error. */
  datatype Outcome = Goes | Finishes | Stops | Breaks

  function AckOwners(cleanups: seq<Cleanup>): set<Incarnation>
  {
    set c | c in cleanups && c.IncarnationAck? :: c.owner
  }

  function ArrivedCommands(schedule: seq<Arrivals>, n: nat): seq<Command>
    requires n <= |schedule|
  {
    if n == 0 then [] else ArrivedCommands(schedule, n - 1) + schedule[n - 1].commands
  }

  function ArrivedEnvelopes(schedule: seq<Arrivals>, n: nat): seq<Envelope>
    requires n <= |schedule|
  {
    if n == 0 then [] else ArrivedEnvelopes(schedule, n - 1) + schedule[n - 1].envelopes
  }

  class Writer {
    /** What each look at the channels finds in addition to what was left there. */
    const schedule: seq<Arrivals>
    var pos: nat
    var generation: nat
    var flows: map<Key, Flow>
    var active: seq<Key>
    var retired: map<Incarnation, Bitmap>
    var retiring: set<Incarnation>
    var parked: bool
    var wireBytes: nat
    var commandRx: seq<Command>
    var outputRx: seq<Envelope>
    var acked: seq<Cleanup>
    ghost var quantum: nat
    ghost var visiting: Option<Key>
    ghost var burst: nat
    ghost var log: seq<Entry>
    ghost var trace: seq<Event>
    ghost var pc: Pc
    ghost var failure: Option<Event>

    ghost function State(): Sched
      reads `generation, `flows, `active, `retired, `retiring, `parked, `wireBytes, `quantum, `visiting, `burst, `log
    {
      Sched(generation, flows, active, retired, retiring, parked, wireBytes, quantum, visiting, burst, log)
    }

    /**
     The state and the point in the loops are what the events so far lead to, every message is
     in a channel or in an event, and exactly the acknowledgements earned have been sent.
     */
    ghost predicate Valid()
      reads this
    {
      OnTrack() && Delivered()
    }

    ghost predicate OnTrack()
      reads `generation, `flows, `active, `retired, `retiring, `parked, `wireBytes
      reads `quantum, `visiting, `burst, `log, `trace, `pc, `acked
    {
      Explains(trace, State(), pc, acked)
    }

    ghost predicate Delivered()
      reads `trace, `pos, `commandRx, `outputRx
    {
      && pos <= |schedule|
      && Conveys(trace, commandRx, outputRx, ArrivedCommands(schedule, pos), ArrivedEnvelopes(schedule, pos))
    }

    ghost predicate Drained()
      reads this
    {
      commandRx == [] && outputRx == []
    }

    /**
     The writer has done everything it can without a further look at the channels: it stands at
     a poll with nothing taken back, and what a waiting writer may take it has taken.
     */
    ghost predicate AtPoll()
      reads this
    {
      match pc
      case Idle => commandRx == [] && (parked || outputRx == [])
      case Filling => commandRx == []
      case Polling(_) => Drained()
      case RoundEnd => Drained()
      case _ => false
    }

    /** The writer ended with an error: the event due after its trace, made of what arrived, fails. */
    ghost predicate Ended()
      reads `failure, `trace, `acked, `pos
    {
      && failure.Some? && pos <= |schedule|
      && BreaksAt(trace, failure.value, acked, ArrivedCommands(schedule, pos), ArrivedEnvelopes(schedule, pos))
    }

    constructor (arrivals: seq<Arrivals>)
      ensures Valid() && State() == Init && trace == [] && schedule == arrivals && pos == 0 && Drained()
    {
      schedule, pos := arrivals, 0;
      generation, flows, active, retired, retiring := 0, map[], [], map[], {};
      parked, wireBytes, commandRx, outputRx, acked := false, 0, [], [], [];
      quantum, visiting, burst, log, trace, pc, failure := QUANTUM, None, 0, [], [], Idle, None;
      ExplainsInit();
      ConveysInit();
    }

    /** Append the event that led from `s`, with `acks` sent by then, to the current state. */
    ghost method Record(ev: Event, s: Sched, acks: seq<Cleanup>)
      requires Explains(trace, s, pc, acks) && Next(s, ev) == Some(State()) && acked == acks + AcksFor(s, ev)
      requires After(pc, s, ev, State()).Some?
      modifies `trace, `pc
      ensures trace == old(trace) + [ev] && Some(pc) == After(old(pc), s, ev, State()) && OnTrack()
    {
      ExplainsNext(trace, s, pc, acks, ev, State());
      trace, pc := trace + [ev], After(pc, s, ev, State()).value;
    }

    /** The same for an event that takes no message. */
    ghost method Note(ev: Event, s: Sched)
      requires !ev.Polled? && Explains(trace, s, pc, acked) && Next(s, ev) == Some(State()) && Delivered()
      requires After(pc, s, ev, State()).Some?
      modifies `trace, `pc
      ensures trace == old(trace) + [ev] && Some(pc) == After(old(pc), s, ev, State()) && Valid()
    {
      ConveysOther(trace, ev, commandRx, outputRx, ArrivedCommands(schedule, pos), ArrivedEnvelopes(schedule, pos));
      assert acked == acked + AcksFor(s, ev);
      Record(ev, s, acked);
    }

    method ApplyCommand(c: Command) returns (r: Option<Cleanup>)
      modifies `generation, `flows, `active, `retired, `retiring, `parked, `log
      ensures r.None? ==> Apply(old(State()), c).None?
      ensures r.Some? ==> Apply(old(State()), c) == Some(State()) && r.value == CleanupFor(old(State()), c)
    {
      match c {
        case Park =>
          parked := true;
          log := log + [Parked(wireBytes)];
          return Some(ParkAck(wireBytes));
        case Resume =>
          parked := false;
          log := log + [Resumed];
          return Some(FlowAck);
        case Restore(next) =>
          Discard(AllFlows);
          generation, retired, retiring := next, map[], {};
          return Some(FlowAck);
        case DropFlow(owner, id) =>
          var bits := Retire(retired, owner, id);
          Discard(OneFlow(Key(owner, id)));
          if bits.None? {
            return None;
          }
          retired := bits.value;
          return Some(FlowAck);
        case DropIncarnation(owner) =>
          Discard(OwnerFlows(owner));
          retiring := retiring + {owner};
          return Some(IncarnationAck(owner));
      }
    }

    /** Drop the queued records in scope and take their flows off the active list. */
    method Discard(scope: Scope)
      modifies `flows, `active, `log
      ensures State() == Flush(old(State()), scope)
    {
      flows := map k | k in flows && !Covers(scope, k) :: flows[k];
      active := Without(active, set k | k in active && Covers(scope, k));
      log := log + [Flushed(scope)];
    }

    method Enqueue(e: Envelope) returns (ok: bool)
      modifies `flows, `active, `log
      ensures Offer(old(State()), e) == if ok then Some(State()) else None
    {
      if e.generation != generation {
        return true;
      }
      if e.incarnation.None? || e.output.Other? {
        return false;
      }
      var size := |e.output.payload|;
      if e.id == 0 || size == 0 || size > MAX_BURST {
        return false;
      }
      var key := Key(e.incarnation.value, e.id);
      if key.owner in retiring || IsRetired(retired, key.owner, key.id) {
        return true;
      }
      if key !in flows {
        if |set k | k in flows && k.owner == key.owner| >= MAX_FLOWS_PER_CLIENT {
          return false;
        }
        flows := flows[key := Flow([], 0, 0)];
        active := active + [key];
        log := log + [Opened(key)];
      }
      var flow := flows[key];
      if flow.queuedBytes + size > FLOW_CAPACITY {
        return false;
      }
      flows := flows[key := flow.(queuedBytes := flow.queuedBytes + size, queue := flow.queue + [e])];
      log := log + [Accepted(key, e)];
      return true;
    }

    method CompleteCleanups(cleanups: seq<Cleanup>)
      modifies `retired, `retiring, `acked
      ensures State() == Acknowledge(old(State()), AckOwners(cleanups))
      ensures acked == old(acked) + cleanups
    {
      for i := 0 to |cleanups|
        invariant State() == Acknowledge(old(State()), AckOwners(cleanups[..i]))
        invariant acked == old(acked) + cleanups[..i]
      {
        AckOneMore(old(State()), cleanups, i);
        if cleanups[i].IncarnationAck? {
          retired := retired - {cleanups[i].owner};
          retiring := retiring - {cleanups[i].owner};
        }
        acked := acked + [cleanups[i]];
      }
      assert cleanups[..|cleanups|] == cleanups;
    }

    /** What has been sent by the next poll reaches the channels. */
    method Receive()
      requires Valid() && pos < |schedule|
      modifies `commandRx, `outputRx, `pos
      ensures Valid() && pos == old(pos) + 1
    {
      ConveysArrivals(trace, commandRx, outputRx, ArrivedCommands(schedule, pos), ArrivedEnvelopes(schedule, pos),
                      schedule[pos].commands, schedule[pos].envelopes);
      commandRx, outputRx := commandRx + schedule[pos].commands, outputRx + schedule[pos].envelopes;
      pos := pos + 1;
    }

    method DrainCommands() returns (r: Option<seq<Cleanup>>)
      modifies `commandRx, `generation, `flows, `active, `retired, `retiring, `parked, `log
      ensures r.None? ==> ApplyAll(old(State()), old(commandRx)).None?
      ensures r.Some? ==> ApplyAll(old(State()), old(commandRx)) == Some(State()) && commandRx == []
      ensures r.Some? ==> r.value == CleanupsFor(old(State()), old(commandRx))
    {
      ghost var s, cs, n := State(), commandRx, 0;
      var cleanups: seq<Cleanup> := [];
      AppliedNone(s, cs);
      while commandRx != []
        invariant n <= |cs| && commandRx == cs[n..] && Applied(s, cs, n, State(), cleanups)
        decreases |commandRx|
      {
        var c := commandRx[0];
        commandRx := commandRx[1..];
        AppliedNext(s, cs, n, State(), cleanups);
        var one := ApplyCommand(c);
        if one.None? {
          return None;
        }
        cleanups := cleanups + [one.value];
        n := n + 1;
      }
      AppliedAll(s, cs, State(), cleanups);
      return Some(cleanups);
    }

    method DrainOutput() returns (ok: bool)
      modifies `outputRx, `flows, `active, `log
      ensures OfferAll(old(State()), old(outputRx)) == if ok then Some(State()) else None
      ensures ok ==> outputRx == []
    {
      ghost var s, es, n := State(), outputRx, 0;
      while outputRx != []
        invariant n <= |es| && outputRx == es[n..]
        invariant OfferAll(s, es[..n]) == Some(State())
        decreases |outputRx|
      {
        var e := outputRx[0];
        outputRx := outputRx[1..];
        assert es[..n + 1] == es[..n] + [e] && es[..n + 1][..n] == es[..n];
        ok := Enqueue(e);
        n := n + 1;
        if !ok {
          OfferAllFails(s, es, n);
          return;
        }
      }
      assert es[..n] == es;
      ok := true;
    }

    /** Commands first, then all queued output, then the acknowledgements. */
    method DrainChannels() returns (ok: bool)
      modifies `commandRx, `outputRx, `acked, `generation, `flows, `active, `retired, `retiring, `parked, `log
      ensures Poll(old(State()), old(commandRx), old(outputRx)) == if ok then Some(State()) else None
      ensures ok ==> commandRx == [] && outputRx == []
      ensures acked == if ok then old(acked) + CleanupsFor(old(State()), old(commandRx)) else old(acked)
    {
      ghost var s, cs := State(), commandRx;
      var cleanups := DrainCommands();
      if cleanups.None? {
        return false;
      }
      ok := DrainOutput();
      if ok {
        CleanupOwners(s, cs);
        CompleteCleanups(cleanups.value);
      }
    }

    /** A poll of both channels, as one event of the run. */
    method Drain() returns (ok: bool)
      requires Valid() && (visiting.Some? ==> burst > 0)
      requires pc.Polling? || pc.RoundEnd? || pc.Filling? || (pc.Idle? && commandRx != [])
      modifies this
      ensures pos == old(pos) && visiting == old(visiting) && burst == old(burst) && quantum == old(quantum)
      ensures !ok ==> Ended() && trace == old(trace) && failure == Some(Polled(old(commandRx), old(outputRx)))
      ensures !ok ==> Poll(old(State()), old(commandRx), old(outputRx)).None?
      ensures ok ==> Valid() && Drained() && trace == old(trace) + [Polled(old(commandRx), old(outputRx))]
      ensures ok ==> pc == if old(pc).Polling? then Writing(old(pc).left) else Ready(State())
    {
      ghost var s, acks, ev := State(), acked, Polled(commandRx, outputRx);
      assert commandRx == commandRx + [] && outputRx == outputRx + [];
      ConveysPoll(trace, commandRx, outputRx, ArrivedCommands(schedule, pos), ArrivedEnvelopes(schedule, pos), [], []);
      ok := DrainChannels();
      PollIsDue(pc, s, ev.commands, ev.envelopes, State());
      if ok {
        Record(ev, s, acks);
      } else {
        BreaksPoll(trace, s, pc, acks, ev.commands, ev.envelopes, [],
                   ArrivedCommands(schedule, pos), ArrivedEnvelopes(schedule, pos));
        failure := Some(ev);
      }
    }

    /** Queue the first envelope of the channel by itself. */
    method EnqueueFirst() returns (ok: bool)
      requires outputRx != []
      modifies `outputRx, `flows, `active, `log
      ensures outputRx == old(outputRx)[1..]
      ensures Poll(old(State()), [], [old(outputRx)[0]]) == if ok then Some(State()) else None
    {
      var e := outputRx[0];
      outputRx := outputRx[1..];
      LoneEnvelope(State(), e);
      ok := Enqueue(e);
    }

    /** A waiting writer takes one envelope by itself. */
    method TakeOne() returns (ok: bool)
      requires Valid() && pc.Idle? && visiting.None? && !parked && commandRx == [] && outputRx != []
      modifies `outputRx, `flows, `active, `log, `trace, `pc, `failure
      ensures outputRx == old(outputRx)[1..]
      ensures ok ==> Valid() && pc == Filling && trace == old(trace) + [Polled([], [old(outputRx)[0]])]
      ensures !ok ==> Ended() && trace == old(trace) && failure == Some(Polled([], [old(outputRx)[0]]))
    {
      ghost var s, first := State(), [outputRx[0]];
      assert commandRx == [] + [] && outputRx == first + outputRx[1..];
      ConveysPoll(trace, [], first, ArrivedCommands(schedule, pos), ArrivedEnvelopes(schedule, pos), [], outputRx[1..]);
      LoneEnvelope(s, outputRx[0]);
      ok := EnqueueFirst();
      if ok {
        Record(Polled([], first), s, acked);
      } else {
        BreaksPoll(trace, s, pc, acked, [], first, outputRx,
                   ArrivedCommands(schedule, pos), ArrivedEnvelopes(schedule, pos));
        failure := Some(Polled([], first));
      }
    }

    /** Take the next flow and credit it. */
    method PopFlow(q: nat) returns (key: Key)
      requires active != [] && quantum == q
      modifies `active, `flows, `visiting, `burst, `log
      ensures State() == StartVisit(old(State())) && key == old(active[0])
    {
      key := active[0];
      active := active[1..];
      if key in flows {
        flows := flows[key := flows[key].(deficit := Min(flows[key].deficit + q, MAX_BURST))];
      }
      visiting, burst, log := Some(key), 0, log + [Visited(key, q)];
    }

    /**
     Write the head of the visited flow as one complete record. A record without an owner is not
     written; one that exhausts the byte counter is, and then the writer ends.
     */
    method WriteHead(key: Key) returns (ok: bool)
      requires visiting == Some(key) && CanSend(State())
      modifies `flows, `wireBytes, `burst, `log
      ensures SendHead(old(State())) == if ok then Some(State()) else None
      ensures var e := old(flows[key].queue[0]);
              log == if e.incarnation.None? then old(log) else old(log) + [Wrote(Key(e.incarnation.value, e.id), e)]
      ensures key in flows && flows[key].queue == old(flows[key].queue[1..])
      ensures !ok ==> wireBytes == old(wireBytes)
    {
      var flow := flows[key];
      var e := flow.queue[0];
      var size := Size(e);
      var queued := if flow.queuedBytes < size then 0 else flow.queuedBytes - size;
      flows := flows[key := Flow(flow.queue[1..], queued, flow.deficit - size)];
      if e.incarnation.None? {
        return false;
      }
      log := log + [Wrote(Key(e.incarnation.value, e.id), e)];
      if wireBytes + WireSize(e) > U64_MAX {
        return false;
      }
      wireBytes := wireBytes + WireSize(e);
      burst := burst + size;
      ok := true;
    }

    /** Drop the flow if it is empty, otherwise queue it for its next turn. */
    method ReturnFlow(key: Key)
      requires visiting == Some(key)
      modifies `flows, `active, `visiting, `log
      ensures State() == EndVisit(old(State()))
    {
      if key in flows && flows[key].queue == [] {
        flows := flows - {key};
      } else if key in flows && key !in active {
        active := active + [key];
      }
      visiting, log := None, log + [Left(key)];
    }

    method BeginTurn(q: nat) returns (key: Key)
      requires Valid() && pc.Turn? && pc.left > 0 && visiting.None? && !parked && active != [] && quantum == q
      modifies `active, `flows, `visiting, `burst, `log, `trace, `pc
      ensures Valid() && visiting == Some(key) && burst == 0
      ensures pc == Writing(old(pc).left - 1) && trace == old(trace) + [BeginVisit]
    {
      ghost var s := State();
      key := PopFlow(q);
      Note(BeginVisit, s);
    }

    method SendRecord(key: Key) returns (ok: bool)
      requires Valid() && Drained() && pc.Writing? && !parked && visiting == Some(key) && CanSend(State())
      modifies `flows, `wireBytes, `burst, `log, `trace, `pc, `failure
      ensures !ok ==> Ended() && trace == old(trace) && failure == Some(Send)
      ensures ok ==> Valid() && pc == Polling(old(pc).left) && trace == old(trace) + [Send]
      ensures ok ==> burst == old(burst) + Size(old(flows[key].queue[0]))
    {
      ghost var s := State();
      ok := WriteHead(key);
      if ok {
        Note(Send, s);
      } else {
        BreaksSend(trace, s, pc, acked, ArrivedCommands(schedule, pos), ArrivedEnvelopes(schedule, pos));
        failure := Some(Send);
      }
    }

    method EndTurn(key: Key)
      requires Valid() && pc.Writing? && visiting == Some(key) && (parked || !CanSend(State()))
      modifies `flows, `active, `visiting, `log, `trace, `pc
      ensures Valid() && visiting.None? && pc == AfterTurn(old(pc).left, State()) && trace == old(trace) + [Leave]
    {
      ghost var s := State();
      ReturnFlow(key);
      Note(Leave, s);
    }

    /** The flow's head fits its deficit and the rest of the burst. */
    method MaySend(key: Key, spent: nat) returns (yes: bool, nextLen: nat)
      requires visiting == Some(key) && burst == spent
      ensures yes == CanSend(State())
      ensures yes ==> nextLen == Size(flows[key].queue[0])
    {
      nextLen := if key in flows && flows[key].queue != [] then Size(flows[key].queue[0]) else 0;
      yes := key in flows && nextLen != 0 && nextLen <= flows[key].deficit && spent + nextLen <= MAX_BURST;
    }

    /** Write one record and, unless the schedule has ended, poll both channels. */
    method WriteAndPoll(key: Key) returns (ok: bool, polled: bool)
      requires Valid() && Drained() && pc.Writing? && !parked && visiting == Some(key) && CanSend(State())
      modifies this
      ensures old(pos) <= pos <= |schedule| && quantum == old(quantum)
      ensures if ok then Valid() && Drained() && (polled <==> old(pos) < |schedule|) else Ended()
      ensures !ok ==> forall before :: InVisit(before, old(trace)) ==> VisitBreaks(before, trace, failure)
      ensures ok && !polled ==> pc == Polling(old(pc).left) && trace == old(trace) + [Send]
      ensures ok && polled ==> pos == old(pos) + 1 && visiting == Some(key) && pc == old(pc)
      ensures ok && polled ==> burst == old(burst) + Size(old(flows[key].queue[0]))
      ensures ok && polled ==> forall before :: InVisit(before, old(trace)) ==> InVisit(before, trace)
    {
      polled := false;
      ok := SendRecord(key);
      if ok && pos < |schedule| {
        Receive();
        ghost var poll := Polled(commandRx, outputRx);
        forall before | InVisit(before, old(trace))
          ensures InVisit(before, old(trace) + [Send] + [poll]) && VisitEnds(before, old(trace) + [Send], Send)
        {
          InVisitPair(before, old(trace), poll);
          VisitEnded(before, old(trace), Send);
        }
        ok := Drain();
        polled := true;
      }
    }

    /** Inside a visit of `key` that has written `spent` bytes, at the writing point. */
    ghost predicate Within(key: Key, left: nat, spent: nat, before: seq<Event>)
      reads this
    {
      && Valid() && Drained() && pc == Writing(left) && visiting == Some(key) && burst == spent
      && InVisit(before, trace)
    }

    /** Write the next record if the flow can: whether the visit goes on, is done, stops or fails. */
    method WriteNext(key: Key, spent: nat, ghost left: nat, ghost before: seq<Event>)
        returns (outcome: Outcome, spent': nat)
      requires Within(key, left, spent, before) && !parked
      modifies this
      ensures old(pos) <= pos <= |schedule| && quantum == old(quantum)
      ensures outcome == Goes ==> Within(key, left, spent', before) && !parked && pos > old(pos)
      ensures outcome == Finishes ==> Within(key, left, spent', before) && (parked || !CanSend(State()))
      ensures outcome == Stops ==> Valid() && Drained() && pos == |schedule| && pc == Polling(left)
      ensures outcome == Stops ==> VisitEnds(before, trace, Send)
      ensures outcome == Breaks ==> Ended() && VisitBreaks(before, trace, failure)
    {
      spent' := spent;
      var canSend, nextLen := MaySend(key, spent);
      if !canSend {
        return Finishes, spent;
      }
      VisitEnded(before, trace, Send);
      var ok, polled := WriteAndPoll(key);
      if !ok {
        return Breaks, spent;
      }
      if !polled {
        return Stops, spent;
      }
      return if parked then Finishes else Goes, spent + nextLen;
    }

    /** Write while the flow can. */
    method WriteAll(key: Key, ghost left: nat, ghost before: seq<Event>) returns (outcome: Outcome)
      requires Within(key, left, 0, before) && !parked
      modifies this
      ensures old(pos) <= pos <= |schedule| && quantum == old(quantum) && outcome != Goes
      ensures outcome == Finishes ==> Within(key, left, burst, before) && (parked || !CanSend(State()))
      ensures outcome == Stops ==> Valid() && Drained() && pos == |schedule| && pc == Polling(left)
      ensures outcome == Stops ==> VisitEnds(before, trace, Send)
      ensures outcome == Breaks ==> Ended() && VisitBreaks(before, trace, failure)
    {
      var spent := 0;
      while true
        invariant old(pos) <= pos <= |schedule| && quantum == old(quantum)
        invariant Within(key, left, spent, before) && !parked
        decreases |schedule| - pos
      {
        outcome, spent := WriteNext(key, spent, left, before);
        if outcome != Goes {
          return;
        }
      }
    }

    /**
     One visit: write while the flow can, and poll both channels after every record. It ends
     with the flow returned, or stops before a poll when the schedule has ended.
     */
    method Visit(q: nat) returns (outcome: Outcome)
      requires Valid() && Drained() && pc.Turn? && pc.left > 0
      requires visiting.None? && !parked && active != [] && quantum == q
      modifies this
      ensures old(pos) <= pos <= |schedule| && quantum == q && outcome != Goes && old(trace) <= trace
      ensures outcome == Breaks ==> Ended() && VisitBreaks(old(trace), trace, failure)
      ensures outcome != Breaks ==> Valid() && Drained()
      ensures outcome == Stops ==> pos == |schedule| && pc == Polling(old(pc).left - 1)
      ensures outcome == Stops ==> VisitEnds(old(trace), trace, Send)
      ensures outcome == Finishes ==>
                visiting.None? && pc == AfterTurn(old(pc).left - 1, State()) && VisitEnds(old(trace), trace, Leave)
    {
      ghost var left := pc.left - 1;
      var key := BeginTurn(q);
      outcome := WriteAll(key, left, old(trace));
      if outcome == Finishes {
        VisitEnded(old(trace), trace, Leave);
        EndTurn(key);
      }
      VisitGrows(old(trace), trace, if outcome == Finishes then Leave else Send);
    }

    /** Between rounds, at the point `p`, with the channels empty. */
    ghost predicate Between(p: Pc)
      reads this
    {
      Valid() && Drained() && visiting.None? && pc == p
    }

    /** Start a round over the flows active now. */
    method BeginRoundOf(q: nat)
      requires Between(RoundStart) && !parked && active != []
      requires q == if |active| == 1 then MAX_BURST else QUANTUM
      modifies `quantum, `trace, `pc
      ensures Between(Turn(|active|)) && quantum == q && trace == old(trace) + [BeginRound]
    {
      ghost var s := State();
      quantum := q;
      Note(BeginRound, s);
    }

    /** One round over the flows active at its start. */
    method Round() returns (outcome: Outcome)
      requires Between(RoundStart) && !parked && active != []
      modifies this
      ensures old(pos) <= pos <= |schedule| && outcome != Goes && old(trace) < trace
      ensures outcome == Breaks ==> Ended()
      ensures outcome == Stops ==> Valid() && Drained() && pos == |schedule| && pc.Polling?
      ensures outcome == Finishes ==> Between(RoundEnd)
    {
      var roundLen := |active|;
      var q := if roundLen == 1 then MAX_BURST else QUANTUM;
      BeginRoundOf(q);
      for i := 0 to roundLen
        invariant old(pos) <= pos <= |schedule| && quantum == q && old(trace) < trace
        invariant Between(AfterTurn(roundLen - i, State()))
      {
        if parked || active == [] {
          break;
        }
        outcome := Visit(q);
        if outcome != Finishes {
          return;
        }
      }
      outcome := Finishes;
    }

    /** Take what woke the writer, and everything that has arrived by then. */
    method Wake() returns (outcome: Outcome)
      requires Valid() && pc.Idle? && visiting.None? && (commandRx != [] || (!parked && outputRx != []))
      modifies this
      ensures old(pos) <= pos <= |schedule| && outcome != Goes && old(trace) <= trace
      ensures outcome == Breaks ==> Ended()
      ensures outcome == Stops ==> Valid() && pos == |schedule| && AtPoll()
      ensures outcome == Finishes ==> Between(Ready(State()))
    {
      if commandRx == [] {
        var taken := TakeOne();
        if !taken {
          return Breaks;
        }
        if pos == |schedule| {
          return Stops;
        }
        Receive();
      }
      var ok := Drain();
      return if ok then Finishes else Breaks;
    }

    /** Rounds, each followed by a poll, while there is something to write. */
    method Rounds() returns (outcome: Outcome)
      requires Between(Ready(State()))
      modifies this
      ensures old(pos) <= pos <= |schedule| && outcome != Goes && old(trace) <= trace
      ensures outcome == Breaks ==> Ended()
      ensures outcome == Stops ==> Valid() && pos == |schedule| && AtPoll()
      ensures outcome == Finishes ==> Between(Idle)
    {
      while !parked && active != []
        invariant old(pos) <= pos <= |schedule| && Between(Ready(State())) && old(trace) <= trace
        decreases |schedule| - pos
      {
        outcome := Round();
        if outcome != Finishes {
          return;
        }
        if pos == |schedule| {
          return Stops;
        }
        Receive();
        var ok := Drain();
        if !ok {
          return Breaks;
        }
      }
      outcome := Finishes;
    }

    /**
     The writer's loop, for any schedule: it ends at a poll when the schedule does, with every
     message it may take taken and every acknowledgement earned sent, or on an error. What it
     did is a run of the transition system along its loops; it ends on an error only where the
     event then due, with everything that has arrived, is one.
     */
    method Task() returns (ok: bool)
      requires Valid() && pc.Idle? && visiting.None? && AtPoll()
      modifies this
      ensures old(trace) <= trace
      ensures if ok then Valid() && AtPoll() && pos == |schedule| else Ended()
      ensures ok ==> Run(Init, trace) == Some(State()) && PcOf(trace) == Some(pc) && acked == AcksOf(trace)
      ensures ok ==> CommandsOf(trace) == ArrivedCommands(schedule, |schedule|)
      ensures ok ==> EnvelopesOf(trace) + outputRx == ArrivedEnvelopes(schedule, |schedule|)
      ensures !ok ==> Run(Init, trace).Some? && PcOf(trace).Some? && failure.Some? && acked == AcksOf(trace)
      ensures !ok ==> Due(PcOf(trace).value, Run(Init, trace).value, failure.value)
      ensures !ok ==> Fails(Run(Init, trace).value, failure.value) && pos <= |schedule|
      ensures !ok ==> TakesAll(trace, PcOf(trace).value, failure.value,
                               ArrivedCommands(schedule, pos), ArrivedEnvelopes(schedule, pos))
    {
      ok := Loop();
      assert Unlock(0);
    }

    method Loop() returns (ok: bool)
      requires Valid() && pc.Idle? && visiting.None? && AtPoll()
      modifies this
      ensures old(trace) <= trace
      ensures if ok then Valid() && AtPoll() && pos == |schedule| else Ended()
    {
      while pos < |schedule|
        invariant Valid() && pc.Idle? && visiting.None? && AtPoll() && old(trace) <= trace
        decreases |schedule| - pos
      {
        Receive();
        if commandRx == [] && (parked || outputRx == []) {
          continue;
        }
        var outcome := Wake();
        if outcome == Finishes {
          outcome := Rounds();
        }
        if outcome != Finishes {
          return outcome == Stops;
        }
      }
      ok := true;
    }
  }

  lemma LoneEnvelope(s: Sched, e: Envelope)
    ensures Poll(s, [], [e]) == Offer(s, e) && CleanupsFor(s, []) == []
  {
    assert [e][..0] == [] && OfferAll(s, []) == Some(s) && OfferAll(s, [e]) == Offer(s, e);
    if Offer(s, e).Some? {
      var u := Offer(s, e).value;
      assert DroppedOwners([]) == {};
      assert u.retired - {} == u.retired && u.retiring - {} == u.retiring;
    }
  }

  lemma AckOneMore(s: Sched, cleanups: seq<Cleanup>, i: nat)
    requires i < |cleanups|
    ensures AckOwners(cleanups[..i + 1]) ==
            AckOwners(cleanups[..i]) + if cleanups[i].IncarnationAck? then {cleanups[i].owner} else {}
    ensures var t, c := Acknowledge(s, AckOwners(cleanups[..i])), cleanups[i];
            Acknowledge(s, AckOwners(cleanups[..i + 1])) ==
            if c.IncarnationAck? then t.(retired := t.retired - {c.owner}, retiring := t.retiring - {c.owner}) else t
  {
    assert cleanups[..i + 1] == cleanups[..i] + [cleanups[i]];
    var owners := AckOwners(cleanups[..i]);
    if cleanups[i].IncarnationAck? {
      assert cleanups[i] in cleanups[..i + 1];
      assert s.retired - owners - {cleanups[i].owner} == s.retired - (owners + {cleanups[i].owner});
      assert s.retiring - owners - {cleanups[i].owner} == s.retiring - (owners + {cleanups[i].owner});
    }
  }

  lemma {:induction false} CleanupOwners(s: Sched, cs: seq<Command>)
    requires ApplyAll(s, cs).Some?
    ensures AckOwners(CleanupsFor(s, cs)) == DroppedOwners(cs)
  {
    if cs != [] {
      var front, c := cs[..|cs| - 1], cs[|cs| - 1];
      CleanupOwners(s, front);
      OwnersGrow(CleanupsFor(s, front), front, CleanupFor(ApplyAll(s, front).value, c), c);
      assert front + [c] == cs;
    }
  }

  lemma OwnersGrow(cleanups: seq<Cleanup>, cs: seq<Command>, r: Cleanup, c: Command)
    requires AckOwners(cleanups) == DroppedOwners(cs)
    requires r.IncarnationAck? <==> c.DropIncarnation?
    requires r.IncarnationAck? ==> r.owner == c.owner
    ensures AckOwners(cleanups + [r]) == DroppedOwners(cs + [c])
  {
    var more := if c.DropIncarnation? then {c.owner} else {};
    assert DroppedOwners(cs + [c]) == DroppedOwners(cs) + more by {
      assert forall d :: d in cs + [c] <==> d in cs || d == c;
      if c.DropIncarnation? {
        assert c in cs + [c];
      }
    }
    assert AckOwners(cleanups + [r]) == DroppedOwners(cs) + more by {
      assert forall d :: d in cleanups + [r] <==> d in cleanups || d == r;
      if r.IncarnationAck? {
        assert r in cleanups + [r];
      }
    }
  }

  lemma {:induction false} OfferAllFails(s: Sched, es: seq<Envelope>, n: nat)
    requires n <= |es| && OfferAll(s, es[..n]).None?
    ensures OfferAll(s, es).None?
    decreases |es| - n
  {
    if n == |es| {
      assert es[..n] == es;
    } else {
      assert es[..n + 1][..n] == es[..n];
      OfferAllFails(s, es, n + 1);
    }
  }
}
