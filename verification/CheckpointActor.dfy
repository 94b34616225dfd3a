/**
 The agent's freeze, thaw and loop-top code over its mutable state, proved to take exactly
 the steps of the checkpoint model.
 */
module CheckpointActor {
  import opened Prelude
  import opened RelaySlots
  import opened CheckpointModel

  class WorkloadLatch {
    var state: Latch
    const freezer: bool

    constructor (available: bool)
      ensures state == Running(None) && freezer == available
    {
      state, freezer := Running(None), available;
    }

    method Freeze(attempt: string, writes: bool) returns (ok: bool)
      modifies this
      ensures ok == (MayFreeze(old(state), freezer, attempt) && (old(state).Running? ==> writes))
      ensures state ==
              if MayFreeze(old(state), freezer, attempt) then LatchFreeze(old(state), attempt, writes) else old(state)
    {
      if !ValidAttempt(attempt) {
        return false;
      }
      match state {
        case Frozen(current) => return current == attempt;
        case RecoveryRequired(_) => return false;
        case Running(_) =>
          if !freezer {
            return false;
          }
          // Ownership is recorded before the write: only a confirmed thaw releases it.
          state := RecoveryRequired(attempt);
          if !writes {
            return false;
          }
          state := Frozen(attempt);
          return true;
      }
    }

    method Thaw(attempt: string, writes: bool) returns (ok: bool)
      modifies this
      ensures ok == (MayThaw(old(state), attempt) && (old(state).Running? || (freezer && writes)))
      ensures state ==
              if MayThaw(old(state), attempt) then LatchThaw(old(state), freezer, attempt, writes) else old(state)
    {
      if !ValidAttempt(attempt) {
        return false;
      }
      if state.Running? {
        return state.lastThawed == Some(attempt);
      }
      if state.attempt != attempt {
        return false;
      }
      state := RecoveryRequired(attempt);
      if !freezer || !writes {
        return false;
      }
      state := Running(Some(attempt));
      return true;
    }
  }

  /** Keep the live sessions, under the generation that ends. */
  method KeepLive(sessions: map<nat, Session>, generation: nat) returns (kept: map<(nat, nat), Session>)
    ensures kept == Survivors(sessions, generation)
  {
    kept := map[];
    var left := sessions.Keys;
    while left != {}
      invariant left <= sessions.Keys
      invariant forall k :: k in kept <==> k.0 == generation && k.1 in sessions.Keys - left && !sessions[k.1].exited
      invariant forall k :: k in kept ==> kept[k] == sessions[k.1]
      decreases |left|
    {
      var id :| id in left;
      left := left - {id};
      if !sessions[id].exited {
        kept := kept[(generation, id) := sessions[id]];
      }
    }
  }

  /** Keep the sessions outside a range. */
  method KeepOutside(sessions: map<nat, Session>, start: nat, end: nat) returns (kept: map<nat, Session>)
    ensures kept == Outside(sessions, start, end)
  {
    kept := sessions;
    var left := sessions.Keys;
    while left != {}
      invariant left <= sessions.Keys
      invariant forall id :: id in kept <==> id in sessions && (id in left || !(start <= id < end))
      invariant forall id :: id in kept ==> kept[id] == sessions[id]
      decreases |left|
    {
      var id :| id in left;
      left := left - {id};
      if start <= id < end {
        kept := kept - {id};
      }
    }
  }

  /** The clients of the agent: who is connected, what they started, and what a restore set aside. */
  class ClientTable {
    var restoredAttempt: Option<string>
    var incarnations: map<nat, Incarnation>
    var sessions: map<nat, Session>
    var detached: map<(nat, nat), Session>
    var generation: nat
    ghost var custody: seq<Custody>
    ghost var stamps: seq<Stamp>
    ghost var reported: set<nat>

    ghost function View(): Clients
      reads this
    {
      Clients(restoredAttempt, incarnations, sessions, detached, generation, custody, stamps, reported)
    }

    constructor ()
      ensures View() == NoClients
    {
      restoredAttempt, incarnations, sessions, detached, generation := None, map[], map[], map[], 0;
      custody, stamps, reported := [], [], {};
    }

    /** A new capture forgets which attempt was restored. */
    method NewCapture()
      modifies this
      ensures View() == old(View()).(restored := None, custody := old(View()).custody + [FreshFreeze])
    {
      restoredAttempt := None;
      custody := custody + [FreshFreeze];
    }

    /** Set the inherited clients aside and start a generation with none. */
    method RestoreClientState(attempt: string)
      modifies this
      ensures View() == Detach(old(View()), attempt)
    {
      var live := KeepLive(sessions, generation);
      detached := detached + live;
      sessions, incarnations := map[], map[];
      custody := custody + [Detached(generation)];
      generation := generation + 1;
      restoredAttempt := Some(attempt);
    }

    /** A client takes its range; false ends the agent. */
    method Connected(start: nat, end: nat, incarnation: Incarnation) returns (ok: bool)
      modifies `incarnations
      ensures ok == Lease(old(incarnations), start, end, incarnation).Some?
      ensures incarnations == if ok then Lease(old(incarnations), start, end, incarnation).value else old(incarnations)
    {
      var slot := ValidateRange(start, end);
      if slot.None? || incarnation == 0 {
        return false;
      }
      if slot.value in incarnations && incarnations[slot.value] != incarnation {
        return false;
      }
      incarnations := incarnations[slot.value := incarnation];
      return true;
    }

    /** Register a spawned execution under its correlation. */
    method Spawned(id: nat, execution: nat)
      requires execution == |stamps|
      modifies `sessions, `stamps
      ensures View() == SpawnExec(old(View()), id)
    {
      sessions := sessions[id := Session(execution, false)];
      stamps := stamps + [Stamp(generation, id, Owner(incarnations, id))];
    }

    /** A departing client takes the sessions of its range with it; a stale departure is ignored. */
    method Departed(start: nat, end: nat, claimed: Option<Incarnation>) returns (ok: bool, removed: bool)
      modifies `sessions, `incarnations
      ensures ok == Unlease(old(incarnations), start, end, claimed).Some?
      ensures removed == Departs(old(incarnations), start, end, claimed)
      ensures View() == if ok then Leave(old(View()), start, end, claimed) else old(View())
    {
      var slot := ValidateRange(start, end);
      if slot.None? {
        return false, false;
      }
      if claimed.Some? {
        if slot.value !in incarnations || incarnations[slot.value] != claimed.value {
          return true, false;
        }
        incarnations := incarnations - {slot.value};
      } else if slot.value in incarnations {
        return false, false;
      }
      sessions := KeepOutside(sessions, start, end);
      return true, true;
    }

    /**
     An exit event; an inherited one touches only what its own generation left behind, and one
     of a departed owner touches nothing. A session with unread output is retained.
     */
    method Exited(stamp: Stamp, drained: bool, ghost x: nat)
      requires x < |stamps| && stamps[x] == stamp
      modifies `sessions, `detached, `reported
      ensures View() == ReportExit(old(View()), x, drained)
    {
      reported := reported + {x};
      if stamp.generation != generation {
        detached := detached - {(stamp.generation, stamp.id)};
        return;
      }
      if stamp.owner.Some? && Owner(incarnations, stamp.id) != stamp.owner {
        return;
      }
      if stamp.id in sessions {
        sessions := sessions[stamp.id := sessions[stamp.id].(exited := true)];
        if drained {
          sessions := sessions - {stamp.id};
        }
      }
    }

    /** The exit retained for unread output goes once everything is acknowledged. */
    method Acknowledged(id: nat, drained: bool)
      modifies `sessions
      ensures View() == Acknowledge(old(View()), id, drained)
    {
      if id in sessions && drained && sessions[id].exited {
        sessions := sessions - {id};
      }
    }
  }

  class Actor {
    const workload: WorkloadLatch
    const table: ClientTable
    var position: Position
    var pendingFreeze: Option<FreezeRequest>
    var abortedAttempt: Option<string>
    var outputParked: bool
    var resumeAfterFlush: bool
    var frozenInput: Option<Position>
    var frozenBulk: nat
    var bulkWire: nat
    var bulkParked: bool
    var outBuf: seq<Reply>
    var mustRelease: bool
    ghost var notes: seq<Note>

    ghost function GateView(): Gate
      reads this, workload
    {
      Gate(position, pendingFreeze, abortedAttempt, outputParked, resumeAfterFlush, frozenInput, frozenBulk,
           workload.state, workload.freezer, BulkLane(bulkWire, bulkParked), outBuf, mustRelease, notes)
    }

    ghost function View(): Agent
      reads this, workload, table
    {
      Agent(GateView(), table.View())
    }

    constructor (available: bool)
      ensures View() == Init(available) && fresh(workload) && fresh(table)
    {
      workload := new WorkloadLatch(available);
      table := new ClientTable();
      position, pendingFreeze, abortedAttempt := Origin, None, None;
      outputParked, resumeAfterFlush, frozenInput, frozenBulk := false, false, None, 0;
      bulkWire, bulkParked, outBuf, mustRelease := 0, false, [], false;
      notes := [];
    }

    /** Ordinary input; false when it crossed the frozen cut or exceeds the credit, which ends the agent. */
    method ReceiveFrame(lane: Lane, bytes: nat, credited: bool) returns (ok: bool)
      requires !mustRelease
      modifies `position
      ensures ok == (Enabled(old(View()), Input(lane, bytes)) && credited)
      ensures View() == if ok then Next(old(View()), Input(lane, bytes)) else old(View())
    {
      if outputParked || !credited {
        return false;
      }
      position := Advance(position, lane, bytes);
      return true;
    }

    /** The replies of one batch are flushed; after a thaw nothing is decoded until the loop top. */
    method FinishBatch()
      modifies `outBuf, `mustRelease
      ensures View() == Next(old(View()), EndBatch)
    {
      outBuf := [];
      mustRelease := resumeAfterFlush;
    }

    method ParkOutput(r: FreezeRequest)
      requires workload.state == Frozen(r.attempt)
      modifies `outputParked, `frozenInput, `frozenBulk, `bulkParked, `outBuf, `notes
      ensures GateView() == Park(old(GateView()), r)
    {
      outputParked := true;
      frozenInput := Some(position);
      bulkParked := true;
      frozenBulk := bulkWire;
      outBuf := outBuf + [FrozenReply(r.attempt, frozenBulk)];
      notes := notes + [FrozenAt(r, position, frozenBulk)];
    }

    /** The declared cut was received exactly: latch the workload, then close the heartbeat gate. */
    method Capture(r: FreezeRequest, o: Outcome)
      requires !Refused(GateView(), r) && r.cut == position
      modifies this, workload, table
      ensures View() == Freeze(old(View()), r, o)
    {
      abortedAttempt, pendingFreeze := None, None;
      var wasFrozen := !workload.state.Running?;
      var held := workload.Freeze(r.attempt, o.freezes);
      if !held {
        outBuf := outBuf + [ErrorReply(r.attempt)];
        return;
      }
      if !wasFrozen {
        table.NewCapture();
      }
      if o.pauses {
        ParkOutput(r);
      } else {
        var _ := workload.Thaw(r.attempt, o.thaws);
        outBuf := outBuf + [ErrorReply(r.attempt)];
      }
    }

    method HandleFreeze(r: FreezeRequest, o: Outcome)
      modifies this, workload, table
      ensures View() == Freeze(old(View()), r, o)
    {
      if pendingFreeze.Some? && pendingFreeze.value != r {
        outBuf := outBuf + [ErrorReply(r.attempt)];
        return;
      }
      if !workload.state.Running? {
        if !OwnsFreeze(workload.state, r.attempt) || (frozenInput.Some? && frozenInput.value != r.cut) {
          outBuf := outBuf + [ErrorReply(r.attempt)];
          return;
        }
      }
      if r.cut.controlBytes != position.controlBytes || r.cut.controlFrames != position.controlFrames
         || r.cut.bulkBytes < position.bulkBytes || r.cut.bulkFrames < position.bulkFrames
      {
        outBuf := outBuf + [ErrorReply(r.attempt)];
        return;
      }
      if r.cut != position {
        abortedAttempt, pendingFreeze := None, Some(r);
        return;
      }
      Capture(r, o);
    }

    method Unfreeze(attempt: string, o: Outcome)
      modifies `resumeAfterFlush, `frozenInput, `outBuf, `notes, workload
      ensures GateView() == Unlatch(old(GateView()), attempt, o)
    {
      var freed := workload.Thaw(attempt, o.thaws);
      if freed {
        resumeAfterFlush := true;
        frozenInput := None;
        outBuf := outBuf + [ThawedReply(attempt)];
        notes := notes + [Released];
      } else {
        outBuf := outBuf + [ErrorReply(attempt)];
      }
    }

    method HandleThaw(attempt: string, mode: Mode, o: Outcome)
      modifies this, workload, table
      ensures View() == Thaw(old(View()), attempt, mode, o)
    {
      if pendingFreeze.Some? && pendingFreeze.value.attempt != attempt {
        outBuf := outBuf + [ErrorReply(attempt)];
        return;
      }
      if workload.state.Running? && (pendingFreeze.Some? || abortedAttempt == Some(attempt)) {
        if mode.Restore? {
          outBuf := outBuf + [ErrorReply(attempt)];
          return;
        }
        if pendingFreeze.Some? {
          pendingFreeze := None;
          outBuf := outBuf + [ErrorReply(attempt)];
        }
        abortedAttempt := Some(attempt);
        outBuf := outBuf + [ThawedReply(attempt)];
        return;
      }
      if mode.Restore? && table.restoredAttempt != Some(attempt) {
        if !OwnsFreeze(workload.state, attempt) {
          outBuf := outBuf + [ErrorReply(attempt)];
          return;
        }
        table.RestoreClientState(attempt);
      }
      Unfreeze(attempt, o);
    }

    /** Start of the outer loop: release a flushed thaw, then retry a freeze whose bulk prefix arrived. */
    method OuterLoopTop(o: Outcome)
      modifies this, workload, table
      ensures View() == LoopTop(old(View()), o)
    {
      if resumeAfterFlush {
        outBuf := [];
        bulkParked := false;
        resumeAfterFlush := false;
        outputParked := false;
      }
      mustRelease := false;
      if pendingFreeze.Some? && position.bulkBytes >= pendingFreeze.value.cut.bulkBytes
         && position.bulkFrames >= pendingFreeze.value.cut.bulkFrames
      {
        var r := pendingFreeze.value;
        pendingFreeze := None;
        HandleFreeze(r, o);
        outBuf := [];
      }
    }
  }
}
