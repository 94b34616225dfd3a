/**
 What the host can rely on, in terms of what it sent and received: the counters are the input of
 each lane, replies follow from plain conditions, pending freezes are retried and thawed writers go.
 */
module CheckpointReplies {
  import opened Prelude
  import opened CheckpointModel

  // ---- the counters ----

  /** Bytes of the lane's frames among the events. */
  function BytesOn(evs: seq<Event>, lane: Lane): nat
  {
    if evs == [] then 0
    else
      BytesOn(evs[..|evs| - 1], lane) +
      if evs[|evs| - 1].Input? && evs[|evs| - 1].lane == lane then evs[|evs| - 1].bytes else 0
  }

  /** The number of the lane's frames. */
  function FramesOn(evs: seq<Event>, lane: Lane): nat
  {
    if evs == [] then 0
    else FramesOn(evs[..|evs| - 1], lane) + if evs[|evs| - 1].Input? && evs[|evs| - 1].lane == lane then 1 else 0
  }

  /** Wire bytes of the bulk records written. */
  function WrittenBy(evs: seq<Event>): nat
  {
    if evs == [] then 0
    else WrittenBy(evs[..|evs| - 1]) + if evs[|evs| - 1].BulkRecord? then evs[|evs| - 1].wireBytes else 0
  }

  predicate Counts(g: Gate, evs: seq<Event>)
  {
    && g.position.controlBytes == BytesOn(evs, Control) && g.position.controlFrames == FramesOn(evs, Control)
    && g.position.bulkBytes == BytesOn(evs, Data) && g.position.bulkFrames == FramesOn(evs, Data)
    && g.bulk.wire == WrittenBy(evs)
  }

  lemma FreezeMovesNothing(g: Gate, r: FreezeRequest, o: Outcome)
    ensures GateFreeze(g, r, o).position == g.position && GateFreeze(g, r, o).bulk.wire == g.bulk.wire
  {
  }

  lemma UnlatchMovesNothing(g: Gate, a: string, o: Outcome)
    ensures Unlatch(g, a, o).position == g.position && Unlatch(g, a, o).bulk == g.bulk
  {
  }

  lemma ThawMovesNothing(s: Agent, a: string, mode: Mode, o: Outcome)
    ensures GateThaw(s, a, mode, o).position == s.gate.position && GateThaw(s, a, mode, o).bulk == s.gate.bulk
  {
    UnlatchMovesNothing(s.gate, a, o);
  }

  lemma TopMovesNothing(s: Agent, o: Outcome)
    ensures LoopTop(s, o).gate.position == s.gate.position && LoopTop(s, o).gate.bulk.wire == s.gate.bulk.wire
  {
    var g := Release(s.gate);
    if PendingReady(g) {
      FreezeMovesNothing(g.(pending := None), g.pending.value, o);
    }
  }

  lemma NextCounts(s: Agent, evs: seq<Event>, ev: Event)
    requires Counts(s.gate, evs) && Enabled(s, ev)
    ensures Counts(Next(s, ev).gate, evs + [ev])
  {
    assert (evs + [ev])[..|evs|] == evs;
    match ev
    case FreezeMessage(r, o) => FreezeMovesNothing(s.gate, r, o);
    case ThawMessage(a, mode, o) => ThawMovesNothing(s, a, mode, o);
    case Top(o) => TopMovesNothing(s, o);
    case _ =>
  }

  /**
   In every run the four counters are the bytes and frames of their own lanes, and the bulk target what
   was written.
   */
  lemma {:induction false} CountersCountInput(freezer: bool, evs: seq<Event>)
    requires Run(Init(freezer), evs).Some?
    ensures Counts(Run(Init(freezer), evs).value.gate, evs)
  {
    if evs != [] {
      var front, ev := evs[..|evs| - 1], evs[|evs| - 1];
      CountersCountInput(freezer, front);
      NextCounts(Run(Init(freezer), front).value, front, ev);
      assert front + [ev] == evs;
    }
  }

  /** The report names what had been received and written by the first `n` events. */
  predicate ReportOf(x: Note, evs: seq<Event>)
  {
    x.FrozenAt? ==>
      && x.request.cut ==
         Position(BytesOn(evs, Control), FramesOn(evs, Control), BytesOn(evs, Data), FramesOn(evs, Data))
      && x.bulkTarget == WrittenBy(evs)
  }

  /** `after` adds at most one note to `before`, about what `evs` received. */
  predicate OneNote(before: seq<Note>, after: seq<Note>, evs: seq<Event>)
  {
    || after == before
    || (|after| == |before| + 1 && before <= after && ReportOf(after[|before|], evs))
  }

  lemma FreezeNotes(g: Gate, r: FreezeRequest, o: Outcome)
    ensures var notes := GateFreeze(g, r, o).notes;
            notes == g.notes || (r.cut == g.position && notes == g.notes + [FrozenAt(r, g.position, g.bulk.wire)])
  {
  }

  lemma UnlatchNotes(g: Gate, a: string, o: Outcome)
    ensures Unlatch(g, a, o).notes == g.notes || Unlatch(g, a, o).notes == g.notes + [Released]
  {
  }

  lemma ThawNotes(s: Agent, a: string, mode: Mode, o: Outcome)
    ensures GateThaw(s, a, mode, o).notes == s.gate.notes || GateThaw(s, a, mode, o).notes == s.gate.notes + [Released]
  {
    UnlatchNotes(s.gate, a, o);
  }

  lemma FreezeReports(g: Gate, r: FreezeRequest, o: Outcome, evs: seq<Event>)
    requires Counts(g, evs)
    ensures OneNote(g.notes, GateFreeze(g, r, o).notes, evs)
  {
    FreezeNotes(g, r, o);
  }

  /** One event adds at most one note, and it reports what came before. */
  lemma NextNotes(s: Agent, evs: seq<Event>, ev: Event)
    requires Counts(s.gate, evs) && Enabled(s, ev)
    ensures OneNote(s.gate.notes, Next(s, ev).gate.notes, evs)
  {
    match ev
    case FreezeMessage(r, o) => FreezeReports(s.gate, r, o, evs);
    case ThawMessage(a, mode, o) => ThawNotes(s, a, mode, o);
    case Top(o) =>
      var g := Release(s.gate);
      if PendingReady(g) {
        FreezeReports(g.(pending := None), g.pending.value, o, evs);
      }
    case _ =>
  }

  /** Note `i` of the run was made by event `n`, and if it is a report, names what the events before it received. */
  ghost predicate MadeBy(freezer: bool, evs: seq<Event>, i: nat, n: nat)
    requires Run(Init(freezer), evs).Some?
  {
    && n < |evs| && i < |Run(Init(freezer), evs).value.gate.notes|
    && Run(Init(freezer), evs[..n]).Some? && |Run(Init(freezer), evs[..n]).value.gate.notes| == i
    && ReportOf(Run(Init(freezer), evs).value.gate.notes[i], evs[..n])
  }

  lemma MadeEarlier(freezer: bool, evs: seq<Event>, ev: Event, i: nat, n: nat)
    requires Run(Init(freezer), evs + [ev]).Some? && Run(Init(freezer), evs).Some? && MadeBy(freezer, evs, i, n)
    requires Run(Init(freezer), evs).value.gate.notes <= Run(Init(freezer), evs + [ev]).value.gate.notes
    ensures MadeBy(freezer, evs + [ev], i, n)
  {
    assert (evs + [ev])[..n] == evs[..n];
  }

  lemma MadeNow(freezer: bool, evs: seq<Event>, ev: Event, i: nat)
    requires Run(Init(freezer), evs + [ev]).Some? && Run(Init(freezer), evs).Some?
    requires i == |Run(Init(freezer), evs).value.gate.notes| < |Run(Init(freezer), evs + [ev]).value.gate.notes|
    requires ReportOf(Run(Init(freezer), evs + [ev]).value.gate.notes[i], evs)
    ensures MadeBy(freezer, evs + [ev], i, |evs|)
  {
    assert (evs + [ev])[..|evs|] == evs;
  }

  /**
   In every run each Frozen report names exactly the bytes and frames received on each lane, and
   the bulk bytes written, when it was made.
   */
  lemma {:induction false} FrozenNamesWhatWasReceived(freezer: bool, evs: seq<Event>, i: nat)
    requires Run(Init(freezer), evs).Some? && i < |Run(Init(freezer), evs).value.gate.notes|
    ensures exists n :: MadeBy(freezer, evs, i, n)
    decreases |evs|
  {
    var front, ev := evs[..|evs| - 1], evs[|evs| - 1];
    assert front + [ev] == evs;
    var s := Run(Init(freezer), front).value;
    CountersCountInput(freezer, front);
    NextNotes(s, front, ev);
    if i < |s.gate.notes| {
      FrozenNamesWhatWasReceived(freezer, front, i);
      var n: nat :| MadeBy(freezer, front, i, n);
      MadeEarlier(freezer, front, ev, i, n);
    } else {
      MadeNow(freezer, front, ev, i);
    }
  }

  // ---- replies ----

  /**
   A freeze captures exactly when nothing else is pending or frozen, the cut is what was received, and
   the freezer works.
   */
  lemma CapturesIff(g: Gate, r: FreezeRequest, o: Outcome)
    ensures Captures(g, r, o) <==>
            && (g.pending.None? || g.pending == Some(r))
            && r.cut == g.position
            && 0 < |r.attempt| <= 128 && (forall i :: 0 <= i < |r.attempt| ==> '!' <= r.attempt[i] <= '~')
            && (match g.latch
                case Running(_) => g.freezer && o.freezes
                case Frozen(a) => a == r.attempt && (g.frozenInput.Some? ==> g.frozenInput.value == r.cut)
                case RecoveryRequired(_) => false)
  {
  }

  /** A freeze waits exactly when nothing conflicts and only bulk input is missing. */
  lemma FreezeWaitsIff(g: Gate, r: FreezeRequest, o: Outcome)
    requires g.pending.None?
    ensures GateFreeze(g, r, o).pending == Some(r) <==>
            && (match g.latch
                case Running(_) => true
                case Frozen(a) =>
                  ValidAttempt(a) && a == r.attempt && (g.frozenInput.Some? ==> g.frozenInput.value == r.cut)
                case RecoveryRequired(_) => false)
            && r.cut.controlBytes == g.position.controlBytes && r.cut.controlFrames == g.position.controlFrames
            && r.cut.bulkBytes >= g.position.bulkBytes && r.cut.bulkFrames >= g.position.bulkFrames
            && r.cut != g.position
  {
  }

  predicate SaysThawed(before: seq<Reply>, after: seq<Reply>, a: string)
  {
    |after| > |before| && after[|after| - 1] == ThawedReply(a)
  }

  lemma UnlatchReplyIff(g: Gate, a: string, o: Outcome)
    ensures SaysThawed(g.outbox, Unlatch(g, a, o).outbox, a) <==>
            && ValidAttempt(a)
            && (match g.latch
                case Running(last) => last == Some(a)
                case Frozen(b) => b == a && g.freezer && o.thaws
                case RecoveryRequired(b) => b == a && g.freezer && o.thaws)
  {
  }

  lemma AbandonReplies(g: Gate, a: string)
    ensures SaysThawed(g.outbox, Abandon(g, a).outbox, a)
  {
  }

  lemma ErrorIsNotThawed(g: Gate, a: string)
    ensures !SaysThawed(g.outbox, Answer(g, ErrorReply(a)).outbox, a)
  {
  }

  /**
   Thawed is the reply exactly when no other freeze is pending and: the attempt's own cut never
   completed and is given up, or its freeze is released, or it was the last one released; a restore
   needs a freeze that is held or was already restored.
   */
  lemma ThawedReplyIff(s: Agent, a: string, mode: Mode, o: Outcome)
    ensures var g := s.gate;
            SaysThawed(g.outbox, Thaw(s, a, mode, o).gate.outbox, a) <==>
            && (g.pending.Some? ==> g.pending.value.attempt == a)
            && if g.latch.Running? && (g.pending.Some? || g.aborted == Some(a)) then mode.Continue?
               else
                 && 0 < |a| <= 128 && (forall i :: 0 <= i < |a| ==> '!' <= a[i] <= '~')
                 && (mode.Continue? || s.clients.restored == Some(a) || g.latch == Frozen(a))
                 && (match g.latch
                     case Running(last) => last == Some(a)
                     case Frozen(b) => b == a && g.freezer && o.thaws
                     case RecoveryRequired(b) => b == a && g.freezer && o.thaws)
  {
    UnlatchReplyIff(s.gate, a, o);
    AbandonReplies(s.gate, a);
    ErrorIsNotThawed(s.gate, a);
  }

  // ---- every request is answered ----

  /** The reply is one to this freeze: Frozen or an error, for its attempt. */
  predicate Answers(r: Reply, attempt: string)
  {
    !r.ThawedReply? && r.attempt == attempt
  }

  /** A freeze is answered once, at once, or waits for bulk input and is not answered yet. */
  lemma FreezeIsAnsweredOrWaits(g: Gate, r: FreezeRequest, o: Outcome)
    ensures var h := GateFreeze(g, r, o);
            || (h.outbox == g.outbox && h.pending == Some(r) && r.cut != g.position)
            || (|h.outbox| == |g.outbox| + 1 && g.outbox <= h.outbox && Answers(h.outbox[|g.outbox|], r.attempt))
  {
  }

  /** A freeze that is given up while it waits is answered before the thaw that gives it up. */
  lemma AbandonedFreezeIsAnswered(s: Agent, r: FreezeRequest, o: Outcome)
    requires s.gate.latch.Running? && s.gate.pending == Some(r)
    ensures var t := Thaw(s, r.attempt, Continue, o);
            && t.gate.pending.None? && t.clients == s.clients
            && t.gate.outbox == s.gate.outbox + [ErrorReply(r.attempt), ThawedReply(r.attempt)]
  {
    assert [ErrorReply(r.attempt)] + [ThawedReply(r.attempt)] == [ErrorReply(r.attempt), ThawedReply(r.attempt)];
  }

  // ---- who owns the workload ----

  /**
   What a capture makes of the latch: a failed freeze or pause leaves it with the attempt until it is
   surely thawed.
   */
  lemma FreezeLatch(g: Gate, r: FreezeRequest, o: Outcome)
    requires g.pending.None? && r.cut == g.position && ValidAttempt(r.attempt)
    requires g.latch.Running? && g.freezer
    ensures GateFreeze(g, r, o).latch ==
            if !o.freezes then RecoveryRequired(r.attempt)
            else if o.pauses then Frozen(r.attempt)
            else if o.thaws then Running(Some(r.attempt))
            else RecoveryRequired(r.attempt)
  {
  }

  /** An attempt that owns the workload, frozen or to be recovered, loses it only to its own thaw or failed retry. */
  predicate OwnedBy(l: Latch, a: string)
  {
    !l.Running? && l.attempt == a
  }

  /**
   The event releases the workload: a thaw of the attempt, or its own retry whose pause failed, and the
   freezer obeyed.
   */
  predicate Releases(g: Gate, ev: Event, a: string)
  {
    match ev
    case ThawMessage(b, _, o) => b == a && g.freezer && o.thaws
    case FreezeMessage(r, o) => r.attempt == a && !o.pauses && g.freezer && o.thaws
    case Top(o) => g.pending.Some? && g.pending.value.attempt == a && !o.pauses && g.freezer && o.thaws
    case _ => false
  }

  lemma FreezeKeepsOwner(g: Gate, r: FreezeRequest, o: Outcome, a: string)
    requires OwnedBy(g.latch, a)
    ensures OwnedBy(GateFreeze(g, r, o).latch, a) || (r.attempt == a && !o.pauses && g.freezer && o.thaws)
    ensures GateFreeze(g, r, o).freezer == g.freezer
  {
  }

  lemma ThawKeepsOwner(s: Agent, b: string, mode: Mode, o: Outcome, a: string)
    requires OwnedBy(s.gate.latch, a)
    ensures OwnedBy(GateThaw(s, b, mode, o).latch, a) || (b == a && s.gate.freezer && o.thaws)
  {
  }

  lemma OwnerKeeps(s: Agent, ev: Event, a: string)
    requires OwnedBy(s.gate.latch, a) && Enabled(s, ev)
    ensures OwnedBy(Next(s, ev).gate.latch, a) || Releases(s.gate, ev, a)
    ensures Next(s, ev).gate.freezer == s.gate.freezer
  {
    match ev
    case FreezeMessage(r, o) => FreezeKeepsOwner(s.gate, r, o, a);
    case ThawMessage(b, mode, o) => ThawKeepsOwner(s, b, mode, o, a);
    case Top(o) =>
      var g := Release(s.gate);
      if PendingReady(g) {
        FreezeKeepsOwner(g.(pending := None), g.pending.value, o, a);
      }
    case _ =>
  }

  /** Over any events none of which releases it, the workload stays with its attempt, whatever others ask for. */
  lemma {:induction false} WorkloadStaysOwned(s: Agent, evs: seq<Event>, a: string)
    requires OwnedBy(s.gate.latch, a) && Run(s, evs).Some?
    requires forall n :: 0 <= n < |evs| && Run(s, evs[..n]).Some? ==> !Releases(Run(s, evs[..n]).value.gate, evs[n], a)
    ensures OwnedBy(Run(s, evs).value.gate.latch, a)
    decreases |evs|
  {
    if evs != [] {
      var front := evs[..|evs| - 1];
      forall n | 0 <= n < |front| && Run(s, front[..n]).Some?
        ensures !Releases(Run(s, front[..n]).value.gate, front[n], a)
      {
        assert front[..n] == evs[..n];
      }
      WorkloadStaysOwned(s, front, a);
      OwnerKeeps(Run(s, front).value, evs[|evs| - 1], a);
    }
  }

  // ---- the loop top ----

  /** Both ordinary writers may go. */
  predicate Free(g: Gate)
  {
    !g.outputParked && !g.bulk.parked && !g.mustRelease && !g.resumeAfterFlush
  }

  lemma ReleaseOwed(s: Agent, ev: Event)
    requires s.gate.resumeAfterFlush && Enabled(s, ev) && !ev.Top?
    ensures Next(s, ev).gate.resumeAfterFlush
  {
  }

  lemma {:induction false} ReleaseStaysOwed(s: Agent, evs: seq<Event>)
    requires s.gate.resumeAfterFlush && Run(s, evs).Some? && forall i :: 0 <= i < |evs| ==> !evs[i].Top?
    ensures Run(s, evs).value.gate.resumeAfterFlush
  {
    if evs != [] {
      ReleaseStaysOwed(s, evs[..|evs| - 1]);
      ReleaseOwed(Run(s, evs[..|evs| - 1]).value, evs[|evs| - 1]);
    }
  }

  /**
   Whatever happens between a thaw that frees the workload and the next loop top, that loop top
   flushes the replies and lets both writers go, unless a freeze that waited is ready.
   */
  lemma ThawedWritersGo(s: Agent, a: string, mode: Mode, o: Outcome, evs: seq<Event>, p: Outcome)
    requires !s.gate.latch.Running? && Thaw(s, a, mode, o).gate.latch.Running?
    requires Run(Thaw(s, a, mode, o), evs).Some? && forall i :: 0 <= i < |evs| ==> !evs[i].Top?
    requires var g := Run(Thaw(s, a, mode, o), evs).value.gate;
             g.pending.Some? ==> || g.position.bulkBytes < g.pending.value.cut.bulkBytes
                                 || g.position.bulkFrames < g.pending.value.cut.bulkFrames
    ensures var t := Next(Run(Thaw(s, a, mode, o), evs).value, Top(p));
            && Free(t.gate) && t.gate.outbox == []
            && Enabled(t, BulkRecord(0)) && Enabled(t, Input(Control, 0)) && Enabled(t, Spawn(0))
  {
    ThawOwesRelease(s, a, mode, o);
    ReleaseStaysOwed(Thaw(s, a, mode, o), evs);
    TopFrees(Run(Thaw(s, a, mode, o), evs).value, p);
  }

  lemma ThawOwesRelease(s: Agent, a: string, mode: Mode, o: Outcome)
    requires !s.gate.latch.Running? && Thaw(s, a, mode, o).gate.latch.Running?
    ensures Thaw(s, a, mode, o).gate.resumeAfterFlush
  {
  }

  lemma TopFrees(s: Agent, p: Outcome)
    requires s.gate.resumeAfterFlush && !PendingReady(s.gate)
    ensures var t := Next(s, Top(p));
            && Free(t.gate) && t.gate.outbox == []
            && Enabled(t, BulkRecord(0)) && Enabled(t, Input(Control, 0)) && Enabled(t, Spawn(0))
  {
  }

  /** At the loop top a freeze that waited stays exactly as long as bulk input is missing. */
  lemma PendingFreezeIsRetried(s: Agent, r: FreezeRequest, p: Outcome)
    requires s.gate.pending == Some(r)
    ensures var t := Next(s, Top(p));
            && (t.gate.pending == Some(r) <==>
                s.gate.position.bulkBytes < r.cut.bulkBytes || s.gate.position.bulkFrames < r.cut.bulkFrames)
            && (t.gate.pending != Some(r) ==> t.gate.pending.None? && t.gate.outbox == [])
  {
  }

  /** And is captured, with a report of its cut, exactly when the input stopped at the cut and the capture works. */
  lemma PendingFreezeIsCaptured(s: Agent, r: FreezeRequest, p: Outcome)
    requires s.gate.pending == Some(r) && s.gate.latch.Running? && s.gate.freezer && ValidAttempt(r.attempt)
    ensures var t := Next(s, Top(p));
            (t.gate.latch == Frozen(r.attempt) && t.gate.outputParked && t.gate.bulk.parked
             && t.gate.notes == s.gate.notes + [FrozenAt(r, r.cut, s.gate.bulk.wire)]) <==>
            r.cut == s.gate.position && p.freezes && p.pauses
  {
    var g := Release(s.gate);
    if PendingReady(g) {
      var h := g.(pending := None);
      assert h.latch == s.gate.latch && h.position == s.gate.position && h.notes == s.gate.notes;
    }
  }

  // ---- repeated thaws ----

  /** Whoever froze the workload, no given-up attempt is remembered with it. */
  predicate ForgetsAborted(g: Gate)
  {
    g.latch.Running? || g.aborted.None?
  }

  lemma FreezeForgets(g: Gate, r: FreezeRequest, o: Outcome)
    requires ForgetsAborted(g)
    ensures ForgetsAborted(GateFreeze(g, r, o))
  {
  }

  lemma UnlatchForgets(g: Gate, a: string, o: Outcome)
    requires ForgetsAborted(g)
    ensures ForgetsAborted(Unlatch(g, a, o))
  {
  }

  lemma ThawForgets(s: Agent, a: string, mode: Mode, o: Outcome)
    requires ForgetsAborted(s.gate)
    ensures ForgetsAborted(GateThaw(s, a, mode, o))
  {
    UnlatchForgets(s.gate, a, o);
  }

  lemma NextForgets(s: Agent, ev: Event)
    requires ForgetsAborted(s.gate) && Enabled(s, ev)
    ensures ForgetsAborted(Next(s, ev).gate)
  {
    match ev
    case FreezeMessage(r, o) => FreezeForgets(s.gate, r, o);
    case ThawMessage(a, mode, o) => ThawForgets(s, a, mode, o);
    case Top(o) =>
      var g := Release(s.gate);
      if PendingReady(g) {
        FreezeForgets(g.(pending := None), g.pending.value, o);
      }
    case _ =>
  }

  lemma {:induction false} RunForgets(freezer: bool, evs: seq<Event>)
    requires Run(Init(freezer), evs).Some?
    ensures ForgetsAborted(Run(Init(freezer), evs).value.gate)
  {
    if evs != [] {
      RunForgets(freezer, evs[..|evs| - 1]);
      NextForgets(Run(Init(freezer), evs[..|evs| - 1]).value, evs[|evs| - 1]);
    }
  }

  /** The attempt was the last to be thawed, and no freeze has come since. */
  predicate LastThawed(s: Agent, a: string)
  {
    s.gate.latch == Running(Some(a)) && s.gate.pending.None? && s.gate.aborted.None?
  }

  lemma ThawLeavesLast(s: Agent, ev: Event, a: string)
    requires LastThawed(s, a) && Enabled(s, ev) && !ev.FreezeMessage?
    ensures LastThawed(Next(s, ev), a) && Next(s, ev).clients.restored == s.clients.restored
  {
  }

  lemma {:induction false} StaysLastThawed(s: Agent, evs: seq<Event>, a: string)
    requires LastThawed(s, a) && Run(s, evs).Some? && forall i :: 0 <= i < |evs| ==> !evs[i].FreezeMessage?
    ensures LastThawed(Run(s, evs).value, a) && Run(s, evs).value.clients.restored == s.clients.restored
  {
    if evs != [] {
      StaysLastThawed(s, evs[..|evs| - 1], a);
      ThawLeavesLast(Run(s, evs[..|evs| - 1]).value, evs[|evs| - 1], a);
    }
  }

  lemma FreeingThaw(s: Agent, a: string, mode: Mode, o: Outcome)
    requires !s.gate.latch.Running? && s.gate.pending.None? && s.gate.aborted.None?
    requires Thaw(s, a, mode, o).gate.latch.Running?
    ensures LastThawed(Thaw(s, a, mode, o), a) && ValidAttempt(a)
    ensures mode.Restore? ==> Thaw(s, a, mode, o).clients.restored == Some(a)
  {
  }

  /**
   A thaw that freed the workload may be repeated, in the same mode, any number of events later:
   until another freeze is requested it is answered Thawed again, whatever the freezer does.
   */
  lemma ThawIsRepeatable(freezer: bool, before: seq<Event>, a: string, mode: Mode, o: Outcome,
                         evs: seq<Event>, again: Outcome)
    requires Run(Init(freezer), before).Some?
    requires var s := Run(Init(freezer), before).value;
             && !s.gate.latch.Running? && s.gate.pending.None? && Thaw(s, a, mode, o).gate.latch.Running?
             && Run(Thaw(s, a, mode, o), evs).Some?
    requires forall i :: 0 <= i < |evs| ==> !evs[i].FreezeMessage?
    ensures var t := Run(Thaw(Run(Init(freezer), before).value, a, mode, o), evs).value;
            SaysThawed(t.gate.outbox, Thaw(t, a, mode, again).gate.outbox, a)
  {
    RunForgets(freezer, before);
    var s := Run(Init(freezer), before).value;
    FreeingThaw(s, a, mode, o);
    StaysLastThawed(Thaw(s, a, mode, o), evs, a);
    ThawedReplyIff(Run(Thaw(s, a, mode, o), evs).value, a, mode, again);
  }
}
