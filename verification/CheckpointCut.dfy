/** The frozen transport cut, for every run of a disciplined host. */
module CheckpointCut {
  import opened Prelude
  import opened CheckpointModel
  import opened CheckpointReplies

  /** The cut and bulk target reported since the last release, read off the history. */
  function CutAfter(notes: seq<Note>): Option<(Position, nat)>
  {
    if notes == [] then None
    else
      var n := notes[|notes| - 1];
      if n.FrozenAt? then Some((n.request.cut, n.bulkTarget)) else None
  }

  /** Every report is exact, and repeats the cut and target of an earlier one not yet released. */
  predicate ReportsOk(notes: seq<Note>)
  {
    notes == [] ||
    var front, n := notes[..|notes| - 1], notes[|notes| - 1];
    && ReportsOk(front)
    && (n.FrozenAt? ==>
          && n.request.cut == n.position
          && (CutAfter(front).Some? ==> CutAfter(front) == Some((n.request.cut, n.bulkTarget))))
  }

  /** While a cut is reported both writers are parked and no input or bulk output has moved. */
  predicate Held(g: Gate)
  {
    && (g.frozenInput.Some? ==>
          && g.outputParked && g.bulk.parked && !g.resumeAfterFlush
          && g.position == g.frozenInput.value
          && g.frozenBulk == g.bulk.wire)
    && (g.latch.Frozen? ==> g.frozenInput.Some?)
  }

  predicate Reports(g: Gate)
  {
    && CutAfter(g.notes) == (if g.frozenInput.Some? then Some((g.frozenInput.value, g.frozenBulk)) else None)
    && ReportsOk(g.notes)
  }

  predicate ReleaseDue(g: Gate)
  {
    g.resumeAfterFlush ==> g.mustRelease || OwesThawed(g.outbox)
  }

  predicate CutInv(g: Gate)
  {
    ReleaseDue(g) && Held(g) && Reports(g)
  }

  lemma ParkKeepsCut(g: Gate, r: FreezeRequest)
    requires CutInv(g) && !g.resumeAfterFlush && r.cut == g.position
    ensures CutInv(Park(g, r))
  {
    assert Park(g, r).notes[..|g.notes|] == g.notes;
  }

  lemma FreezeKeepsCut(g: Gate, r: FreezeRequest, o: Outcome)
    requires CutInv(g) && !g.resumeAfterFlush
    ensures CutInv(GateFreeze(g, r, o)) && !GateFreeze(g, r, o).resumeAfterFlush
  {
    if !Refused(g, r) && r.cut == g.position {
      var h := g.(aborted := None, pending := None);
      assert CutInv(h);
      ParkKeepsCut(h, r);
    }
  }

  lemma Owes(outbox: seq<Reply>, r: Reply)
    ensures OwesThawed(outbox + [r]) <==> r.ThawedReply? || OwesThawed(outbox)
  {
    assert (outbox + [r])[..|outbox|] == outbox;
  }

  lemma AnswerKeepsCut(g: Gate, r: Reply)
    requires CutInv(g)
    ensures CutInv(Answer(g, r))
  {
    Owes(g.outbox, r);
  }

  lemma AbandonKeepsCut(g: Gate, a: string)
    requires CutInv(g)
    ensures CutInv(Abandon(g, a))
  {
    Owes(g.outbox + (if g.pending.Some? then [ErrorReply(a)] else []), ThawedReply(a));
  }

  lemma UnlatchKeepsCut(g: Gate, a: string, o: Outcome)
    requires CutInv(g)
    ensures CutInv(Unlatch(g, a, o))
  {
    var latch := LatchThaw(g.latch, g.freezer, a, o.thaws);
    if !MayThaw(g.latch, a) {
      AnswerKeepsCut(g, ErrorReply(a));
    } else if latch.RecoveryRequired? {
      AnswerKeepsCut(g.(latch := latch), ErrorReply(a));
    } else {
      Owes(g.outbox, ThawedReply(a));
      assert (g.notes + [Released])[..|g.notes|] == g.notes;
    }
  }

  lemma ThawKeepsCut(s: Agent, a: string, mode: Mode, o: Outcome)
    requires CutInv(s.gate)
    ensures CutInv(GateThaw(s, a, mode, o))
  {
    AnswerKeepsCut(s.gate, ErrorReply(a));
    AbandonKeepsCut(s.gate, a);
    UnlatchKeepsCut(s.gate, a, o);
  }

  lemma TopKeepsCut(s: Agent, o: Outcome)
    requires CutInv(s.gate)
    ensures CutInv(LoopTop(s, o).gate)
  {
    var g := Release(s.gate);
    assert CutInv(g) && !g.resumeAfterFlush;
    if PendingReady(g) {
      var h := g.(pending := None);
      assert CutInv(h);
      FreezeKeepsCut(h, g.pending.value, o);
    }
  }

  /** Every event of a disciplined host keeps the cut. */
  lemma NextKeepsCut(s: Agent, ev: Event)
    requires CutInv(s.gate) && Enabled(s, ev) && HostDiscipline(s, ev)
    ensures CutInv(Next(s, ev).gate)
  {
    match ev
    case FreezeMessage(r, o) => FreezeKeepsCut(s.gate, r, o);
    case ThawMessage(a, mode, o) => ThawKeepsCut(s, a, mode, o);
    case Top(o) => TopKeepsCut(s, o);
    case _ =>
  }

  lemma {:induction false} RunKeepsCut(freezer: bool, evs: seq<Event>)
    requires Run(Init(freezer), evs).Some? && Disciplined(Init(freezer), evs)
    ensures CutInv(Run(Init(freezer), evs).value.gate)
  {
    if evs != [] {
      RunKeepsCut(freezer, evs[..|evs| - 1]);
      NextKeepsCut(Run(Init(freezer), evs[..|evs| - 1]).value, evs[|evs| - 1]);
    }
  }

  // ---- what the cut means ----

  lemma {:induction false} ReportAt(notes: seq<Note>, i: nat)
    requires ReportsOk(notes) && i < |notes|
    ensures ReportsOk(notes[..i + 1])
    decreases |notes|
  {
    if i + 1 < |notes| {
      ReportAt(notes[..|notes| - 1], i);
      assert notes[..|notes| - 1][..i + 1] == notes[..i + 1];
    } else {
      assert notes[..i + 1] == notes;
    }
  }

  lemma {:induction false} SameReport(notes: seq<Note>, i: nat, j: nat)
    requires ReportsOk(notes) && i <= j < |notes|
    requires forall k :: i <= k <= j ==> notes[k].FrozenAt?
    ensures notes[i].request.cut == notes[j].request.cut && notes[i].bulkTarget == notes[j].bulkTarget
    ensures notes[j].request.cut == notes[j].position
  {
    ReportAt(notes, j);
    assert notes[..j + 1][..j] == notes[..j];
    if i < j {
      SameReport(notes, i, j - 1);
    }
  }

  /**
   For every run of a disciplined host: every Frozen report names exactly the bytes and frames
   received on each lane and the bulk bytes written by then, and all reports up to the next
   release name the same cut and the same bulk target.
   */
  lemma CutIsExactAndStable(freezer: bool, evs: seq<Event>, i: nat, j: nat)
    requires Run(Init(freezer), evs).Some? && Disciplined(Init(freezer), evs)
    requires i <= j < |Run(Init(freezer), evs).value.gate.notes|
    requires forall k :: i <= k <= j ==> Run(Init(freezer), evs).value.gate.notes[k].FrozenAt?
    ensures var notes := Run(Init(freezer), evs).value.gate.notes;
            && notes[i].request.cut == notes[i].position == notes[j].request.cut
            && notes[i].bulkTarget == notes[j].bulkTarget
    ensures exists n :: MadeBy(freezer, evs, i, n)
  {
    FrozenNamesWhatWasReceived(freezer, evs, i);
    RunKeepsCut(freezer, evs);
    SameReport(Run(Init(freezer), evs).value.gate.notes, i, j);
    SameReport(Run(Init(freezer), evs).value.gate.notes, i, i);
  }

  /** For every run of a disciplined host: until the thaw neither input nor bulk output moves. */
  lemma NothingCrossesTheCut(freezer: bool, evs: seq<Event>)
    requires Run(Init(freezer), evs).Some? && Disciplined(Init(freezer), evs)
    ensures var g := Run(Init(freezer), evs).value.gate;
            g.frozenInput.Some? ==> g.position == g.frozenInput.value && g.bulk.wire == g.frozenBulk && g.bulk.parked
  {
    RunKeepsCut(freezer, evs);
  }

  /** Frozen is the reply exactly when the cut is exact and both the latch and the gate hold. */
  lemma FrozenReplyIff(g: Gate, r: FreezeRequest, o: Outcome)
    ensures GateFreeze(g, r, o).outbox == g.outbox + [FrozenReply(r.attempt, g.bulk.wire)]
            <==> Captures(g, r, o) && o.pauses
    ensures Captures(g, r, o) ==> r.cut == g.position
  {
    var t := GateFreeze(g, r, o);
    if !(Captures(g, r, o) && o.pauses) && t.outbox != g.outbox {
      assert t.outbox[|g.outbox|] == ErrorReply(r.attempt);
    }
  }

  /** Another attempt, or another cut, is refused and changes nothing but the reply. */
  lemma OthersAreRefused(g: Gate, r: FreezeRequest, o: Outcome)
    requires CutInv(g) && g.latch.Frozen?
    requires r.attempt != g.latch.attempt || r.cut != g.frozenInput.value
    ensures GateFreeze(g, r, o) == Answer(g, ErrorReply(r.attempt))
  {
  }

  /** Retrying the same freeze reports the same cut and the same bulk target again. */
  lemma RetryReportsTheSame(g: Gate, r: FreezeRequest, o: Outcome)
    requires CutInv(g) && g.pending.None? && OwnsFreeze(g.latch, r.attempt) && g.frozenInput == Some(r.cut) && o.pauses
    ensures var t := GateFreeze(g, r, o);
            && t.outbox == g.outbox + [FrozenReply(r.attempt, g.frozenBulk)]
            && t.frozenInput == g.frozenInput && t.frozenBulk == g.frozenBulk
            && t.position == g.position && t.latch == g.latch
  {
  }

  /**
   Without the discipline the cut breaks: a freeze captured before the loop top releases the
   previous thaw is unparked by that release, and the next input moves the position.
   */
  lemma EagerFreezeBreaksTheCut(s: Agent, r: FreezeRequest, o: Outcome, p: Outcome, bytes: nat)
    requires s.gate.resumeAfterFlush && Captures(s.gate, r, o) && o.pauses
    ensures var t := LoopTop(Freeze(s, r, o), p);
            && t.gate.frozenInput == Some(r.cut)
            && Enabled(t, Input(Data, bytes))
            && Next(t, Input(Data, bytes)).gate.position != r.cut
  {
  }

  const AllWell: Outcome := Outcome(true, true, true)

  /** Such a state is reached at once: freeze, flush, thaw. */
  lemma EagerFreezeIsPossible()
    ensures var evs := [FreezeMessage(FreezeRequest("a", Origin, []), AllWell), EndBatch,
                        ThawMessage("a", Continue, AllWell)];
            && Run(Init(true), evs).Some?
            && var g := Run(Init(true), evs).value.gate;
            && g.resumeAfterFlush
            && Captures(g, FreezeRequest("b", Origin, []), AllWell)
            && OwesThawed(g.outbox)
  {
    var first := FreezeRequest("a", Origin, []);
    var evs := [FreezeMessage(first, AllWell), EndBatch, ThawMessage("a", Continue, AllWell)];
    assert ValidAttempt("a") && ValidAttempt("b");
    assert evs[..0] == [] && evs[..3] == evs;
    var s := Init(true);
    var t := s.(gate := Park(s.gate, first), clients := s.clients.(custody := [FreshFreeze]));
    Step(s, evs, 0, s, t);
    var u := t.(gate := Flushed(t.gate));
    Step(s, evs, 1, t, u);
    var v := u.(gate := Unlatch(u.gate, "a", AllWell));
    Step(s, evs, 2, u, v);
  }

  /** Exactly when: a captured cut survives the next loop top if and only if no release is outstanding. */
  lemma CutSurvivesLoopTopIff(g: Gate, c: Clients, r: FreezeRequest, o: Outcome, p: Outcome)
    requires Captures(g, r, o) && o.pauses
    ensures var t := GateFreeze(g, r, o);
            LoopTop(Agent(t, c), p).gate.outputParked <==> !g.resumeAfterFlush
  {
  }
}
