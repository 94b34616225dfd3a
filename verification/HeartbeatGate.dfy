/**
 The gate between the heartbeat thread and a checkpoint: two threads step under one mutex, the
 agent pauses and resumes, the writer replaces the heartbeat file through a temporary one.
 */
module HeartbeatGate {
  import opened Prelude

  /** Where the writer is: outside, about to create the temporary file, to rename it, or to leave. */
  datatype Writer = Outside | Creating | Renaming | Leaving

  /** Where the agent is: outside, waiting for a write to end, removing the temporary file, or holding the gate. */
  datatype AgentPhase = Free | Waiting | Removing | Holding

  datatype State = State(paused: bool, writing: bool, tmp: bool, writer: Writer, agent: AgentPhase)

  const Initial: State := State(false, false, false, Outside, Free)

  datatype Step =
    | Begin                       // the writer asks to enter
    | Create(ok: bool, tmp: bool) // writing the temporary file may fail and leave it or not
    | Rename(ok: bool)
    | Leave
    | Pause
    | Wake                        // the agent rechecks the flag under the mutex
    | Remove(ok: bool)            // removing the temporary file; a missing one counts as removed
    | Resume

  predicate Enabled(s: State, step: Step)
  {
    match step
    case Begin => s.writer == Outside
    case Create(ok, tmp) => s.writer == Creating && (ok ==> tmp) && (s.tmp ==> tmp)
    case Rename(_) => s.writer == Renaming
    case Leave => s.writer == Leaving
    case Pause => s.agent in {Free, Holding}
    case Wake => s.agent == Waiting && !s.writing
    case Remove(_) => s.agent == Removing
    case Resume => s.agent in {Free, Holding}
  }

  function Next(s: State, step: Step): State
    requires Enabled(s, step)
  {
    match step
    case Begin => if s.paused then s else s.(writing := true, writer := Creating)
    case Create(ok, tmp) => s.(tmp := tmp, writer := if ok then Renaming else Leaving)
    case Rename(ok) => s.(tmp := s.tmp && !ok, writer := Leaving)
    case Leave => s.(writing := false, writer := Outside)
    case Pause => s.(paused := true, agent := Waiting)
    case Wake => s.(agent := Removing)
    case Remove(ok) => if ok then s.(tmp := false, agent := Holding) else s.(paused := false, agent := Free)
    case Resume => s.(paused := false, agent := Free)
  }

  function Run(s: State, steps: seq<Step>): Option<State>
  {
    if steps == [] then Some(s)
    else match Run(s, steps[..|steps| - 1])
      case None => None
      case Some(t) => if Enabled(t, steps[|steps| - 1]) then Some(Next(t, steps[|steps| - 1])) else None
  }

  lemma RunExtend(steps: seq<Step>, step: Step)
    requires Run(Initial, steps).Some? && Enabled(Run(Initial, steps).value, step)
    ensures Run(Initial, steps + [step]) == Some(Next(Run(Initial, steps).value, step))
  {
    var all := steps + [step];
    assert all[..|all| - 1] == steps && all[|all| - 1] == step;
  }

  /** The flags tell the truth; once the agent has seen no writer, none can enter; holding means a clean directory. */
  predicate GateInv(s: State)
  {
    && (s.writing <==> s.writer != Outside)
    && (s.agent != Free <==> s.paused)
    && (s.agent in {Removing, Holding} ==> s.writer == Outside)
    && (s.agent == Holding ==> !s.tmp)
  }

  lemma NextKeepsGate(s: State, step: Step)
    requires GateInv(s) && Enabled(s, step)
    ensures GateInv(Next(s, step))
  {
  }

  lemma {:induction false} RunKeepsGate(s: State, steps: seq<Step>)
    requires GateInv(s) && Run(s, steps).Some?
    ensures GateInv(Run(s, steps).value)
  {
    if steps != [] {
      RunKeepsGate(s, steps[..|steps| - 1]);
      NextKeepsGate(Run(s, steps[..|steps| - 1]).value, steps[|steps| - 1]);
    }
  }

  predicate AgentActs(step: Step)
  {
    step.Pause? || step.Wake? || step.Remove? || step.Resume?
  }

  /** The steps that let writers in again: a resume, or a pause that cannot remove the temporary file. */
  predicate Reopens(step: Step)
  {
    step.Resume? || step == Remove(false)
  }

  /**
   From a successful pause, and whatever happened before it, until the gate reopens: no write is in
   progress or starts and the temporary file stays absent, however often the agent pauses again.
   */
  lemma {:induction false} NoWriteWhileHeld(before: seq<Step>, during: seq<Step>)
    requires Run(Initial, before).Some? && Run(Initial, before).value.agent == Holding
    requires Run(Run(Initial, before).value, during).Some?
    requires forall i :: 0 <= i < |during| ==> !Reopens(during[i])
    ensures var t := Run(Run(Initial, before).value, during).value;
            t.agent != Free && t.paused && !t.writing && !t.tmp && t.writer == Outside
  {
    RunKeepsGate(Initial, before);
    if during != [] {
      NoWriteWhileHeld(before, during[..|during| - 1]);
    }
  }

  /** The next write the heartbeat asks for is let in. */
  predicate Admits(s: State)
  {
    Enabled(s, Begin) && Next(s, Begin).writing
  }

  /**
   A failed removal is enough, without any resume: exactly when the last step after a successful
   pause is one that reopens, and none before it was, the next write is let in.
   */
  lemma HeldGateReopensIff(before: seq<Step>, during: seq<Step>, last: Step)
    requires Run(Initial, before).Some? && Run(Initial, before).value.agent == Holding
    requires Run(Run(Initial, before).value, during + [last]).Some?
    requires forall i :: 0 <= i < |during| ==> !Reopens(during[i])
    ensures Admits(Run(Run(Initial, before).value, during + [last]).value) <==> Reopens(last)
  {
    var s := Run(Initial, before).value;
    LastStep(s, during, last);
    NoWriteWhileHeld(before, during);
    HeldUntil(Run(s, during).value, last);
  }

  lemma LastStep(s: State, steps: seq<Step>, last: Step)
    ensures Run(s, steps + [last]) ==
            match Run(s, steps)
            case None => None
            case Some(t) => if Enabled(t, last) then Some(Next(t, last)) else None
  {
    var all := steps + [last];
    assert all[..|all| - 1] == steps && all[|all| - 1] == last;
  }

  lemma HeldUntil(t: State, last: Step)
    requires t.paused && !t.writing && t.writer == Outside && Enabled(t, last)
    ensures Admits(Next(t, last)) <==> Reopens(last)
  {
  }

  /** A repeated pause whose removal fails, as when the same freeze is requested again. */
  const Again: seq<Step> := [Pause, Wake, Remove(false)]

  /** From every held gate that run is possible, and it ends with a write under way and no resume. */
  lemma FailedRetryReopens(before: seq<Step>)
    requires Run(Initial, before).Some? && Run(Initial, before).value.agent == Holding
    ensures var s := Run(Initial, before).value;
            && (forall i :: 0 <= i < |Again| ==> !Again[i].Resume?)
            && Run(s, Again).Some? && Run(s, Again + [Begin]).Some? && Run(s, Again + [Begin]).value.writing
  {
    RunKeepsGate(Initial, before);
    var s := Run(Initial, before).value;
    assert Again[..2] == [Pause, Wake] && Again[..2][..1] == [Pause] && [Pause][..0] == [];
    assert Run(s, [Pause]) == Some(Next(s, Pause));
    assert Run(s, Again[..2]) == Some(Next(Next(s, Pause), Wake));
    assert (Again + [Begin])[..3] == Again;
  }

  /** A pause ends holding the gate, or with the gate open again: a failure is never left closed. */
  lemma PauseHoldsOrReopens(steps: seq<Step>, ok: bool)
    requires Run(Initial, steps).Some? && Enabled(Run(Initial, steps).value, Remove(ok))
    ensures var s := Next(Run(Initial, steps).value, Remove(ok));
            if ok then s.agent == Holding && s.paused && !s.tmp && s.writer == Outside
            else s.agent == Free && Enabled(s, Begin) && Next(s, Begin).writing
  {
    RunKeepsGate(Initial, steps);
  }

  function WriterRank(w: Writer): nat
  {
    match w
    case Outside => 0
    case Leaving => 1
    case Renaming => 2
    case Creating => 3
  }

  predicate WriterActs(step: Step)
  {
    !AgentActs(step) && !step.Begin?
  }

  /** While the agent waits, the writer can only finish: every move it makes brings the end of the wait closer. */
  lemma WaitIsBounded(steps: seq<Step>, step: Step)
    requires Run(Initial, steps).Some? && Run(Initial, steps).value.agent == Waiting
    requires Enabled(Run(Initial, steps).value, step) && !AgentActs(step)
    ensures var s := Run(Initial, steps).value;
            && (step.Begin? ==> Next(s, step) == s)
            && (WriterActs(step) ==> WriterRank(Next(s, step).writer) < WriterRank(s.writer))
            && (!Enabled(s, Wake) ==> WriterRank(s.writer) > 0)
  {
    RunKeepsGate(Initial, steps);
  }

  /** The step a writer inside the gate takes, given the file system's answer. */
  function WriterStep(s: State, answer: (bool, bool)): Step
    requires s.writer != Outside
  {
    match s.writer
    case Creating => Create(answer.0, s.tmp || answer.0 || answer.1)
    case Renaming => Rename(answer.0)
    case Leaving => Leave
  }

  function AnswerAt(answers: seq<(bool, bool)>, i: nat): (bool, bool)
  {
    if i < |answers| then answers[i] else (false, true)
  }

  /** What the writer still does before it is out, with answers from the i-th on. */
  function WayOut(s: State, answers: seq<(bool, bool)>, i: nat): seq<Step>
    decreases WriterRank(s.writer)
  {
    if s.writer == Outside then []
    else
      var step := WriterStep(s, AnswerAt(answers, i));
      [step] + WayOut(Next(s, step), answers, i + 1)
  }

  /** The agent's side over the shared flags; the writer moves while the agent waits. */
  class HeartbeatControl {
    var paused: bool
    var writing: bool
    var tmp: bool
    var writer: Writer
    ghost var agent: AgentPhase
    ghost var steps: seq<Step>

    ghost function View(): State
      reads this
    {
      State(paused, writing, tmp, writer, agent)
    }

    ghost predicate Valid()
      reads this
    {
      Run(Initial, steps) == Some(View()) && agent in {Free, Holding}
    }

    constructor ()
      ensures Valid() && View() == Initial
    {
      paused, writing, tmp, writer, agent, steps := false, false, false, Outside, Free, [];
    }

    ghost method Took(step: Step, before: State)
      requires Run(Initial, steps) == Some(before) && Enabled(before, step) && View() == Next(before, step)
      modifies `steps
      ensures Run(Initial, steps) == Some(View())
      ensures steps == old(steps) + [step]
    {
      RunExtend(steps, step);
      steps := steps + [step];
    }

    /** Enter one replacement, or skip it while the gate is held. */
    method BeginWrite() returns (entered: bool)
      requires Valid() && writer == Outside
      modifies this
      ensures Valid() && entered == !old(paused) && View() == Next(old(View()), Begin)
      ensures steps == old(steps) + [Begin]
    {
      ghost var before := View();
      entered := !paused;
      if entered {
        writing, writer := true, Creating;
      }
      Took(Begin, before);
    }

    /** One move of the writer thread; how the file system answers is a parameter. */
    method WriterMove(ok: bool, leavesTmp: bool)
      requires Run(Initial, steps) == Some(View()) && writer != Outside
      modifies `writing, `tmp, `writer, `steps
      ensures Run(Initial, steps) == Some(View()) && WriterRank(writer) < WriterRank(old(writer))
      ensures steps == old(steps) + [WriterStep(old(View()), (ok, leavesTmp))]
      ensures View() == Next(old(View()), WriterStep(old(View()), (ok, leavesTmp)))
    {
      ghost var before := View();
      match writer
      case Creating =>
        tmp, writer := tmp || ok || leavesTmp, if ok then Renaming else Leaving;
        Took(Create(ok, tmp), before);
      case Renaming =>
        tmp, writer := tmp && !ok, Leaving;
        Took(Rename(ok), before);
      case Leaving =>
        writing, writer := false, Outside;
        Took(Leave, before);
    }

    /** Wait until the write in flight is over. */
    method AwaitWriter(answers: seq<(bool, bool)>)
      requires Run(Initial, steps) == Some(View()) && agent == Waiting
      modifies `writing, `tmp, `writer, `steps
      ensures Run(Initial, steps) == Some(View()) && GateInv(View()) && !writing
      ensures steps == old(steps) + WayOut(old(View()), answers, 0)
    {
      RunKeepsGate(Initial, steps);
      var i := 0;
      while writing
        invariant Run(Initial, steps) == Some(View()) && GateInv(View())
        invariant steps + WayOut(View(), answers, i) == old(steps) + WayOut(old(View()), answers, 0)
        decreases WriterRank(writer)
      {
        var answer := AnswerAt(answers, i);
        ghost var soFar, step := steps, WriterStep(View(), answer);
        WriterMove(answer.0, answer.1);
        i := i + 1;
        Regroup(soFar, step, WayOut(View(), answers, i));
        RunKeepsGate(Initial, steps);
      }
    }

    /** Remove what a failed write left behind, or reopen the gate if that is not possible. */
    method RemoveTmp(removes: bool)
      requires Run(Initial, steps) == Some(View()) && GateInv(View()) && agent == Waiting && !writing
      modifies `paused, `tmp, `agent, `steps
      ensures Valid() && GateInv(View()) && steps == old(steps) + [Wake] + [Remove(removes)]
      ensures if removes then agent == Holding && !tmp else agent == Free
    {
      ghost var before := View();
      agent := Removing;
      Took(Wake, before);
      before := View();
      if removes {
        tmp, agent := false, Holding;
      } else {
        paused, agent := false, Free;
      }
      Took(Remove(removes), before);
      RunKeepsGate(Initial, steps);
    }

    /** Close the gate, wait for a write in flight, and remove what a failed write left behind. */
    method PauseWrites(answers: seq<(bool, bool)>, removes: bool) returns (ok: bool)
      requires Valid()
      modifies this
      ensures Valid() && ok == removes
      ensures steps == old(steps) + [Pause] + WayOut(Next(old(View()), Pause), answers, 0) + [Wake] + [Remove(removes)]
      ensures ok ==> agent == Holding && paused && !writing && !tmp
      ensures !ok ==> agent == Free && !paused
    {
      ghost var before := View();
      paused, agent := true, Waiting;
      Took(Pause, before);
      AwaitWriter(answers);
      RemoveTmp(removes);
      ok := removes;
    }

    method ResumeWrites()
      requires Valid()
      modifies this
      ensures Valid() && View() == Next(old(View()), Resume) && steps == old(steps) + [Resume]
    {
      ghost var before := View();
      paused, agent := false, Free;
      Took(Resume, before);
    }
  }

  lemma Regroup(a: seq<Step>, step: Step, rest: seq<Step>)
    ensures a + ([step] + rest) == (a + [step]) + rest
  {
  }
}
