/**
 Per-execution output windows with cumulative acknowledgements, and the single exit frame each
 execution may emit once its output is drained.
 */
module ExecOutput {
  import opened Prelude

  const EVENT_OVERHEAD: nat := 256

  /** `held` are the permits granted to the reader and not yet committed to `sent`. */
  datatype Window = Window(
    limit: nat, available: nat, held: seq<nat>, sent: nat, consumed: nat, detached: bool, closed: bool)

  function NewWindow(bytes: nat): Option<Window>
  {
    if bytes <= EVENT_OVERHEAD then None else Some(Window(bytes, bytes, [], 0, 0, false, false))
  }

  function Charge(payload: nat): nat
  {
    payload + EVENT_OVERHEAD
  }

  /** The reader and the agent touch a window in these steps, in any interleaving. */
  datatype Step =
    | Permit(payload: nat)
    | Commit(which: nat)
    | Acknowledge(offset: nat)
    | DetachReader
    | Close

  predicate CanStep(w: Window, step: Step)
  {
    match step
    case Permit(payload) => !w.detached && !w.closed && Charge(payload) <= w.available
    case Commit(which) => which < |w.held|
    case _ => true
  }

  predicate Acceptable(w: Window, offset: nat)
  {
    w.consumed <= offset <= w.sent
  }

  function Committed(w: Window, which: nat): Window
    requires which < |w.held|
  {
    var rest := w.held[..which] + w.held[which + 1..];
    if w.sent + w.held[which] > U64_MAX then w.(held := rest, available := w.available + w.held[which])
    else w.(held := rest, sent := w.sent + w.held[which])
  }

  function Acknowledged(w: Window, offset: nat): Window
  {
    if Acceptable(w, offset) then w.(available := w.available + (offset - w.consumed), consumed := offset) else w
  }

  function StepWindow(w: Window, step: Step): Window
    requires CanStep(w, step)
  {
    match step
    case Permit(payload) => w.(available := w.available - Charge(payload), held := w.held + [Charge(payload)])
    case Commit(which) => Committed(w, which)
    case Acknowledge(offset) => Acknowledged(w, offset)
    case DetachReader => w.(detached := true, closed := true)
    case Close => w.(closed := true)
  }

  function RunWindow(w: Window, steps: seq<Step>): Option<Window>
  {
    if steps == [] then Some(w)
    else match RunWindow(w, steps[..|steps| - 1])
      case None => None
      case Some(v) => if CanStep(v, steps[|steps| - 1]) then Some(StepWindow(v, steps[|steps| - 1])) else None
  }

  // ---- conservation ----

  /** What is free, in the reader's hands, and unacknowledged is always the configured window. */
  predicate Conserved(w: Window)
  {
    w.consumed <= w.sent <= U64_MAX && w.available + Sum(w.held) + (w.sent - w.consumed) == w.limit
  }

  lemma StepConserves(w: Window, step: Step)
    requires Conserved(w) && CanStep(w, step)
    ensures Conserved(StepWindow(w, step)) && StepWindow(w, step).limit == w.limit
  {
    match step
    case Permit(payload) => SumAppend(w.held, Charge(payload));
    case Commit(which) => SumOmit(w.held, which);
    case _ =>
  }

  /** In every interleaving of reader and agent the window is conserved. */
  lemma {:induction false} WindowIsConserved(bytes: nat, steps: seq<Step>)
    requires NewWindow(bytes).Some? && RunWindow(NewWindow(bytes).value, steps).Some?
    ensures Conserved(RunWindow(NewWindow(bytes).value, steps).value)
    ensures RunWindow(NewWindow(bytes).value, steps).value.limit == bytes
  {
    if steps != [] {
      var v := RunWindow(NewWindow(bytes).value, steps[..|steps| - 1]).value;
      WindowIsConserved(bytes, steps[..|steps| - 1]);
      StepConserves(v, steps[|steps| - 1]);
    }
  }

  /** A chunk of output with the overhead of its event has room in `bytes`. */
  predicate HasRoom(bytes: nat, payload: nat)
  {
    payload + EVENT_OVERHEAD <= bytes
  }

  /** A window is accepted exactly if it has room for some output at all. */
  lemma WindowIsUsableIff(bytes: nat)
    ensures NewWindow(bytes).Some? <==> exists payload: nat :: payload > 0 && HasRoom(bytes, payload)
  {
    if bytes > EVENT_OVERHEAD {
      assert HasRoom(bytes, bytes - EVENT_OVERHEAD);
    }
  }

  /**
   In every interleaving an open window with no permit outstanding and everything sent acknowledged
   admits every chunk that fits it at all: a reader is never stuck behind output already read.
   */
  lemma ReadWindowAdmits(bytes: nat, steps: seq<Step>, payload: nat)
    requires NewWindow(bytes).Some? && RunWindow(NewWindow(bytes).value, steps).Some?
    ensures var w := RunWindow(NewWindow(bytes).value, steps).value;
            w.held == [] && w.consumed == w.sent && !w.detached && !w.closed ==>
              (CanStep(w, Permit(payload)) <==> HasRoom(bytes, payload))
  {
    WindowIsConserved(bytes, steps);
  }

  /** Everything the reader was permitted, with the overhead of each chunk. */
  function PermittedBy(steps: seq<Step>): nat
  {
    if steps == [] then 0
    else
      PermittedBy(steps[..|steps| - 1]) +
      if steps[|steps| - 1].Permit? then steps[|steps| - 1].payload + EVENT_OVERHEAD else 0
  }

  /** The highest acknowledgement is one the host sent. */
  ghost predicate AckedBy(steps: seq<Step>, consumed: nat)
  {
    consumed == 0 || exists i :: 0 <= i < |steps| && steps[i] == Acknowledge(consumed)
  }

  /** A step moves what the reader was permitted from its hands to what was sent, and adds a new permit. */
  lemma StepAdds(w: Window, step: Step)
    requires CanStep(w, step) && Sum(w.held) + w.sent <= U64_MAX
    ensures var v := StepWindow(w, step);
            Sum(v.held) + v.sent == Sum(w.held) + w.sent + if step.Permit? then step.payload + EVENT_OVERHEAD else 0
    ensures StepWindow(w, step).consumed == w.consumed || step == Acknowledge(StepWindow(w, step).consumed)
  {
    match step
    case Permit(payload) => SumAppend(w.held, Charge(payload));
    case Commit(which) => SumOmit(w.held, which);
    case _ =>
  }

  /** In every interleaving what was permitted is held or sent, and what was consumed was acknowledged by the host. */
  lemma {:induction false} WindowFollowsItsSteps(bytes: nat, steps: seq<Step>)
    requires NewWindow(bytes).Some? && RunWindow(NewWindow(bytes).value, steps).Some? && PermittedBy(steps) <= U64_MAX
    ensures var w := RunWindow(NewWindow(bytes).value, steps).value;
            PermittedBy(steps) == Sum(w.held) + w.sent && AckedBy(steps, w.consumed)
  {
    if steps != [] {
      var front, step := steps[..|steps| - 1], steps[|steps| - 1];
      WindowFollowsItsSteps(bytes, front);
      var v := RunWindow(NewWindow(bytes).value, front).value;
      StepAdds(v, step);
      StillAcked(front, step, v.consumed);
      assert front + [step] == steps;
      assert steps[|steps| - 1] == step;
    }
  }

  lemma StillAcked(steps: seq<Step>, step: Step, consumed: nat)
    requires AckedBy(steps, consumed)
    ensures AckedBy(steps + [step], consumed)
  {
    if consumed != 0 {
      var i :| 0 <= i < |steps| && steps[i] == Acknowledge(consumed);
      assert (steps + [step])[i] == Acknowledge(consumed);
    }
  }

  /** An acknowledgement of something sent and not yet acknowledged counts in full, and frees as much. */
  lemma AcknowledgementCounts(w: Window, offset: nat)
    requires Conserved(w) && w.consumed <= offset <= w.sent
    ensures var v := StepWindow(w, Acknowledge(offset));
            v.consumed == offset && v.available - w.available == offset - w.consumed && v.sent == w.sent
  {
  }

  /** Forged and backward acknowledgements change nothing, replays return nothing. */
  lemma AcknowledgementsCannotBeForged(w: Window, offset: nat)
    requires Conserved(w)
    ensures !Acceptable(w, offset) ==> Acknowledged(w, offset) == w
    ensures Acknowledged(Acknowledged(w, offset), offset) == Acknowledged(w, offset)
    ensures Acknowledged(w, offset).available <= w.limit
  {
  }

  /** Two acknowledgements, in order or not, return together exactly what the larger one covers. */
  lemma AcknowledgementsAccumulate(w: Window, a: nat, b: nat)
    requires a <= b && Acceptable(w, a) && Acceptable(w, b)
    ensures Acknowledged(Acknowledged(w, a), b) == Acknowledged(w, b) == Acknowledged(Acknowledged(w, b), a)
  {
  }

  /** What the reader is told when it asks for room. */
  datatype Answer = Granted | Waits | Refused | Uncharged

  /** Once a restore has set a session aside nothing is charged again: what is free only grows. */
  lemma {:induction false} DetachedIsNeverCharged(w: Window, steps: seq<Step>)
    requires w.detached && Conserved(w) && RunWindow(w, steps).Some?
    ensures var v := RunWindow(w, steps).value;
            && v.detached && Conserved(v) && v.limit == w.limit
            && w.available <= v.available && |v.held| <= |w.held|
            && (forall i :: 0 <= i < |steps| ==> !steps[i].Permit?)
  {
    if steps != [] {
      DetachedIsNeverCharged(w, steps[..|steps| - 1]);
      StepConserves(RunWindow(w, steps[..|steps| - 1]).value, steps[|steps| - 1]);
    }
  }

  class OutputWindow {
    const limit: nat
    var available: nat
    var held: seq<nat>
    var sent: nat
    var consumed: nat
    var detached: bool
    var closed: bool

    ghost function View(): Window
      reads this
    {
      Window(limit, available, held, sent, consumed, detached, closed)
    }

    constructor (bytes: nat)
      requires NewWindow(bytes).Some?
      ensures Some(View()) == NewWindow(bytes)
    {
      limit, available, held, sent, consumed, detached, closed := bytes, bytes, [], 0, 0, false, false;
    }

    /**
     The reader asks for room: it gets a permit, or waits; a closed window refuses it, and once
     the session was set aside by a restore it goes on without any charge.
     */
    method Acquire(payload: nat) returns (answer: Answer)
      modifies `available, `held
      ensures answer.Granted? <==> CanStep(old(View()), Permit(payload))
      ensures answer.Uncharged? <==> old(detached)
      ensures answer.Refused? <==> old(closed) && !old(detached)
      ensures View() == if answer.Granted? then StepWindow(old(View()), Permit(payload)) else old(View())
    {
      if detached {
        return Uncharged;
      }
      var charge := payload + EVENT_OVERHEAD;
      if closed {
        return Refused;
      }
      if charge > available {
        return Waits;
      }
      available, held := available - charge, held + [charge];
      return Granted;
    }

    /** Count the permit as sent and forget it; an offset that would overflow drops it instead. */
    method Publish(which: nat) returns (ok: bool)
      requires which < |held|
      modifies `available, `held, `sent
      ensures ok == (old(sent) + old(held)[which] <= U64_MAX)
      ensures View() == StepWindow(old(View()), Commit(which))
    {
      var charge := held[which];
      held := held[..which] + held[which + 1..];
      if sent + charge > U64_MAX {
        available := available + charge;
        return false;
      }
      sent := sent + charge;
      return true;
    }

    method Accept(offset: nat) returns (ok: bool)
      modifies `available, `consumed
      ensures ok == Acceptable(old(View()), offset)
      ensures View() == Acknowledged(old(View()), offset)
    {
      if offset < consumed || offset > sent {
        return false;
      }
      var returned := offset - consumed;
      consumed := offset;
      available := available + returned;
      return true;
    }
  }

  // ---- the exit frame ----

  datatype Exec = Exec(execution: nat, window: Option<Window>, pendingExit: Option<int>)

  /** An encoded exit frame, with the window as it was at that moment. */
  datatype ExitFrame = ExitFrame(execution: nat, code: int, window: Option<Window>)

  datatype Table = Table(execs: map<nat, Exec>, spawned: nat, frames: seq<ExitFrame>)

  datatype Event =
    | Spawned(id: nat, window: Option<nat>)
    | Output(id: nat, step: Step)
    | Reported(id: nat, code: int)
    | OutputAck(id: nat, offset: nat)
    | Removed(id: nat)

  predicate Drained(window: Option<Window>)
  {
    window.None? || window.value.sent == window.value.consumed
  }

  /** Emit the retained exit if the output is drained; the execution leaves the table with it. */
  function EmitIfDrained(t: Table, id: nat): Table
  {
    if id in t.execs && Drained(t.execs[id].window) && t.execs[id].pendingExit.Some?
    then
      var x := t.execs[id];
      t.(execs := t.execs - {id}, frames := t.frames + [ExitFrame(x.execution, x.pendingExit.value, x.window)])
    else t
  }

  function WithExec(t: Table, id: nat, x: Exec): Table
  {
    t.(execs := t.execs[id := x])
  }

  /** None when a window is refused or a step is not possible. */
  function Next(t: Table, ev: Event): Option<Table>
  {
    match ev
    case Spawned(id, limit) =>
      var window := if limit.Some? then NewWindow(limit.value) else None;
      if limit.Some? && window.None? then None
      else Some(WithExec(t, id, Exec(t.spawned, window, None)).(spawned := t.spawned + 1))
    case Output(id, step) =>
      if id in t.execs && t.execs[id].window.Some? && (step.Permit? || step.Commit?)
         && CanStep(t.execs[id].window.value, step)
      then Some(WithExec(t, id, t.execs[id].(window := Some(StepWindow(t.execs[id].window.value, step)))))
      else None
    case Reported(id, code) =>
      if id in t.execs then Some(EmitIfDrained(WithExec(t, id, t.execs[id].(pendingExit := Some(code))), id))
      else Some(t)
    case OutputAck(id, offset) =>
      if id in t.execs && t.execs[id].window.Some?
      then
        var w := Acknowledged(t.execs[id].window.value, offset);
        Some(EmitIfDrained(WithExec(t, id, t.execs[id].(window := Some(w))), id))
      else Some(EmitIfDrained(t, id))
    case Removed(id) => Some(t.(execs := t.execs - {id}))
  }

  const Empty: Table := Table(map[], 0, [])

  function Run(t: Table, evs: seq<Event>): Option<Table>
  {
    if evs == [] then Some(t)
    else match Run(t, evs[..|evs| - 1])
      case None => None
      case Some(u) => Next(u, evs[|evs| - 1])
  }

  /** An exit is retained only while output is unacknowledged. */
  predicate ExecOk(x: Exec)
  {
    && (x.window.Some? ==> Conserved(x.window.value))
    && (x.pendingExit.Some? ==> !Drained(x.window))
  }

  /** Live executions and emitted frames never share an execution, and neither repeats one. */
  ghost predicate Distinct(t: Table)
  {
    && (forall i, j :: 0 <= i < j < |t.frames| ==> t.frames[i].execution != t.frames[j].execution)
    && (forall a, b :: a in t.execs && b in t.execs && a != b ==> t.execs[a].execution != t.execs[b].execution)
    && (forall i, id :: 0 <= i < |t.frames| && id in t.execs ==> t.frames[i].execution != t.execs[id].execution)
  }

  ghost predicate Sound(t: Table)
  {
    && (forall id :: id in t.execs ==> t.execs[id].execution < t.spawned && ExecOk(t.execs[id]))
    && (forall i :: 0 <= i < |t.frames| ==> t.frames[i].execution < t.spawned && Drained(t.frames[i].window))
  }

  ghost predicate ExitInv(t: Table)
  {
    Distinct(t) && Sound(t)
  }

  lemma UpdateKeepsDistinct(t: Table, id: nat, x: Exec)
    requires Distinct(t) && id in t.execs && x.execution == t.execs[id].execution
    ensures Distinct(WithExec(t, id, x)) && Distinct(EmitIfDrained(WithExec(t, id, x), id))
  {
    assert Distinct(WithExec(t, id, x));
  }

  /** Replacing one entry, and emitting its exit if that is due, keeps the invariant. */
  lemma UpdateKeeps(t: Table, id: nat, x: Exec)
    requires ExitInv(t) && id in t.execs && x.execution == t.execs[id].execution
    requires x.window.Some? ==> Conserved(x.window.value)
    ensures ExitInv(EmitIfDrained(WithExec(t, id, x), id))
  {
    UpdateKeepsDistinct(t, id, x);
  }

  lemma NextKeeps(t: Table, ev: Event)
    requires ExitInv(t) && Next(t, ev).Some?
    ensures ExitInv(Next(t, ev).value)
  {
    match ev
    case Output(id, step) =>
      var w := t.execs[id].window.value;
      assert ExecOk(t.execs[id]);
      StepConserves(w, step);
      UpdateKeeps(t, id, t.execs[id].(window := Some(StepWindow(w, step))));
    case Reported(id, code) =>
      if id in t.execs {
        UpdateKeeps(t, id, t.execs[id].(pendingExit := Some(code)));
      }
    case OutputAck(id, offset) =>
      if id in t.execs && t.execs[id].window.Some? {
        StepConserves(t.execs[id].window.value, Acknowledge(offset));
        UpdateKeeps(t, id, t.execs[id].(window := Some(Acknowledged(t.execs[id].window.value, offset))));
      }
    case _ =>
  }

  lemma {:induction false} RunKeeps(evs: seq<Event>)
    requires Run(Empty, evs).Some?
    ensures ExitInv(Run(Empty, evs).value)
  {
    if evs != [] {
      RunKeeps(evs[..|evs| - 1]);
      NextKeeps(Run(Empty, evs[..|evs| - 1]).value, evs[|evs| - 1]);
    }
  }

  /** In every run an execution emits at most one exit frame, and a windowed one only when drained. */
  lemma AtMostOneExitFrame(evs: seq<Event>, i: nat, j: nat)
    requires Run(Empty, evs).Some? && i < |Run(Empty, evs).value.frames| && j < |Run(Empty, evs).value.frames|
    ensures var frames := Run(Empty, evs).value.frames;
            && (frames[i].execution == frames[j].execution ==> i == j)
            && (frames[i].window.Some? ==> frames[i].window.value.sent == frames[i].window.value.consumed)
  {
    RunKeeps(evs);
  }

  /** No reported exit is ever stranded: while it is retained, unacknowledged output remains to trigger it. */
  lemma NoExitIsStranded(evs: seq<Event>, id: nat)
    requires Run(Empty, evs).Some? && id in Run(Empty, evs).value.execs
    ensures var x := Run(Empty, evs).value.execs[id];
            && (x.window.Some? ==> Conserved(x.window.value))
            && (x.pendingExit.Some? ==> x.window.Some? && x.window.value.consumed < x.window.value.sent)
  {
    RunKeeps(evs);
  }

  /** A reported exit is never lost: the acknowledgement of everything sent emits it. */
  lemma DrainEmitsTheExit(t: Table, id: nat)
    requires id in t.execs && t.execs[id].pendingExit.Some? && t.execs[id].window.Some?
    requires Conserved(t.execs[id].window.value)
    ensures var x := t.execs[id];
            var u := Next(t, OutputAck(id, x.window.value.sent)).value;
            id !in u.execs && |u.frames| == |t.frames| + 1
            && u.frames[|t.frames|].execution == x.execution && u.frames[|t.frames|].code == x.pendingExit.value
  {
  }
}
