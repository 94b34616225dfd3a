/**
 Every reported exit reaches the host, read off the events alone: which execution a correlation
 names, what was reported and acknowledged for it since it was spawned, and the frame it owes.
 */
module ExecExits {
  import opened Prelude
  import opened ExecOutput

  // ---- what the events say about a correlation ----

  function SpawnCount(evs: seq<Event>): nat
  {
    if evs == [] then 0 else SpawnCount(evs[..|evs| - 1]) + if evs[|evs| - 1].Spawned? then 1 else 0
  }

  /** The execution the correlation names: its latest spawn, unless it was removed since. */
  function NameOf(evs: seq<Event>, id: nat): Option<nat>
  {
    if evs == [] then None
    else
      var front, ev := evs[..|evs| - 1], evs[|evs| - 1];
      if ev.Spawned? && ev.id == id then Some(SpawnCount(front))
      else if ev.Removed? && ev.id == id then None
      else NameOf(front, id)
  }

  /** The exits reported for it since that spawn. */
  function ReportsOf(evs: seq<Event>, id: nat): seq<int>
  {
    if evs == [] then []
    else
      var front, ev := evs[..|evs| - 1], evs[|evs| - 1];
      if ev.id != id then ReportsOf(front, id)
      else if ev.Spawned? || ev.Removed? then []
      else if ev.Reported? then ReportsOf(front, id) + [ev.code]
      else ReportsOf(front, id)
  }

  /** The window it was spawned with. */
  function LimitOf(evs: seq<Event>, id: nat): Option<nat>
  {
    if evs == [] then None
    else
      var front, ev := evs[..|evs| - 1], evs[|evs| - 1];
      if ev.Spawned? && ev.id == id then ev.window else LimitOf(front, id)
  }

  /** The reader's steps and the host's acknowledgements since that spawn. */
  function StepsOf(evs: seq<Event>, id: nat): seq<Step>
  {
    if evs == [] then []
    else
      var front, ev := evs[..|evs| - 1], evs[|evs| - 1];
      if ev.id != id then StepsOf(front, id)
      else match ev
        case Spawned(_, _) => []
        case Output(_, step) => StepsOf(front, id) + [step]
        case OutputAck(_, offset) => StepsOf(front, id) + [Acknowledge(offset)]
        case _ => StepsOf(front, id)
  }

  /** The window those steps lead to; None for an execution without one. */
  function WindowOf(evs: seq<Event>, id: nat): Option<Window>
  {
    match LimitOf(evs, id)
    case None => None
    case Some(limit) => if NewWindow(limit).Some? then RunWindow(NewWindow(limit).value, StepsOf(evs, id)) else None
  }

  predicate Unread(w: Option<Window>)
  {
    w.Some? && w.value.consumed < w.value.sent
  }

  // ---- the table agrees with them ----

  /** The entry is the named execution, with its window and the last exit reported, if unread output keeps it. */
  predicate EntryOf(x: Exec, evs: seq<Event>, id: nat)
  {
    var reports := ReportsOf(evs, id);
    && NameOf(evs, id) == Some(x.execution)
    && x.window == WindowOf(evs, id)
    && x.pendingExit == (if reports == [] then None else Some(reports[|reports| - 1]))
    && (reports != [] ==> Unread(x.window))
  }

  /** A frame for the execution, with one of the exits reported for it. */
  ghost predicate Announced(frames: seq<ExitFrame>, execution: nat, reports: seq<int>)
  {
    exists i :: 0 <= i < |frames| && frames[i].execution == execution && frames[i].code in reports
  }

  ghost predicate Agrees(t: Table, evs: seq<Event>, id: nat)
  {
    && (id in t.execs ==> EntryOf(t.execs[id], evs, id))
    && (id !in t.execs && NameOf(evs, id).Some? ==> Announced(t.frames, NameOf(evs, id).value, ReportsOf(evs, id)))
    && t.spawned == SpawnCount(evs)
  }

  lemma AnnouncedGrows(frames: seq<ExitFrame>, more: seq<ExitFrame>, x: nat, reports: seq<int>, late: seq<int>)
    requires Announced(frames, x, reports)
    ensures Announced(frames + more, x, reports + late)
  {
    var i :| 0 <= i < |frames| && frames[i].execution == x && frames[i].code in reports;
    assert (frames + more)[i] == frames[i];
  }

  lemma {:induction false} WindowStep(w: Window, steps: seq<Step>, step: Step)
    ensures RunWindow(w, steps + [step]) ==
            match RunWindow(w, steps)
            case None => None
            case Some(v) => if CanStep(v, step) then Some(StepWindow(v, step)) else None
  {
    assert (steps + [step])[..|steps|] == steps;
  }

  /** Events of other correlations leave this one alone. */
  lemma OthersAgree(t: Table, evs: seq<Event>, ev: Event, id: nat)
    requires Agrees(t, evs, id) && ev.id != id && Next(t, ev).Some?
    ensures Agrees(Next(t, ev).value, evs + [ev], id)
  {
    assert (evs + [ev])[..|evs|] == evs;
    var u := Next(t, ev).value;
    assert t.frames <= u.frames && (id in u.execs <==> id in t.execs) && (id in t.execs ==> u.execs[id] == t.execs[id]);
    if id !in t.execs && NameOf(evs, id).Some? {
      AnnouncedGrows(t.frames, u.frames[|t.frames|..], NameOf(evs, id).value, ReportsOf(evs, id), []);
      assert t.frames + u.frames[|t.frames|..] == u.frames && ReportsOf(evs, id) + [] == ReportsOf(evs, id);
    }
  }

  lemma SpawnAgrees(t: Table, evs: seq<Event>, id: nat, limit: Option<nat>)
    requires Agrees(t, evs, id) && Next(t, Spawned(id, limit)).Some?
    ensures Agrees(Next(t, Spawned(id, limit)).value, evs + [Spawned(id, limit)], id)
  {
    var all := evs + [Spawned(id, limit)];
    assert all[..|evs|] == evs;
    assert StepsOf(all, id) == [] && ReportsOf(all, id) == [];
  }

  lemma OutputAgrees(t: Table, evs: seq<Event>, id: nat, step: Step)
    requires Agrees(t, evs, id) && Next(t, Output(id, step)).Some?
    ensures Agrees(Next(t, Output(id, step)).value, evs + [Output(id, step)], id)
  {
    assert (evs + [Output(id, step)])[..|evs|] == evs;
    WindowStep(NewWindow(LimitOf(evs, id).value).value, StepsOf(evs, id), step);
  }

  lemma RemoveAgrees(t: Table, evs: seq<Event>, id: nat)
    requires Agrees(t, evs, id)
    ensures Agrees(Next(t, Removed(id)).value, evs + [Removed(id)], id)
  {
    assert (evs + [Removed(id)])[..|evs|] == evs;
  }

  /** The exit of an entry whose output is read leaves as a frame; otherwise the entry keeps it. */
  lemma EmitAgrees(t: Table, evs: seq<Event>, id: nat)
    requires id in t.execs && t.spawned == SpawnCount(evs)
    requires var x := t.execs[id];
             var reports := ReportsOf(evs, id);
             && NameOf(evs, id) == Some(x.execution) && x.window == WindowOf(evs, id)
             && x.pendingExit == (if reports == [] then None else Some(reports[|reports| - 1]))
             && (x.window.Some? ==> x.window.value.consumed <= x.window.value.sent)
    ensures Agrees(EmitIfDrained(t, id), evs, id)
  {
    var x, u := t.execs[id], EmitIfDrained(t, id);
    if id !in u.execs {
      assert u.frames[|t.frames|] == ExitFrame(x.execution, x.pendingExit.value, x.window);
      assert x.pendingExit.value in ReportsOf(evs, id);
    }
  }

  lemma ReportAgrees(t: Table, evs: seq<Event>, id: nat, code: int)
    requires Agrees(t, evs, id) && ExitInv(t)
    ensures Agrees(Next(t, Reported(id, code)).value, evs + [Reported(id, code)], id)
  {
    var all := evs + [Reported(id, code)];
    assert all[..|evs|] == evs;
    if id in t.execs {
      assert ExecOk(t.execs[id]);
      EmitAgrees(WithExec(t, id, t.execs[id].(pendingExit := Some(code))), all, id);
    } else if NameOf(evs, id).Some? {
      AnnouncedGrows(t.frames, [], NameOf(evs, id).value, ReportsOf(evs, id), [code]);
      assert t.frames + [] == t.frames;
    }
  }

  lemma AckAgrees(t: Table, evs: seq<Event>, id: nat, offset: nat)
    requires Agrees(t, evs, id) && ExitInv(t)
    ensures Agrees(Next(t, OutputAck(id, offset)).value, evs + [OutputAck(id, offset)], id)
  {
    var all := evs + [OutputAck(id, offset)];
    assert all[..|evs|] == evs;
    if id in t.execs {
      var x := t.execs[id];
      assert ExecOk(x);
      if x.window.Some? {
        WindowStep(NewWindow(LimitOf(evs, id).value).value, StepsOf(evs, id), Acknowledge(offset));
        StepConserves(x.window.value, Acknowledge(offset));
        EmitAgrees(WithExec(t, id, x.(window := Some(Acknowledged(x.window.value, offset)))), all, id);
      } else {
        EmitAgrees(t, all, id);
      }
    }
  }

  lemma NextAgrees(t: Table, evs: seq<Event>, ev: Event, id: nat)
    requires Agrees(t, evs, id) && ExitInv(t) && Next(t, ev).Some?
    ensures Agrees(Next(t, ev).value, evs + [ev], id)
  {
    if ev.id != id {
      OthersAgree(t, evs, ev, id);
    } else {
      match ev
      case Spawned(_, limit) => SpawnAgrees(t, evs, id, limit);
      case Output(_, step) => OutputAgrees(t, evs, id, step);
      case Reported(_, code) => ReportAgrees(t, evs, id, code);
      case OutputAck(_, offset) => AckAgrees(t, evs, id, offset);
      case Removed(_) => RemoveAgrees(t, evs, id);
    }
  }

  lemma {:induction false} RunAgrees(evs: seq<Event>, id: nat)
    requires Run(Empty, evs).Some?
    ensures Agrees(Run(Empty, evs).value, evs, id)
  {
    if evs != [] {
      var front, ev := evs[..|evs| - 1], evs[|evs| - 1];
      RunAgrees(front, id);
      RunKeeps(front);
      NextAgrees(Run(Empty, front).value, front, ev, id);
      assert front + [ev] == evs;
    }
  }

  // ---- what the host gets ----

  /** Exactly one frame announces the execution. */
  ghost predicate AnnouncedOnce(frames: seq<ExitFrame>, execution: nat, reports: seq<int>)
  {
    && Announced(frames, execution, reports)
    && forall i, j ::
         0 <= i < j < |frames| ==> !(frames[i].execution == execution && frames[j].execution == execution)
  }

  /**
   In every run, an execution that has been reported and was neither removed nor replaced has
   exactly one exit frame, with an exit that was reported for it, or is still in the table with
   the last one while output is unread. One that was not reported has no frame and is in the table.
   */
  lemma ReportedExitsArrive(evs: seq<Event>, id: nat)
    requires Run(Empty, evs).Some? && NameOf(evs, id).Some?
    ensures var t, x, reports := Run(Empty, evs).value, NameOf(evs, id).value, ReportsOf(evs, id);
            if reports == []
            then id in t.execs && t.execs[id].execution == x && t.execs[id].pendingExit.None?
                 && forall i :: 0 <= i < |t.frames| ==> t.frames[i].execution != x
            else || AnnouncedOnce(t.frames, x, reports)
                 || (&& id in t.execs && t.execs[id].execution == x
                     && t.execs[id].pendingExit == Some(reports[|reports| - 1])
                     && Unread(t.execs[id].window) && t.execs[id].window == WindowOf(evs, id))
  {
    RunAgrees(evs, id);
    RunKeeps(evs);
  }

  /** The report of an execution whose output is read, or that has no window, is announced at once. */
  lemma ReadOutputAnnouncesAtOnce(evs: seq<Event>, id: nat, code: int)
    requires Run(Empty, evs).Some? && NameOf(evs, id).Some? && ReportsOf(evs, id) == [] && !Unread(WindowOf(evs, id))
    ensures var t, u := Run(Empty, evs).value, Run(Empty, evs + [Reported(id, code)]);
            && u.Some? && id !in u.value.execs
            && u.value.frames == t.frames + [ExitFrame(NameOf(evs, id).value, code, WindowOf(evs, id))]
  {
    LastEvent(evs, Reported(id, code));
    ReportedExitsArrive(evs, id);
    RunAgrees(evs, id);
    RunKeeps(evs);
    assert ExecOk(Run(Empty, evs).value.execs[id]);
  }

  lemma RetainedEntry(evs: seq<Event>, id: nat)
    requires Run(Empty, evs).Some? && id in Run(Empty, evs).value.execs && ReportsOf(evs, id) != []
    ensures var x, reports := Run(Empty, evs).value.execs[id], ReportsOf(evs, id);
            && x.pendingExit == Some(reports[|reports| - 1]) && x.window == WindowOf(evs, id) && x.window.Some?
            && Conserved(x.window.value) && NameOf(evs, id) == Some(x.execution)
  {
    RunAgrees(evs, id);
    RunKeeps(evs);
    assert ExecOk(Run(Empty, evs).value.execs[id]);
  }

  /** And a retained exit is announced by the acknowledgement of everything sent. */
  lemma LastAckAnnounces(evs: seq<Event>, id: nat, sent: nat)
    requires Run(Empty, evs).Some? && id in Run(Empty, evs).value.execs && ReportsOf(evs, id) != []
    requires WindowOf(evs, id).Some? && sent == WindowOf(evs, id).value.sent
    ensures var t, u, reports := Run(Empty, evs).value, Run(Empty, evs + [OutputAck(id, sent)]), ReportsOf(evs, id);
            && u.Some? && id !in u.value.execs && |u.value.frames| == |t.frames| + 1
            && Some(u.value.frames[|t.frames|].execution) == NameOf(evs, id)
            && u.value.frames[|t.frames|].code == reports[|reports| - 1]
  {
    RetainedEntry(evs, id);
    LastEvent(evs, OutputAck(id, sent));
    DrainEmitsTheExit(Run(Empty, evs).value, id);
  }

  lemma LastEvent(evs: seq<Event>, ev: Event)
    requires Run(Empty, evs).Some?
    ensures Run(Empty, evs + [ev]) == Next(Run(Empty, evs).value, ev)
  {
    var all := evs + [ev];
    assert all[..|all| - 1] == evs && all[|all| - 1] == ev;
  }
}
