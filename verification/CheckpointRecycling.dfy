/**
 Exits within one generation. Ranges may be recycled while executions of their former owner still
 run: exits carry the owner that spawned them, so a correlation may be reused at once by a new
 owner, as long as no former owner comes back before its executions have reported.
 */
module CheckpointRecycling {
  import opened Prelude
  import opened RelaySlots
  import opened CheckpointModel
  import opened CheckpointExits

  // ---- what a stamp remembers ----

  /** Execution `x` is the spawn at event `n`, in the generation and under the owner of that moment. */
  ghost predicate SpawnedAt(freezer: bool, evs: seq<Event>, x: nat, n: nat)
    requires Run(Init(freezer), evs).Some?
  {
    && n < |evs| && Run(Init(freezer), evs[..n]).Some? && x < |Run(Init(freezer), evs).value.clients.stamps|
    && var s, stamp := Run(Init(freezer), evs[..n]).value, Run(Init(freezer), evs).value.clients.stamps[x];
    && evs[n] == Spawn(stamp.id) && s.gate.latch.Running? && |s.clients.stamps| == x
    && stamp.generation == s.clients.generation && stamp.owner == Owner(s.clients.incarnations, stamp.id)
  }

  lemma StampsGrow(s: Agent, ev: Event)
    requires Enabled(s, ev)
    ensures s.clients.stamps <= Next(s, ev).clients.stamps
    ensures if ev.Spawn? && s.gate.latch.Running?
            then Next(s, ev).clients.stamps == s.clients.stamps + [
                   Stamp(s.clients.generation, ev.id, Owner(s.clients.incarnations, ev.id))]
            else Next(s, ev).clients.stamps == s.clients.stamps
  {
  }

  /** In every run each execution carries the generation and the owner of the spawn that made it. */
  lemma {:induction false} StampsRememberSpawns(freezer: bool, evs: seq<Event>, x: nat)
    requires Run(Init(freezer), evs).Some? && x < |Run(Init(freezer), evs).value.clients.stamps|
    ensures exists n :: SpawnedAt(freezer, evs, x, n)
    decreases |evs|
  {
    if evs != [] {
      var front := evs[..|evs| - 1];
      var s := Run(Init(freezer), front).value;
      StampsGrow(s, evs[|evs| - 1]);
      if x < |s.clients.stamps| {
        StampsRememberSpawns(freezer, front, x);
        var n: nat :| SpawnedAt(freezer, front, x, n);
        assert front[..n] == evs[..n];
        assert SpawnedAt(freezer, evs, x, n);
      } else {
        assert SpawnedAt(freezer, evs, x, |evs| - 1);
      }
    }
  }

  /** In every run the exit of an execution whose owner has since left its range touches no table. */
  lemma DepartedOwnersExitsAreIgnored(freezer: bool, evs: seq<Event>, x: nat, n: nat, drained: bool)
    requires Run(Init(freezer), evs + [Exit(x, drained)]).Some?
    ensures Run(Init(freezer), evs).Some? && Unreported(Run(Init(freezer), evs).value.clients, x)
    ensures SpawnedAt(freezer, evs, x, n) ==>
              var s, t := Run(Init(freezer), evs[..n]).value, Run(Init(freezer), evs).value;
              var owner := Owner(s.clients.incarnations, evs[n].id);
              s.clients.generation == t.clients.generation && owner.Some?
              && Owner(t.clients.incarnations, evs[n].id) != owner ==>
                Run(Init(freezer), evs + [Exit(x, drained)]).value.clients ==
                t.clients.(reported := t.clients.reported + {x})
  {
    assert (evs + [Exit(x, drained)])[..|evs|] == evs;
  }

  // ---- recycled ranges ----

  /** The pending report of `x` would reach the sessions of this generation. */
  predicate Live(c: Clients, x: nat)
  {
    Unreported(c, x) && c.stamps[x].generation == c.generation && !StaleOwner(c, c.stamps[x])
  }

  /** A correlation is free for its owner: whoever still runs under it has lost the range. */
  predicate FreeId(c: Clients, id: nat)
  {
    forall x :: 0 <= x < |c.stamps| && Live(c, x) ==> c.stamps[x].id != id
  }

  /** `x` would become live again with the lease, and the correlation is in use by another. */
  predicate Returns(c: Clients, start: nat, end: nat, incarnation: Incarnation, x: nat)
  {
    && Unreported(c, x) && c.stamps[x].generation == c.generation && c.stamps[x].owner == Some(incarnation)
    && start <= c.stamps[x].id < end && c.stamps[x].id in c.sessions && !Live(c, x)
  }

  /** No correlation is spawned that a live report names, and no client comes back to one in use by another. */
  predicate Permitted(s: Agent, ev: Event)
  {
    match ev
    case Spawn(id) => s.gate.latch.Running? ==> FreeId(s.clients, id)
    case Connect(start, end, incarnation) =>
      forall x :: 0 <= x < |s.clients.stamps| ==> !Returns(s.clients, start, end, incarnation, x)
    case _ => true
  }

  predicate NoClash(s: Agent, evs: seq<Event>)
    requires Run(s, evs).Some?
  {
    evs == [] ||
    (NoClash(s, evs[..|evs| - 1]) && Permitted(Run(s, evs[..|evs| - 1]).value, evs[|evs| - 1]))
  }

  predicate Own(c: Clients, x: nat)
    requires x < |c.stamps|
  {
    c.stamps[x].id in c.sessions ==> c.sessions[c.stamps[x].id].execution == x
  }

  /** Sessions carry the stamps of their executions. */
  ghost predicate Stamped(c: Clients)
  {
    (forall x :: x in c.reported ==> x < |c.stamps|) && forall id :: id in c.sessions ==> SessionOk(c, id)
  }

  /** And a live report finds its own session or none. */
  ghost predicate Matched(c: Clients)
  {
    Stamped(c) && forall x :: 0 <= x < |c.stamps| && Live(c, x) ==> Own(c, x)
  }

  lemma SpawnMatchesIff(c: Clients, id: nat)
    requires Matched(c)
    ensures Stamped(SpawnExec(c, id)) && (Matched(SpawnExec(c, id)) <==> FreeId(c, id))
  {
    var d := SpawnExec(c, id);
    forall i | i in d.sessions ensures SessionOk(d, i) {
      assert i != id ==> SessionOk(c, i);
    }
    if FreeId(c, id) {
      forall x | 0 <= x < |d.stamps| && Live(d, x) ensures Own(d, x) {
        assert x < |c.stamps| ==> Live(c, x) && Own(c, x);
      }
    } else {
      var x :| 0 <= x < |c.stamps| && Live(c, x) && c.stamps[x].id == id;
      assert Live(d, x) && !Own(d, x);
    }
  }

  /** A lease is new only on a range nobody had. */
  lemma LeaseMatchesIff(c: Clients, start: nat, end: nat, incarnation: Incarnation)
    requires Matched(c) && Lease(c.incarnations, start, end, incarnation).Some?
    ensures Stamped(c.(incarnations := Lease(c.incarnations, start, end, incarnation).value))
    ensures Matched(c.(incarnations := Lease(c.incarnations, start, end, incarnation).value)) <==>
            forall x :: 0 <= x < |c.stamps| ==> !Returns(c, start, end, incarnation, x)
  {
    var d := c.(incarnations := Lease(c.incarnations, start, end, incarnation).value);
    forall i | i in d.sessions ensures SessionOk(d, i) {
      assert SessionOk(c, i);
      LeaseIsExact(c.incarnations, start, end, incarnation, i);
    }
    forall x | 0 <= x < |c.stamps| && Live(d, x) ensures Own(d, x) <==> !Returns(c, start, end, incarnation, x) {
      LeaseIsExact(c.incarnations, start, end, incarnation, c.stamps[x].id);
      assert Live(c, x) ==> Own(c, x);
      assert c.stamps[x].id in c.sessions ==> SessionOk(c, c.stamps[x].id);
    }
    forall x | 0 <= x < |c.stamps| && Returns(c, start, end, incarnation, x) ensures Live(d, x) {
      LeaseIsExact(c.incarnations, start, end, incarnation, c.stamps[x].id);
    }
  }

  lemma LeaveMatches(c: Clients, start: nat, end: nat, claimed: Option<Incarnation>)
    requires Matched(c) && Unlease(c.incarnations, start, end, claimed).Some?
    ensures Matched(Leave(c, start, end, claimed))
  {
    var d := Leave(c, start, end, claimed);
    if Departs(c.incarnations, start, end, claimed) {
      var slot := ValidateRange(start, end).value;
      ValidRangesAreCanonical(start, end, slot);
      forall i | i in d.sessions ensures SessionOk(d, i) {
        assert SessionOk(c, i);
        SlotIsTheOwningRange(i, slot);
        assert Owner(d.incarnations, i) == Owner(c.incarnations, i);
      }
      forall x | 0 <= x < |d.stamps| && Live(d, x) ensures Own(d, x) {
        SlotIsTheOwningRange(d.stamps[x].id, slot);
        assert d.stamps[x].id in d.sessions ==> Live(c, x);
      }
    }
  }

  lemma ExitMatches(c: Clients, x: nat, drained: bool)
    requires Matched(c) && Unreported(c, x)
    ensures Matched(ReportExit(c, x, drained))
  {
    var d := ReportExit(c, x, drained);
    assert Live(c, x) ==> Own(c, x);
    forall i | i in d.sessions ensures SessionOk(d, i) {
      assert SessionOk(c, i);
    }
    forall y | 0 <= y < |d.stamps| && Live(d, y) ensures Own(d, y) {
      assert Live(c, y) && Own(c, y);
    }
  }

  lemma AcknowledgeMatches(c: Clients, id: nat, drained: bool)
    requires Matched(c)
    ensures Matched(Acknowledge(c, id, drained))
  {
    var d := Acknowledge(c, id, drained);
    forall i | i in d.sessions ensures SessionOk(d, i) {
      assert SessionOk(c, i);
    }
    forall x | 0 <= x < |d.stamps| && Live(d, x) ensures Own(d, x) {
      assert Live(c, x) && Own(c, x);
    }
  }

  lemma SameMatches(c: Clients, d: Clients)
    requires Matched(c) && c.(restored := d.restored, custody := d.custody) == d
    ensures Matched(d)
  {
    forall i | i in d.sessions ensures SessionOk(d, i) {
      assert SessionOk(c, i);
    }
    forall x | 0 <= x < |d.stamps| && Live(d, x) ensures Own(d, x) {
      assert Live(c, x) && Own(c, x);
    }
  }

  lemma NextMatchesIff(s: Agent, ev: Event)
    requires Matched(s.clients) && Enabled(s, ev)
    ensures Stamped(Next(s, ev).clients) && (Matched(Next(s, ev).clients) <==> Permitted(s, ev))
  {
    match ev
    case Connect(start, end, incarnation) => LeaseMatchesIff(s.clients, start, end, incarnation);
    case Disconnect(start, end, claimed) => LeaveMatches(s.clients, start, end, claimed);
    case Spawn(id) => SpawnMatchesIff(s.clients, id);
    case OutputAck(id, drained) => AcknowledgeMatches(s.clients, id, drained);
    case FreezeMessage(r, o) => SameMatches(s.clients, Next(s, ev).clients);
    case Top(o) => SameMatches(s.clients, Next(s, ev).clients);
    case Exit(x, drained) => ExitMatches(s.clients, x, drained);
    case _ =>
  }

  lemma {:induction false} RunMatches(freezer: bool, evs: seq<Event>)
    requires Run(Init(freezer), evs).Some? && NoClash(Init(freezer), evs)
    ensures Matched(Run(Init(freezer), evs).value.clients)
  {
    if evs != [] {
      RunMatches(freezer, evs[..|evs| - 1]);
      NextMatchesIff(Run(Init(freezer), evs[..|evs| - 1]).value, evs[|evs| - 1]);
    }
  }

  /** The exit ends its session, or keeps it until the unread output is acknowledged, and nothing else changes. */
  ghost predicate EndsOnly(c: Clients, d: Clients, x: nat, drained: bool)
  {
    && d.detached == c.detached && d.incarnations == c.incarnations
    && (forall id :: id in c.sessions && c.sessions[id].execution != x ==>
          id in d.sessions && d.sessions[id] == c.sessions[id])
    && (forall id :: id in d.sessions ==> id in c.sessions)
    && (forall id :: id in c.sessions && c.sessions[id].execution == x ==>
          if drained then id !in d.sessions else id in d.sessions && d.sessions[id] == Session(x, true))
  }

  /**
   In every run without a clash, whatever ranges are recycled and whatever was restored before: the
   exit of an execution of the present generation ends its own session and no other.
   */
  lemma RecycledRangesAreSafe(freezer: bool, evs: seq<Event>, x: nat, drained: bool)
    requires Run(Init(freezer), evs).Some? && NoClash(Init(freezer), evs)
    requires Unreported(Run(Init(freezer), evs).value.clients, x)
    ensures var c := Run(Init(freezer), evs).value.clients;
            c.stamps[x].generation == c.generation ==> EndsOnly(c, ReportExit(c, x, drained), x, drained)
  {
    RunMatches(freezer, evs);
    var c := Run(Init(freezer), evs).value.clients;
    assert Live(c, x) ==> Own(c, x);
    forall id | id in c.sessions && c.sessions[id].execution == x ensures c.stamps[x].id == id {
      assert SessionOk(c, id);
    }
  }

  /** A session whose exit waits is ended by the acknowledgement of everything sent, and by no earlier one. */
  lemma WaitingExitLeavesOnAck(freezer: bool, evs: seq<Event>, x: nat, drained: bool)
    requires Run(Init(freezer), evs).Some? && NoClash(Init(freezer), evs)
    requires Live(Run(Init(freezer), evs).value.clients, x)
    ensures var c := Run(Init(freezer), evs).value.clients;
            var id := c.stamps[x].id;
            id in c.sessions ==>
              Acknowledge(ReportExit(c, x, false), id, drained).sessions ==
              if drained then c.sessions - {id} else c.sessions[id := Session(x, true)]
  {
    RunMatches(freezer, evs);
    var c := Run(Init(freezer), evs).value.clients;
    assert Own(c, x);
  }

  /** What may end or replace the session of a running execution: nothing else does, and no acknowledgement. */
  predicate MayEnd(s: Agent, ev: Event, id: nat)
  {
    match ev
    case Exit(x, _) => Live(s.clients, x) && s.clients.stamps[x].id == id
    case Disconnect(start, end, claimed) => start <= id < end && claimed == Owner(s.clients.incarnations, id)
    case Spawn(i) => i == id && s.gate.latch.Running?
    case ThawMessage(a, mode, _) => mode.Restore? && s.gate.latch == Frozen(a)
    case _ => false
  }

  lemma RunningSessionsStay(s: Agent, ev: Event, id: nat)
    requires Enabled(s, ev) && id in s.clients.sessions && !s.clients.sessions[id].exited
    ensures var d := Next(s, ev).clients;
            (id in d.sessions && d.sessions[id] == s.clients.sessions[id]) || MayEnd(s, ev, id)
  {
    if ev.Disconnect? && Departs(s.clients.incarnations, ev.start, ev.end, ev.claimed) {
      var slot := ValidateRange(ev.start, ev.end).value;
      ValidRangesAreCanonical(ev.start, ev.end, slot);
      SlotIsTheOwningRange(id, slot);
    }
  }

  /** Every exit of the present generation would end its own session and no other. */
  ghost predicate ExitsAreSafe(c: Clients)
  {
    forall x :: 0 <= x < |c.stamps| && Unreported(c, x) && c.stamps[x].generation == c.generation ==>
      EndsOnly(c, ReportExit(c, x, true), x, true)
  }

  /** An exit is safe if and only if it finds its own session or none. */
  lemma SafeIffOwn(c: Clients, x: nat)
    requires Unreported(c, x) && c.stamps[x].generation == c.generation && Stamped(c)
    ensures EndsOnly(c, ReportExit(c, x, true), x, true) <==> (Live(c, x) ==> Own(c, x))
  {
    var id, d := c.stamps[x].id, ReportExit(c, x, true);
    forall i | i in c.sessions && c.sessions[i].execution == x ensures i == id && Live(c, x) {
      assert SessionOk(c, i);
    }
    if Live(c, x) && !Own(c, x) {
      assert id in c.sessions && c.sessions[id].execution != x && id !in d.sessions;
    }
  }

  lemma SafeIffMatched(c: Clients)
    requires Stamped(c)
    ensures ExitsAreSafe(c) <==> Matched(c)
  {
    forall x | 0 <= x < |c.stamps| && Unreported(c, x) && c.stamps[x].generation == c.generation
      ensures EndsOnly(c, ReportExit(c, x, true), x, true) <==> (Live(c, x) ==> Own(c, x))
    {
      SafeIffOwn(c, x);
    }
  }

  /** Exactly: after a run without a clash, one more event leaves every exit safe if and only if it is permitted. */
  lemma ExitsStaySafeIff(freezer: bool, evs: seq<Event>, ev: Event)
    requires Run(Init(freezer), evs).Some? && NoClash(Init(freezer), evs)
    requires Enabled(Run(Init(freezer), evs).value, ev)
    ensures ExitsAreSafe(Next(Run(Init(freezer), evs).value, ev).clients) <==>
            Permitted(Run(Init(freezer), evs).value, ev)
  {
    var s := Run(Init(freezer), evs).value;
    RunMatches(freezer, evs);
    NextMatchesIff(s, ev);
    SafeIffMatched(Next(s, ev).clients);
  }
}
