/**
 Exit reports and the tables they end entries in: across departures, recycled ranges and
 restores an exit ends its own execution and no other, as long as no correlation is reused
 while an execution under it has not reported.
 */
module CheckpointExits {
  import opened Prelude
  import opened RelaySlots
  import opened CheckpointModel

  /** Spawned, and its exit has not arrived. */
  predicate Unreported(c: Clients, x: nat)
  {
    x < |c.stamps| && x !in c.reported
  }

  /** The execution belongs to this generation and carries the correlation. */
  predicate Clashes(c: Clients, x: nat, id: nat)
    requires x < |c.stamps|
  {
    c.stamps[x].generation == c.generation && c.stamps[x].id == id
  }

  /** No execution of this generation that has yet to report carries the correlation. */
  predicate FreshId(c: Clients, id: nat)
  {
    forall x :: 0 <= x < |c.stamps| && x !in c.reported ==> !Clashes(c, x, id)
  }

  predicate NoReuse(s: Agent, evs: seq<Event>)
    requires Run(s, evs).Some?
  {
    evs == [] ||
    (var front, ev := evs[..|evs| - 1], evs[|evs| - 1];
     NoReuse(s, front) && (ev.Spawn? ==> FreshId(Run(s, front).value.clients, ev.id)))
  }

  /** The entry of a current session carries the stamp of its execution, which is owed a report until it exited. */
  predicate SessionOk(c: Clients, id: nat)
    requires id in c.sessions
  {
    var x := c.sessions[id].execution;
    && x < |c.stamps|
    && c.stamps[x].generation == c.generation && c.stamps[x].id == id
    && !StaleOwner(c, c.stamps[x])
    && (!c.sessions[id].exited ==> x !in c.reported)
  }

  predicate DetachedOk(c: Clients, k: (nat, nat))
    requires k in c.detached
  {
    var x := c.detached[k].execution;
    Unreported(c, x) && c.stamps[x].generation == k.0 < c.generation && c.stamps[x].id == k.1
  }

  /** Whatever entry the pending report of an execution would find is its own. */
  predicate Finds(c: Clients, x: nat)
    requires x < |c.stamps|
  {
    var stamp := c.stamps[x];
    && stamp.generation <= c.generation
    && (stamp.generation == c.generation && stamp.id in c.sessions ==> c.sessions[stamp.id].execution == x)
    && ((stamp.generation, stamp.id) in c.detached ==> c.detached[(stamp.generation, stamp.id)].execution == x)
  }

  ghost predicate Entries(c: Clients)
  {
    && (forall x :: x in c.reported ==> x < |c.stamps|)
    && (forall id :: id in c.sessions ==> SessionOk(c, id))
    && (forall k :: k in c.detached ==> DetachedOk(c, k))
  }

  ghost predicate Precise(c: Clients)
  {
    Entries(c) && forall x :: 0 <= x < |c.stamps| && x !in c.reported ==> Finds(c, x)
  }

  lemma DetachedIsOld(c: Clients)
    requires Entries(c)
    ensures forall k :: k in c.detached ==> k.0 < c.generation
  {
    forall k | k in c.detached ensures k.0 < c.generation {
      assert DetachedOk(c, k);
    }
  }

  lemma SpawnKeeps(c: Clients, id: nat)
    requires Precise(c) && FreshId(c, id)
    ensures Precise(SpawnExec(c, id))
  {
    var d := SpawnExec(c, id);
    DetachedIsOld(c);
    forall i | i in d.sessions ensures SessionOk(d, i) {
      assert i != id ==> SessionOk(c, i);
    }
    forall k | k in d.detached ensures DetachedOk(d, k) {
      assert DetachedOk(c, k);
    }
    forall x | 0 <= x < |d.stamps| && x !in d.reported ensures Finds(d, x) {
      assert x < |c.stamps| ==> Finds(c, x);
    }
  }

  /** A range changes owner only when it had none. */
  lemma LeaseKeeps(c: Clients, start: nat, end: nat, incarnation: Incarnation)
    requires Precise(c) && Lease(c.incarnations, start, end, incarnation).Some?
    ensures Precise(c.(incarnations := Lease(c.incarnations, start, end, incarnation).value))
  {
    var d := c.(incarnations := Lease(c.incarnations, start, end, incarnation).value);
    forall i | i in d.sessions ensures SessionOk(d, i) {
      assert SessionOk(c, i);
    }
    forall k | k in d.detached ensures DetachedOk(d, k) {
      assert DetachedOk(c, k);
    }
    forall x | 0 <= x < |d.stamps| && x !in d.reported ensures Finds(d, x) {
      assert Finds(c, x);
    }
  }

  /** The sessions that stay lie in other ranges, whose owners stay. */
  lemma LeaveKeeps(c: Clients, start: nat, end: nat, claimed: Option<Incarnation>)
    requires Precise(c) && Unlease(c.incarnations, start, end, claimed).Some?
    ensures Precise(Leave(c, start, end, claimed))
  {
    var d := Leave(c, start, end, claimed);
    if Departs(c.incarnations, start, end, claimed) {
      var slot := ValidateRange(start, end).value;
      ValidRangesAreCanonical(start, end, slot);
      forall i | i in d.sessions ensures SessionOk(d, i) {
        assert SessionOk(c, i);
        SlotIsTheOwningRange(i, slot);
        assert Owner(d.incarnations, i) == Owner(c.incarnations, i);
      }
      forall k | k in d.detached ensures DetachedOk(d, k) {
        assert DetachedOk(c, k);
      }
      forall x | 0 <= x < |d.stamps| && x !in d.reported ensures Finds(d, x) {
        assert Finds(c, x);
      }
    }
  }

  lemma AcknowledgeKeeps(c: Clients, id: nat, drained: bool)
    requires Precise(c)
    ensures Precise(Acknowledge(c, id, drained))
  {
    var d := Acknowledge(c, id, drained);
    forall i | i in d.sessions ensures SessionOk(d, i) {
      assert SessionOk(c, i);
    }
    forall k | k in d.detached ensures DetachedOk(d, k) {
      assert DetachedOk(c, k);
    }
    forall x | 0 <= x < |d.stamps| && x !in d.reported ensures Finds(d, x) {
      assert Finds(c, x);
    }
  }

  lemma DetachKeeps(c: Clients, a: string)
    requires Precise(c)
    ensures Precise(Detach(c, a))
  {
    var d := Detach(c, a);
    forall k | k in d.detached ensures DetachedOk(d, k) {
      if k in Survivors(c.sessions, c.generation) {
        assert SessionOk(c, k.1);
      } else {
        assert DetachedOk(c, k);
      }
    }
    forall x | 0 <= x < |d.stamps| && x !in d.reported ensures Finds(d, x) {
      assert Finds(c, x);
    }
  }

  lemma ExitKeepsSession(c: Clients, x: nat, drained: bool, id: nat)
    requires Unreported(c, x) && Finds(c, x) && id in ReportExit(c, x, drained).sessions
    requires id in c.sessions && SessionOk(c, id)
    ensures SessionOk(ReportExit(c, x, drained), id)
  {
  }

  lemma ExitKeepsDetached(c: Clients, x: nat, drained: bool, k: (nat, nat))
    requires Unreported(c, x) && k in ReportExit(c, x, drained).detached && k in c.detached
    requires DetachedOk(c, k) && (forall i :: i in c.sessions ==> SessionOk(c, i))
    requires forall i :: i in c.detached ==> i.0 < c.generation
    ensures DetachedOk(ReportExit(c, x, drained), k)
  {
  }

  lemma ExitKeepsFinds(c: Clients, x: nat, drained: bool, y: nat)
    requires x < |c.stamps| && y < |c.stamps| && Finds(c, y)
    ensures Finds(ReportExit(c, x, drained), y)
  {
  }

  lemma ExitKeeps(c: Clients, x: nat, drained: bool)
    requires Precise(c) && Unreported(c, x)
    ensures Precise(ReportExit(c, x, drained))
  {
    var d := ReportExit(c, x, drained);
    DetachedIsOld(c);
    forall i | i in d.sessions ensures SessionOk(d, i) {
      ExitKeepsSession(c, x, drained, i);
    }
    forall k | k in d.detached ensures DetachedOk(d, k) {
      ExitKeepsDetached(c, x, drained, k);
    }
    forall y | 0 <= y < |d.stamps| && y !in d.reported ensures Finds(d, y) {
      ExitKeepsFinds(c, x, drained, y);
    }
  }

  /** Bookkeeping of captures does not concern the tables. */
  lemma SameTables(c: Clients, d: Clients)
    requires Precise(c) && c.(restored := d.restored, custody := d.custody) == d
    ensures Precise(d)
  {
    forall i | i in d.sessions ensures SessionOk(d, i) {
      assert SessionOk(c, i);
    }
    forall k | k in d.detached ensures DetachedOk(d, k) {
      assert DetachedOk(c, k);
    }
    forall x | 0 <= x < |d.stamps| && x !in d.reported ensures Finds(d, x) {
      assert Finds(c, x);
    }
  }

  lemma NextKeeps(s: Agent, ev: Event)
    requires Precise(s.clients) && Enabled(s, ev) && (ev.Spawn? ==> FreshId(s.clients, ev.id))
    ensures Precise(Next(s, ev).clients)
  {
    match ev
    case Connect(start, end, incarnation) => LeaseKeeps(s.clients, start, end, incarnation);
    case Disconnect(start, end, claimed) => LeaveKeeps(s.clients, start, end, claimed);
    case Spawn(id) => SpawnKeeps(s.clients, id);
    case OutputAck(id, drained) => AcknowledgeKeeps(s.clients, id, drained);
    case FreezeMessage(r, o) => SameTables(s.clients, Next(s, ev).clients);
    case ThawMessage(a, mode, o) => DetachKeeps(s.clients, a);
    case Top(o) => SameTables(s.clients, Next(s, ev).clients);
    case Exit(x, drained) => ExitKeeps(s.clients, x, drained);
    case _ =>
  }

  lemma {:induction false} RunKeeps(freezer: bool, evs: seq<Event>)
    requires Run(Init(freezer), evs).Some? && NoReuse(Init(freezer), evs)
    ensures Precise(Run(Init(freezer), evs).value.clients)
  {
    if evs != [] {
      RunKeeps(freezer, evs[..|evs| - 1]);
      NextKeeps(Run(Init(freezer), evs[..|evs| - 1]).value, evs[|evs| - 1]);
    }
  }

  /** No table holds the execution, except as one whose exit waits for unread output. */
  ghost predicate Ended(c: Clients, x: nat)
  {
    && (forall id :: id in c.sessions && c.sessions[id].execution == x ==> c.sessions[id].exited)
    && (forall k :: k in c.detached ==> c.detached[k].execution != x)
  }

  /** Every entry of another execution is still there, unchanged. */
  ghost predicate SparesOthers(c: Clients, d: Clients, x: nat)
  {
    && (forall id :: id in c.sessions && c.sessions[id].execution != x ==>
          id in d.sessions && d.sessions[id] == c.sessions[id])
    && (forall k :: k in c.detached && c.detached[k].execution != x ==>
          k in d.detached && d.detached[k] == c.detached[k])
  }

  /**
   For every run that reuses no correlation early: an exit, however late and across however many
   departures and restores, ends its own execution and touches no other.
   */
  lemma ExitsEndTheirOwn(freezer: bool, evs: seq<Event>, x: nat, drained: bool)
    requires Run(Init(freezer), evs).Some? && NoReuse(Init(freezer), evs)
    requires Unreported(Run(Init(freezer), evs).value.clients, x)
    ensures var c := Run(Init(freezer), evs).value.clients;
            var d := ReportExit(c, x, drained);
            Ended(d, x) && SparesOthers(c, d, x)
  {
    RunKeeps(freezer, evs);
    var c := Run(Init(freezer), evs).value.clients;
    var d := ReportExit(c, x, drained);
    assert Finds(c, x);
    forall id | id in d.sessions && d.sessions[id].execution == x ensures d.sessions[id].exited {
      assert SessionOk(c, id);
    }
    forall k | k in d.detached ensures d.detached[k].execution != x {
      assert DetachedOk(c, k);
    }
  }

  // ---- inherited exits, with or without reuse ----

  function KeyOf(c: Clients, x: nat): (nat, nat)
    requires x < |c.stamps|
  {
    (c.stamps[x].generation, c.stamps[x].id)
  }

  /** Reports of executions that belong to earlier generations. */
  ghost predicate Inherited(c: Clients, evs: seq<Event>)
  {
    forall i :: 0 <= i < |evs| ==>
      evs[i].Exit? && evs[i].execution < |c.stamps| && c.stamps[evs[i].execution].generation != c.generation
  }

  ghost predicate Named(c: Clients, evs: seq<Event>, k: (nat, nat))
  {
    exists i :: 0 <= i < |evs| && evs[i].Exit? && evs[i].execution < |c.stamps| && KeyOf(c, evs[i].execution) == k
  }

  lemma NamedByLast(c: Clients, evs: seq<Event>)
    requires evs != [] && Inherited(c, evs)
    ensures forall k :: Named(c, evs, k) <==> Named(c, evs[..|evs| - 1], k) || KeyOf(c, evs[|evs| - 1].execution) == k
  {
    var front := evs[..|evs| - 1];
    forall k ensures Named(c, evs, k) <==> Named(c, front, k) || KeyOf(c, evs[|evs| - 1].execution) == k {
      if Named(c, front, k) {
        var i :| 0 <= i < |front| && KeyOf(c, front[i].execution) == k;
        assert evs[i] == front[i];
      }
      if Named(c, evs, k) && KeyOf(c, evs[|evs| - 1].execution) != k {
        var i :| 0 <= i < |evs| && KeyOf(c, evs[i].execution) == k;
        assert evs[i] == front[i];
      }
    }
  }

  /** Any number of inherited exits removes exactly the detached entries they name, and no current session. */
  lemma {:induction false} OldExitsSpareCurrentSessions(s: Agent, evs: seq<Event>)
    requires Run(s, evs).Some? && Inherited(s.clients, evs)
    ensures var c, d := s.clients, Run(s, evs).value.clients;
            && d.sessions == c.sessions && d.incarnations == c.incarnations
            && d.generation == c.generation && d.stamps == c.stamps
            && (forall k :: k in d.detached <==> k in c.detached && !Named(c, evs, k))
            && (forall k :: k in d.detached ==> d.detached[k] == c.detached[k])
  {
    if evs != [] {
      OldExitsSpareCurrentSessions(s, evs[..|evs| - 1]);
      NamedByLast(s.clients, evs);
    }
  }

  // ---- exactly when ----

  /** No execution is stamped with a generation that has not begun. */
  ghost predicate Past(c: Clients)
  {
    forall x :: 0 <= x < |c.stamps| ==> c.stamps[x].generation <= c.generation
  }

  lemma NextKeepsPast(s: Agent, ev: Event)
    requires Past(s.clients) && Enabled(s, ev)
    ensures Past(Next(s, ev).clients)
  {
  }

  lemma {:induction false} RunKeepsPast(freezer: bool, evs: seq<Event>)
    requires Run(Init(freezer), evs).Some?
    ensures Past(Run(Init(freezer), evs).value.clients)
  {
    if evs != [] {
      RunKeepsPast(freezer, evs[..|evs| - 1]);
      NextKeepsPast(Run(Init(freezer), evs[..|evs| - 1]).value, evs[|evs| - 1]);
    }
  }

  /** An execution is spawned and set aside by a restore: the report of x takes its place away. */
  predicate Displaces(c: Clients, x: nat, id: nat, a: string)
    requires x < |c.stamps|
  {
    var d := Detach(SpawnExec(c, id), a);
    (c.generation, id) in d.detached && (c.generation, id) !in ReportExit(d, x, true).detached
  }

  lemma DisplacesIffClashes(c: Clients, x: nat, id: nat, a: string)
    requires x < |c.stamps| && c.stamps[x].generation <= c.generation
    ensures Displaces(c, x, id, a) <==> Clashes(c, x, id)
  {
    var d := Detach(SpawnExec(c, id), a);
    assert (c.generation, id) in Survivors(SpawnExec(c, id).sessions, c.generation);
    assert d.stamps[x] == c.stamps[x] && d.generation == c.generation + 1;
  }

  /**
   For every run: a new execution can lose its place to the pending report of another, after a
   restore, exactly when its correlation was not fresh. Inherited exits are matched without owner.
   */
  lemma NewcomerIsDisplacedIff(freezer: bool, evs: seq<Event>, id: nat, a: string)
    requires Run(Init(freezer), evs).Some?
    ensures var c := Run(Init(freezer), evs).value.clients;
            (exists x :: Unreported(c, x) && Displaces(c, x, id, a)) <==> !FreshId(c, id)
  {
    RunKeepsPast(freezer, evs);
    var c := Run(Init(freezer), evs).value.clients;
    if !FreshId(c, id) {
      var x :| 0 <= x < |c.stamps| && x !in c.reported && Clashes(c, x, id);
      DisplacesIffClashes(c, x, id, a);
      assert Unreported(c, x);
    } else {
      forall x | Unreported(c, x) ensures !Displaces(c, x, id, a) {
        DisplacesIffClashes(c, x, id, a);
      }
    }
  }

  const RangeEnd: nat := 33554431

  /** A client that spawns and departs, and a second one on the same range. */
  const Recycling: seq<Event> :=
    [Connect(1, RangeEnd, 7), Spawn(1), Disconnect(1, RangeEnd, Some(7)), Connect(1, RangeEnd, 8)]

  lemma FirstRange(incarnation: Incarnation)
    requires incarnation != 0
    ensures Lease(map[], 1, RangeEnd, incarnation) == Some(map[0 := incarnation])
    ensures Departs(map[0 := incarnation], 1, RangeEnd, Some(incarnation))
    ensures Unlease(map[0 := incarnation], 1, RangeEnd, Some(incarnation)) == Some(map[])
  {
    assert IdRange(0) == Some((1, RangeEnd));
    ValidRangesAreCanonical(1, RangeEnd, 0);
    assert map[0 := incarnation] - {0} == map[];
  }

  /** The tables after the first client spawned, and after it left. */
  const Spawned: Clients := SpawnExec(NoClients.(incarnations := map[0 := 7]), 1)
  const Departed: Clients := Spawned.(incarnations := map[], sessions := map[])

  lemma FirstLeaves()
    ensures Unlease(Spawned.incarnations, 1, RangeEnd, Some(7)).Some?
            && Leave(Spawned, 1, RangeEnd, Some(7)) == Departed
  {
    FirstRange(7);
    assert Outside(Spawned.sessions, 1, RangeEnd) == map[];
  }

  lemma RecyclingRuns()
    ensures Run(Init(true), Recycling[..1]) == Some(Init(true).(clients := NoClients.(incarnations := map[0 := 7])))
    ensures Run(Init(true), Recycling) == Some(Init(true).(clients := Departed.(incarnations := map[0 := 8])))
  {
    var s := Init(true);
    assert Recycling[..0] == [] && Recycling[..4] == Recycling;
    FirstRange(7);
    Step(s, Recycling, 0, s, s.(clients := NoClients.(incarnations := map[0 := 7])));
    Step(s, Recycling, 1, s.(clients := NoClients.(incarnations := map[0 := 7])), s.(clients := Spawned));
    FirstLeaves();
    Step(s, Recycling, 2, s.(clients := Spawned), s.(clients := Departed));
    FirstRange(8);
    Step(s, Recycling, 3, s.(clients := Departed), s.(clients := Departed.(incarnations := map[0 := 8])));
  }

  /** It leaves the second client a correlation whose first execution has yet to report. */
  lemma RecycledRangeExposes()
    ensures Run(Init(true), Recycling).Some? && NoReuse(Init(true), Recycling)
    ensures var s := Run(Init(true), Recycling).value;
            Enabled(s, Spawn(1)) && !FreshId(s.clients, 1) && s.clients.sessions == map[]
  {
    RecyclingRuns();
    assert Recycling[..4] == Recycling;
    assert Clashes(Departed.(incarnations := map[0 := 8]), 0, 1);
    UnrollNoReuse(Init(true), Recycling, 4);
  }

  lemma {:induction false} UnrollNoReuse(s: Agent, evs: seq<Event>, n: nat)
    requires n <= |evs| && Run(s, evs[..n]).Some?
    requires forall i :: 0 <= i < n && evs[i].Spawn? ==>
               Run(s, evs[..i]).Some? && FreshId(Run(s, evs[..i]).value.clients, evs[i].id)
    ensures NoReuse(s, evs[..n])
  {
    if n > 0 {
      Unroll(s, evs, n);
      UnrollNoReuse(s, evs, n - 1);
      assert evs[..n][..n - 1] == evs[..n - 1];
    }
  }
}
