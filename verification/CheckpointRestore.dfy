/** Restoring detaches client state exactly once per capture, and never mixes generations. */
module CheckpointRestore {
  import opened Prelude
  import opened RelaySlots
  import opened CheckpointModel

  /** Detachments since the latest fresh freeze. */
  function DetachesSince(custody: seq<Custody>): nat
  {
    if custody == [] then 0
    else if custody[|custody| - 1].FreshFreeze? then 0
    else DetachesSince(custody[..|custody| - 1]) + 1
  }

  /** At every moment of the history at most one detachment follows the latest fresh freeze. */
  predicate OncePerFreeze(custody: seq<Custody>)
  {
    custody == [] || (OncePerFreeze(custody[..|custody| - 1]) && DetachesSince(custody) <= 1)
  }

  ghost predicate KeysAreOld(c: Clients)
  {
    forall k :: k in c.detached ==> k.0 < c.generation
  }

  ghost predicate RestoreInv(s: Agent)
  {
    && OncePerFreeze(s.clients.custody)
    && (s.gate.latch.Frozen? && DetachesSince(s.clients.custody) > 0 ==>
          s.clients.restored == Some(s.gate.latch.attempt))
    && (DetachesSince(s.clients.custody) == 0 ==> s.clients.restored.None?)
    && KeysAreOld(s.clients)
  }

  lemma FreshCustody(c: seq<Custody>)
    requires OncePerFreeze(c)
    ensures OncePerFreeze(c + [FreshFreeze]) && DetachesSince(c + [FreshFreeze]) == 0
  {
    assert (c + [FreshFreeze])[..|c|] == c;
  }

  /** A freeze that leaves the latch frozen found it so, or captured. */
  lemma FreezeLatches(g: Gate, r: FreezeRequest, o: Outcome)
    ensures GateFreeze(g, r, o).latch.Frozen? ==>
              GateFreeze(g, r, o).latch == g.latch || (g.latch.Running? && Captures(g, r, o))
  {
  }

  lemma FreezeKeepsRestore(s: Agent, r: FreezeRequest, o: Outcome)
    requires RestoreInv(s)
    ensures RestoreInv(Freeze(s, r, o))
  {
    FreshCustody(s.clients.custody);
    FreezeLatches(s.gate, r, o);
  }

  lemma DetachOnce(s: Agent, a: string)
    requires RestoreInv(s) && OwnsFreeze(s.gate.latch, a) && s.clients.restored != Some(a)
    ensures OncePerFreeze(Detach(s.clients, a).custody) && KeysAreOld(Detach(s.clients, a))
  {
    var c := s.clients;
    assert (c.custody + [Detached(c.generation)])[..|c.custody|] == c.custody;
  }

  lemma ThawNeverFreezes(s: Agent, a: string, mode: Mode, o: Outcome)
    ensures GateThaw(s, a, mode, o).latch.Frozen? ==> GateThaw(s, a, mode, o).latch == s.gate.latch
  {
  }

  lemma ThawKeepsRestore(s: Agent, a: string, mode: Mode, o: Outcome)
    requires RestoreInv(s)
    ensures RestoreInv(Thaw(s, a, mode, o))
  {
    ThawNeverFreezes(s, a, mode, o);
    if Detaches(s, a, mode) {
      DetachOnce(s, a);
      var t := Thaw(s, a, mode, o);
      assert t.clients == Detach(s.clients, a) && s.gate.latch == Frozen(a);
    }
  }

  lemma NextKeepsRestore(s: Agent, ev: Event)
    requires RestoreInv(s) && Enabled(s, ev)
    ensures RestoreInv(Next(s, ev))
  {
    match ev
    case FreezeMessage(r, o) => FreezeKeepsRestore(s, r, o);
    case ThawMessage(a, mode, o) => ThawKeepsRestore(s, a, mode, o);
    case Top(o) =>
      var g := Release(s.gate);
      if PendingReady(g) {
        FreezeKeepsRestore(Agent(g.(pending := None), s.clients), g.pending.value, o);
      }
    case _ =>
  }

  lemma {:induction false} RunKeepsRestore(freezer: bool, evs: seq<Event>)
    requires Run(Init(freezer), evs).Some?
    ensures RestoreInv(Run(Init(freezer), evs).value)
  {
    if evs != [] {
      RunKeepsRestore(freezer, evs[..|evs| - 1]);
      NextKeepsRestore(Run(Init(freezer), evs[..|evs| - 1]).value, evs[|evs| - 1]);
    }
  }

  /** For every run, disciplined or not: each fresh freeze is followed by at most one detachment. */
  lemma {:induction false} RestoredAtMostOnce(freezer: bool, evs: seq<Event>, n: nat)
    requires Run(Init(freezer), evs).Some? && n <= |Run(Init(freezer), evs).value.clients.custody|
    ensures DetachesSince(Run(Init(freezer), evs).value.clients.custody[..n]) <= 1
  {
    RunKeepsRestore(freezer, evs);
    OnceAt(Run(Init(freezer), evs).value.clients.custody, n);
  }

  lemma {:induction false} OnceAt(custody: seq<Custody>, n: nat)
    requires OncePerFreeze(custody) && n <= |custody|
    ensures DetachesSince(custody[..n]) <= 1
    decreases |custody|
  {
    if n < |custody| {
      OnceAt(custody[..|custody| - 1], n);
      assert custody[..|custody| - 1][..n] == custody[..n];
    } else {
      assert custody[..n] == custody;
    }
  }

  /** In every run the owner's restore detaches the clients exactly if nothing did since the fresh freeze. */
  lemma RestoreDetachesIff(freezer: bool, evs: seq<Event>, a: string, o: Outcome)
    requires Run(Init(freezer), evs).Some? && Run(Init(freezer), evs).value.gate.latch == Frozen(a) && ValidAttempt(a)
    ensures var s := Run(Init(freezer), evs).value;
            Thaw(s, a, Restore, o).clients ==
            if DetachesSince(s.clients.custody) == 0 && (s.gate.pending.Some? ==> s.gate.pending.value.attempt == a)
            then Detach(s.clients, a) else s.clients
  {
    RunKeepsRestore(freezer, evs);
  }

  /** In every run a detachment keeps every session detached before and loses no live one. */
  lemma DetachOverwritesNothing(freezer: bool, evs: seq<Event>, a: string)
    requires Run(Init(freezer), evs).Some?
    ensures var c := Run(Init(freezer), evs).value.clients;
            var d := Detach(c, a);
            && (forall k :: k in c.detached ==> k in d.detached && d.detached[k] == c.detached[k])
            && (forall id :: id in c.sessions && !c.sessions[id].exited ==>
                  (c.generation, id) in d.detached && d.detached[(c.generation, id)] == c.sessions[id])
            && d.sessions == map[] && d.incarnations == map[]
  {
    RunKeepsRestore(freezer, evs);
    var c := Run(Init(freezer), evs).value.clients;
    assert forall k :: k in c.detached ==> k.0 != c.generation;
  }

  // ---- retries ----

  /** A fresh capture was recorded at or after place n of the history. */
  predicate FreshSince(custody: seq<Custody>, n: nat)
  {
    exists i :: n <= i < |custody| && custody[i].FreshFreeze?
  }

  /** The attempt was restored, and no freeze of another attempt is held. */
  predicate Restored(s: Agent, a: string, generation: nat)
  {
    && s.clients.restored == Some(a)
    && s.clients.generation == generation
    && (s.gate.latch.Frozen? ==> s.gate.latch.attempt == a)
  }

  lemma FreezeKeepsRestored(s: Agent, r: FreezeRequest, o: Outcome, a: string, generation: nat, n: nat)
    requires n <= |s.clients.custody| && (Restored(s, a, generation) || FreshSince(s.clients.custody, n))
    ensures var t := Freeze(s, r, o);
            s.clients.custody <= t.clients.custody && (Restored(t, a, generation) || FreshSince(t.clients.custody, n))
  {
    var t := Freeze(s, r, o);
    if t.clients.custody != s.clients.custody {
      assert t.clients.custody[|s.clients.custody|].FreshFreeze?;
    } else if FreshSince(s.clients.custody, n) {
      assert FreshSince(t.clients.custody, n);
    }
  }

  lemma NextKeepsRestored(s: Agent, ev: Event, a: string, generation: nat, n: nat)
    requires n <= |s.clients.custody| && (Restored(s, a, generation) || FreshSince(s.clients.custody, n))
    requires Enabled(s, ev)
    ensures var t := Next(s, ev);
            s.clients.custody <= t.clients.custody && (Restored(t, a, generation) || FreshSince(t.clients.custody, n))
  {
    match ev
    case FreezeMessage(r, o) => FreezeKeepsRestored(s, r, o, a, generation, n);
    case ThawMessage(b, mode, o) =>
      ThawNeverFreezes(s, b, mode, o);
      if FreshSince(s.clients.custody, n) {
        var i :| n <= i < |s.clients.custody| && s.clients.custody[i].FreshFreeze?;
        assert Next(s, ev).clients.custody[i].FreshFreeze?;
      }
    case Top(o) =>
      var g := Release(s.gate);
      if PendingReady(g) {
        FreezeKeepsRestored(Agent(g.(pending := None), s.clients), g.pending.value, o, a, generation, n);
      }
    case _ =>
  }

  lemma {:induction false} RunKeepsRestored(s: Agent, evs: seq<Event>, a: string)
    requires Restored(s, a, s.clients.generation) && Run(s, evs).Some?
    ensures var t := Run(s, evs).value;
            && s.clients.custody <= t.clients.custody
            && (Restored(t, a, s.clients.generation) || FreshSince(t.clients.custody, |s.clients.custody|))
  {
    if evs != [] {
      var front := evs[..|evs| - 1];
      RunKeepsRestored(s, front, a);
      NextKeepsRestored(Run(s, front).value, evs[|evs| - 1], a, s.clients.generation, |s.clients.custody|);
    }
  }

  /** A restore that was not yet done leaves the attempt restored. */
  lemma DetachRestores(s: Agent, a: string, o: Outcome)
    requires Detaches(s, a, Restore)
    ensures Restored(Thaw(s, a, Restore, o), a, s.clients.generation + 1)
  {
    ThawNeverFreezes(s, a, Restore, o);
  }

  /**
   After a restore, and whatever happens next until a fresh capture, retrying it leaves alone
   the clients it meets: those that came since, their sessions, and everything set aside.
   */
  lemma RetriesSpareClients(s: Agent, a: string, first: Outcome, evs: seq<Event>, retry: Outcome)
    requires Detaches(s, a, Restore) && Run(Thaw(s, a, Restore, first), evs).Some?
    requires !FreshSince(Run(Thaw(s, a, Restore, first), evs).value.clients.custody, |s.clients.custody|)
    ensures var t := Run(Thaw(s, a, Restore, first), evs).value;
            && t.clients.generation == s.clients.generation + 1
            && Thaw(t, a, Restore, retry).clients == t.clients
  {
    var u := Thaw(s, a, Restore, first);
    DetachRestores(s, a, first);
    RunKeepsRestored(u, evs, a);
  }

  /** The attempt gave its cut up and nothing has been frozen since. */
  predicate GivenUp(s: Agent, a: string)
  {
    s.gate.aborted == Some(a) && s.gate.pending.None? && s.gate.latch.Running?
  }

  lemma ThawOfUncutRefusesRestore(s: Agent, a: string, o: Outcome)
    requires Uncut(s.gate, a)
    ensures Thaw(s, a, Restore, o).clients == s.clients
    ensures Thaw(s, a, Restore, o).gate == Answer(s.gate, ErrorReply(a))
    ensures !ForeignPending(s.gate, a) ==> GivenUp(Thaw(s, a, Continue, o), a)
  {
  }

  /** Neither the latch nor a pending cut belongs to the attempt. */
  predicate Ousted(s: Agent, a: string)
  {
    s.gate.latch != Frozen(a) && (s.gate.pending.Some? ==> s.gate.pending.value.attempt != a)
  }

  lemma FreezeKeepsOusted(g: Gate, c: Clients, r: FreezeRequest, o: Outcome, a: string)
    requires Ousted(Agent(g, c), a) && r.attempt != a
    ensures Ousted(Agent(GateFreeze(g, r, o), c), a)
  {
  }

  lemma NextKeepsOusted(s: Agent, ev: Event, a: string)
    requires Ousted(s, a) && Enabled(s, ev) && (ev.FreezeMessage? ==> ev.request.attempt != a)
    ensures Ousted(Next(s, ev), a)
  {
    match ev
    case FreezeMessage(r, o) => FreezeKeepsOusted(s.gate, s.clients, r, o, a);
    case ThawMessage(b, mode, o) => ThawNeverFreezes(s, b, mode, o);
    case Top(o) =>
      var g := Release(s.gate);
      if PendingReady(g) {
        FreezeKeepsOusted(g.(pending := None), s.clients, g.pending.value, o, a);
      }
    case _ =>
  }

  /** An abandoned cut can never be restored, whatever other attempts do, until its attempt freezes again. */
  lemma {:induction false} AbandonedIsNeverRestored(s: Agent, evs: seq<Event>, a: string, mode: Mode)
    requires GivenUp(s, a) && Run(s, evs).Some?
    requires forall i :: 0 <= i < |evs| && evs[i].FreezeMessage? ==> evs[i].request.attempt != a
    ensures Ousted(Run(s, evs).value, a) && !Detaches(Run(s, evs).value, a, mode)
  {
    if evs != [] {
      AbandonedIsNeverRestored(s, evs[..|evs| - 1], a, mode);
      NextKeepsOusted(Run(s, evs[..|evs| - 1]).value, evs[|evs| - 1], a);
    }
  }
}
