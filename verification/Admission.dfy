/**
 The dedicated bulk lane's input side over its mutable state: the transport ledger, the lease
 table, the byte budget and the queue of deferred records, each step proved to be the model's.
 */
module Admission {
  import opened Prelude
  import opened RelaySlots
  import opened AdmissionModel

  class InputWindow {
    var position: Counter
    var credit: Counter
    var exhausted: bool

    ghost function View(): Ledger
      reads this
    {
      Ledger(position, credit, exhausted)
    }

    constructor (initial: Counter)
      ensures View() == Ledger(Counter(0, 0), initial, false)
    {
      position, credit, exhausted := Counter(0, 0), initial, false;
    }

    /** Charge one frame; a refused one leaves the position alone. */
    method Admit(bytes: nat) returns (ok: bool)
      modifies `position
      ensures ok == Admits(old(View()), bytes)
      ensures View() == if ok then Charge(old(View()), bytes) else old(View())
    {
      var nextBytes, nextFrames := position.bytes + bytes, position.frames + 1;
      if nextBytes > U64_MAX || nextFrames > U64_MAX {
        return false;
      }
      if exhausted || nextBytes > credit.bytes || nextFrames > credit.frames {
        return false;
      }
      position := Counter(nextBytes, nextFrames);
      return true;
    }

    /** Dropping a charge. */
    method Release(bytes: nat)
      modifies `credit, `exhausted
      ensures View() == Refund(old(View()), bytes)
    {
      if credit.bytes + bytes > U64_MAX || credit.frames + 1 > U64_MAX {
        exhausted := true;
      } else {
        credit := Counter(credit.bytes + bytes, credit.frames + 1);
      }
    }
  }

  class BulkInput {
    const window: InputWindow
    var owners: map<nat, Incarnation>
    var available: nat
    var pending: seq<Frame>
    var live: seq<Frame>
    var others: seq<nat>
    var decoded: nat
    ghost var log: seq<Fate>

    ghost function View(): Lane
      reads this, window
    {
      Lane(owners, window.View(), available, pending, live, others, decoded, log)
    }

    constructor (initial: Counter)
      ensures View() == Init(initial) && fresh(window)
    {
      window := new InputWindow(initial);
      owners, available, pending, live, others, decoded, log := map[], BUDGET, [], [], [], 0, [];
    }

    method Establish(start: nat, end: nat, incarnation: Incarnation) returns (ok: bool)
      modifies `owners
      ensures ok == Connect(old(View()), start, end, incarnation).Some?
      ensures View() == if ok then Connect(old(View()), start, end, incarnation).value else old(View())
    {
      var slot := ValidateRange(start, end);
      if slot.None? || incarnation == 0 {
        return false;
      }
      if slot.value in owners && owners[slot.value] != incarnation {
        return false;
      }
      owners := owners[slot.value := incarnation];
      return true;
    }

    method Leave(start: nat, end: nat, claimed: Option<Incarnation>) returns (ok: bool)
      modifies `owners
      ensures ok == Disconnect(old(View()), start, end, claimed).Some?
      ensures View() == if ok then Disconnect(old(View()), start, end, claimed).value else old(View())
    {
      var slot := ValidateRange(start, end);
      if slot.None? {
        return false;
      }
      if claimed.Some? {
        if slot.value in owners && owners[slot.value] == claimed.value {
          owners := owners - {slot.value};
        }
        return true;
      }
      return slot.value !in owners;
    }

    /** Every client is detached: nobody owns a range until it connects again. */
    method DetachAll()
      modifies `owners
      ensures View() == Unowned(old(View()))
    {
      owners := map[];
    }

    method Discard(f: Frame)
      modifies window, `log
      ensures View() == Drop(old(View()), f)
    {
      window.Release(Wire(f));
      log := log + [Stale(f, Owner(owners, f.id))];
    }

    method HandOver(f: Frame)
      requires f.length <= available
      modifies `available, `live, `log
      ensures View() == Deliver(old(View()), f)
    {
      available := available - f.length;
      live := live + [f];
      log := log + [Delivered(f, Owner(owners, f.id))];
    }

    /** Drop the deferred records whose owner has left. */
    method RetainPending()
      modifies `pending, `log, window
      ensures View() == Retained(old(View()))
    {
      var waiting := pending;
      pending := [];
      ghost var before := View();
      for i := 0 to |waiting|
        invariant View() == Retain(before, waiting[..i])
      {
        assert waiting[..i + 1][..i] == waiting[..i];
        var f := waiting[i];
        if Owner(owners, f.id) == Some(f.incarnation) {
          pending := pending + [f];
        } else {
          Discard(f);
        }
      }
      assert waiting[..|waiting|] == waiting;
    }

    /** Admit, check and dispatch one decoded record. */
    method Receive(r: Raw, deferred: bool) returns (ok: bool, nowDeferred: bool)
      modifies this, window
      ensures ok == Decode(Turn(old(View()), deferred), r).Some?
      ensures ok ==> Turn(View(), nowDeferred) == Decode(Turn(old(View()), deferred), r).value
    {
      var f := Frame(decoded, r.id, r.incarnation, r.length);
      var admitted := window.Admit(Wire(f));
      if !admitted {
        return false, deferred;
      }
      decoded := decoded + 1;
      if Owner(owners, f.id) != Some(f.incarnation) {
        if f.incarnation in owners.Values {
          return false, deferred;
        }
        Discard(f);
        return true, deferred;
      }
      if deferred || f.length > available {
        pending := pending + [f];
        return true, true;
      }
      HandOver(f);
      return true, false;
    }

    /** One read turn: once the budget defers a record, the rest of the turn queues behind it. */
    method ReadAll(raws: seq<Raw>) returns (ok: bool)
      modifies this, window
      ensures ok == DecodeAll(Turn(old(View()), false), raws).Some?
      ensures ok ==> View() == DecodeAll(Turn(old(View()), false), raws).value.lane
    {
      var deferred := false;
      ghost var start := Turn(View(), false);
      for i := 0 to |raws|
        invariant DecodeAll(start, raws[..i]) == Some(Turn(View(), deferred))
      {
        assert raws[..i + 1][..i] == raws[..i];
        var admitted;
        admitted, deferred := Receive(raws[i], deferred);
        if !admitted {
          EndedStaysEnded(start, raws, i + 1);
          return false;
        }
      }
      assert raws[..|raws|] == raws;
      return true;
    }

    /** The budget granted the first deferred record. */
    method AcceptPermit() returns (ok: bool)
      requires pending != [] && pending[0].length <= available
      modifies this, window
      ensures ok == Grant(old(View())).Some?
      ensures ok ==> View() == Grant(old(View())).value
    {
      var f := pending[0];
      pending := pending[1..];
      if Owner(owners, f.id) != Some(f.incarnation) {
        if f.incarnation in owners.Values {
          return false;
        }
        Discard(f);
        return true;
      }
      HandOver(f);
      return true;
    }

    /** A stdin or inline message of the primary port, charged to the data lane. */
    method ReceiveOther(bytes: nat) returns (ok: bool)
      modifies `others, window
      ensures ok == ChargeOther(old(View()), bytes).Some?
      ensures View() == if ok then ChargeOther(old(View()), bytes).value else old(View())
    {
      ok := window.Admit(bytes);
      if ok {
        others := others + [bytes];
      }
    }

    method FinishOther(i: nat)
      requires i < |others|
      modifies `others, window
      ensures View() == DisposeOther(old(View()), i)
    {
      var bytes := others[i];
      others := others[..i] + others[i + 1..];
      window.Release(bytes);
    }

    /** A destination is done with a record. */
    method Finish(i: nat)
      requires i < |live|
      modifies `live, `available, window
      ensures View() == Dispose(old(View()), i)
    {
      var f := live[i];
      live := live[..i] + live[i + 1..];
      available := available + f.length;
      window.Release(Wire(f));
    }
  }

  lemma {:induction false} EndedStaysEnded(t: Turn, raws: seq<Raw>, i: nat)
    requires i <= |raws| && DecodeAll(t, raws[..i]).None?
    ensures DecodeAll(t, raws).None?
    decreases |raws|
  {
    if i == |raws| {
      assert raws[..i] == raws;
    } else {
      var front := raws[..|raws| - 1];
      assert front[..i] == raws[..i];
      EndedStaysEnded(t, front, i);
    }
  }
}
