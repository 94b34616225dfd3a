/**
 Correlation-id ranges leased to relay clients, and the per-owner bitmap of
 retired correlations that the bulk writer keeps as tombstones.
 */
module RelaySlots {
  import opened Prelude

  /** Random identity of one ownership period; only ever compared for equality. */
  type Incarnation = nat

  const MAX_CLIENTS: nat := 128
  const RANGE_STEP: nat := 0xFFFF_FFFF / MAX_CLIENTS

  /** Half-open id range of one slot; 32-bit arithmetic cannot overflow below MAX_CLIENTS. */
  function IdRange(slot: nat): (r: Option<(nat, nat)>)
  {
    if slot >= MAX_CLIENTS then None
    else Some((slot * RANGE_STEP + 1, slot * RANGE_STEP + RANGE_STEP))
  }

  function Slot(id: nat): (r: Option<nat>)
  {
    var slot := id / RANGE_STEP;
    match IdRange(slot)
    case None => None
    case Some((start, end)) => if start <= id < end then Some(slot) else None
  }

  /** The slot whose canonical range is exactly `[start, end)`. */
  function ValidateRange(start: nat, end: nat): (r: Option<nat>)
  {
    match Slot(start)
    case None => None
    case Some(slot) => if IdRange(slot) == Some((start, end)) then Some(slot) else None
  }

  /** Stated with the step written out, so that the division is by a number. */
  lemma InRangeDivides(id: nat, slot: nat)
    requires slot * 33554431 <= id < slot * 33554431 + 33554431
    ensures id / 33554431 == slot
  {
  }

  /** Every id lies in at most one range, and `Slot` finds it exactly when it lies in one. */
  lemma SlotIsTheOwningRange(id: nat, slot: nat)
    ensures Slot(id) == Some(slot) <==>
            IdRange(slot).Some? && IdRange(slot).value.0 <= id < IdRange(slot).value.1
  {
    if IdRange(slot).Some? && IdRange(slot).value.0 <= id < IdRange(slot).value.1 {
      assert RANGE_STEP == 33554431;
      InRangeDivides(id, slot);
    }
  }

  /** A range names a slot exactly when it is that slot's canonical range. */
  lemma ValidRangesAreCanonical(start: nat, end: nat, slot: nat)
    ensures ValidateRange(start, end) == Some(slot) <==> IdRange(slot) == Some((start, end))
  {
    if IdRange(slot) == Some((start, end)) {
      SlotIsTheOwningRange(start, slot);
    }
  }

  // ---- leases ----

  /** The client that leases the range an id lies in. */
  function Owner(owners: map<nat, Incarnation>, id: nat): Option<Incarnation>
  {
    match Slot(id)
    case None => None
    case Some(slot) => if slot in owners then Some(owners[slot]) else None
  }

  /** A client takes a range; None is a refusal that ends the agent. */
  function Lease(owners: map<nat, Incarnation>, start: nat, end: nat, incarnation: Incarnation)
    : Option<map<nat, Incarnation>>
  {
    match ValidateRange(start, end)
    case None => None
    case Some(slot) =>
      if incarnation == 0 || (slot in owners && owners[slot] != incarnation) then None
      else Some(owners[slot := incarnation])
  }

  /** The departure names the current owner of the range, or a range that was never leased. */
  predicate Departs(owners: map<nat, Incarnation>, start: nat, end: nat, claimed: Option<Incarnation>)
  {
    match ValidateRange(start, end)
    case None => false
    case Some(slot) =>
      if claimed.Some? then slot in owners && owners[slot] == claimed.value else slot !in owners
  }

  /** A client gives its range back; a late departure of an old owner is ignored. */
  function Unlease(owners: map<nat, Incarnation>, start: nat, end: nat, claimed: Option<Incarnation>)
    : Option<map<nat, Incarnation>>
  {
    match ValidateRange(start, end)
    case None => None
    case Some(slot) =>
      if Departs(owners, start, end, claimed) then Some(owners - {slot})
      else if claimed.Some? then Some(owners)
      else None
  }

  /** The bounds are the canonical range of the slot. */
  predicate Spans(slot: nat, start: nat, end: nat)
  {
    slot < MAX_CLIENTS && start == slot * RANGE_STEP + 1 && end == slot * RANGE_STEP + RANGE_STEP
  }

  lemma SpansOne(slot: nat, start: nat, end: nat)
    ensures Spans(slot, start, end) <==> ValidateRange(start, end) == Some(slot)
  {
    ValidRangesAreCanonical(start, end, slot);
  }

  /**
   A lease is granted iff the range is a slot's own and free or already the client's; it changes the
   owner of that range alone.
   */
  lemma LeaseIsExact(owners: map<nat, Incarnation>, start: nat, end: nat, incarnation: Incarnation, id: nat)
    ensures Lease(owners, start, end, incarnation).Some? <==>
            && incarnation != 0
            && exists slot :: Spans(slot, start, end) && (slot in owners ==> owners[slot] == incarnation)
    ensures Lease(owners, start, end, incarnation).Some? ==>
            Owner(Lease(owners, start, end, incarnation).value, id) ==
            if start <= id < end then Some(incarnation) else Owner(owners, id)
  {
    var v := ValidateRange(start, end);
    forall slot: nat ensures Spans(slot, start, end) <==> v == Some(slot) {
      SpansOne(slot, start, end);
    }
    if v.Some? {
      assert Spans(v.value, start, end);
      SlotIsTheOwningRange(id, v.value);
    }
  }

  /**
   A departure is refused iff it names no slot's range, or a leased one without its client; it frees
   the range iff its client leaves.
   */
  lemma UnleaseIsExact(owners: map<nat, Incarnation>, start: nat, end: nat, claimed: Option<Incarnation>, id: nat)
    ensures Unlease(owners, start, end, claimed).None? <==>
            forall slot :: Spans(slot, start, end) ==> claimed.None? && slot in owners
    ensures Unlease(owners, start, end, claimed).Some? ==>
            Owner(Unlease(owners, start, end, claimed).value, id) ==
            if start <= id < end && Owner(owners, id) == claimed then None else Owner(owners, id)
  {
    var v := ValidateRange(start, end);
    forall slot: nat ensures Spans(slot, start, end) <==> v == Some(slot) {
      SpansOne(slot, start, end);
    }
    if v.Some? {
      assert Spans(v.value, start, end);
      SlotIsTheOwningRange(id, v.value);
    }
  }

  // ---- the retired bitmap ----

  type Bitmap = seq<bv64>

  function Local(id: nat): (r: Option<nat>)
  {
    match Slot(id)
    case None => None
    case Some(slot) => Some(id - slot * RANGE_STEP - 1)
  }

  function Shifted(bit: bv6): bv64
  {
    1 << bit
  }

  function Mask(bit: nat): bv64
    requires bit < 64
  {
    Shifted(bit as bv6)
  }

  predicate TestAt(bitmap: Bitmap, w: nat, mask: bv64)
  {
    w < |bitmap| && bitmap[w] & mask != 0
  }

  predicate TestBit(bitmap: Bitmap, local: nat)
  {
    TestAt(bitmap, local / 64, Mask(local % 64))
  }

  /** The word at `w`, zero beyond the end. */
  function Word(bitmap: Bitmap, w: nat): bv64
  {
    if w < |bitmap| then bitmap[w] else 0
  }

  function Repeat<T>(n: nat, zero: T): (r: seq<T>)
    ensures |r| == n && forall i :: 0 <= i < n ==> r[i] == zero
  {
    if n == 0 then [] else Repeat(n - 1, zero) + [zero]
  }

  /** Store `x` at `w`, extending the sequence with zeros if it is shorter. */
  function Store<T>(s: seq<T>, w: nat, zero: T, x: T): (r: seq<T>)
  {
    if w < |s| then s[w := x] else s + Repeat(w - |s|, zero) + [x]
  }

  lemma StoreAt<T>(s: seq<T>, w: nat, zero: T, x: T, v: nat)
    ensures |Store(s, w, zero, x)| == if w < |s| then |s| else w + 1
    ensures v < |Store(s, w, zero, x)| ==>
              Store(s, w, zero, x)[v] == if v == w then x else if v < |s| then s[v] else zero
  {
  }

  function SetAt(bitmap: Bitmap, w: nat, mask: bv64): (r: Bitmap)
  {
    Store(bitmap, w, 0, Word(bitmap, w) | mask)
  }

  function SetBit(bitmap: Bitmap, local: nat): (r: Bitmap)
  {
    SetAt(bitmap, local / 64, Mask(local % 64))
  }

  lemma BitIndexRoundTrip(i: nat)
    requires i < 64
    ensures (i as bv6) as nat == i
  {
  }

  lemma ShiftsAreDisjoint(i: bv6, j: bv6)
    ensures Shifted(i) != 0 && (i != j ==> Shifted(i) & Shifted(j) == 0)
  {
  }

  lemma OrTests(word: bv64, m: bv64, n: bv64)
    ensures (word | m) & m == m
    ensures m & n == 0 ==> (word | m) & n == word & n
  {
  }

  /** Two masks test one another exactly when they are of the same bit. */
  lemma MasksTest(i: nat, j: nat)
    requires i < 64 && j < 64
    ensures Mask(i) != 0 && (i != j ==> Mask(i) & Mask(j) == 0)
  {
    BitIndexRoundTrip(i);
    BitIndexRoundTrip(j);
    ShiftsAreDisjoint(i as bv6, j as bv6);
  }

  lemma NothingInZero(m: bv64)
    ensures 0 & m == 0
  {
  }

  predicate Tests(word: bv64, mask: bv64)
  {
    word & mask != 0
  }

  lemma OrTestsEither(word: bv64, m: bv64, n: bv64)
    requires m != 0 && (m == n || m & n == 0)
    ensures Tests(word | m, n) <==> Tests(word, n) || m == n
  {
    OrTests(word, m, n);
  }

  lemma TestsTheWord(bitmap: Bitmap, v: nat, n: bv64)
    ensures TestAt(bitmap, v, n) <==> Tests(Word(bitmap, v), n)
  {
    NothingInZero(n);
  }

  lemma SetAtWord(bitmap: Bitmap, w: nat, m: bv64, v: nat)
    ensures Word(SetAt(bitmap, w, m), v) == if v == w then Word(bitmap, w) | m else Word(bitmap, v)
  {
    StoreAt(bitmap, w, 0, Word(bitmap, w) | m, v);
  }

  /** Setting a mask in one word answers as before elsewhere, and for disjoint masks. */
  lemma SetAtTests(bitmap: Bitmap, w: nat, m: bv64, v: nat, n: bv64)
    requires m != 0 && (m == n || m & n == 0)
    ensures TestAt(SetAt(bitmap, w, m), v, n) <==> TestAt(bitmap, v, n) || (v == w && m == n)
  {
    TestsTheWord(bitmap, v, n);
    TestsTheWord(SetAt(bitmap, w, m), v, n);
    SetAtWord(bitmap, w, m, v);
    OrTestsEither(Word(bitmap, w), m, n);
  }

  lemma SamePlace(a: nat, b: nat)
    ensures a == b <==> a / 64 == b / 64 && a % 64 == b % 64
  {
  }

  lemma SetBitAddsOneMember(bitmap: Bitmap, added: nat, local: nat)
    ensures TestBit(SetBit(bitmap, added), local) <==> TestBit(bitmap, local) || local == added
  {
    SamePlace(added, local);
    SetMember(bitmap, added / 64, added % 64, local / 64, local % 64);
  }

  lemma SetMember(bitmap: Bitmap, w: nat, b: nat, v: nat, c: nat)
    requires b < 64 && c < 64
    ensures TestAt(SetAt(bitmap, w, Mask(b)), v, Mask(c)) <==> TestAt(bitmap, v, Mask(c)) || (v == w && b == c)
  {
    MasksTest(b, c);
    SetAtTests(bitmap, w, Mask(b), v, Mask(c));
  }

  predicate IsRetired(retired: map<Incarnation, Bitmap>, owner: Incarnation, id: nat)
  {
    match Local(id)
    case None => false
    case Some(local) => owner in retired && TestBit(retired[owner], local)
  }

  /** None when the id belongs to no slot: the source reports that as an error. */
  function Retire(retired: map<Incarnation, Bitmap>, owner: Incarnation, id: nat)
    : (r: Option<map<Incarnation, Bitmap>>)
  {
    match Local(id)
    case None => None
    case Some(local) =>
      var bitmap := if owner in retired then retired[owner] else [];
      Some(retired[owner := SetBit(bitmap, local)])
  }

  /**
   Retiring an id answers like inserting into a set, except that ids at the same
   place of two different slots share their answer under one owner.
   */
  lemma RetireAddsOneId(retired: map<Incarnation, Bitmap>, owner: Incarnation, id: nat, other: Incarnation, probe: nat)
    requires Retire(retired, owner, id).Some?
    ensures IsRetired(Retire(retired, owner, id).value, other, probe) <==>
            IsRetired(retired, other, probe) || (other == owner && Local(probe) == Local(id))
  {
    if Local(probe).Some? && other == owner {
      var bitmap := if owner in retired then retired[owner] else [];
      SetBitAddsOneMember(bitmap, Local(id).value, Local(probe).value);
    }
  }

  function RetireAll(ids: seq<nat>, owner: Incarnation): (r: Option<map<Incarnation, Bitmap>>)
  {
    if ids == [] then Some(map[])
    else match RetireAll(ids[..|ids| - 1], owner)
      case None => None
      case Some(retired) => Retire(retired, owner, ids[|ids| - 1])
  }

  /** Some id of the list has place `local` in its slot. */
  predicate AnyAt(ids: seq<nat>, local: Option<nat>)
  {
    ids != [] && (Local(ids[|ids| - 1]) == local || AnyAt(ids[..|ids| - 1], local))
  }

  lemma {:induction false} AnyAtIffExists(ids: seq<nat>, local: Option<nat>)
    ensures AnyAt(ids, local) <==> exists id :: id in ids && Local(id) == local
  {
    if ids != [] {
      var front, last := ids[..|ids| - 1], ids[|ids| - 1];
      AnyAtIffExists(front, local);
      assert ids == front + [last] && last in ids;
      assert forall id :: id in ids <==> id in front || id == last;
    }
  }

  lemma {:induction false} RetiredIffAnyAt(ids: seq<nat>, owner: Incarnation, probe: nat)
    requires forall i :: 0 <= i < |ids| ==> Slot(ids[i]).Some?
    requires Slot(probe).Some?
    ensures RetireAll(ids, owner).Some?
    ensures IsRetired(RetireAll(ids, owner).value, owner, probe) <==> AnyAt(ids, Local(probe))
  {
    if ids != [] {
      var front, last := ids[..|ids| - 1], ids[|ids| - 1];
      RetiredIffAnyAt(front, owner, probe);
      RetireAddsOneId(RetireAll(front, owner).value, owner, last, owner, probe);
    }
  }

  /** The bitmap answers for an id exactly when some retired id has the same place in its slot. */
  lemma BitmapAnswersByPlace(ids: seq<nat>, owner: Incarnation, probe: nat)
    requires forall i :: 0 <= i < |ids| ==> Slot(ids[i]).Some?
    requires Slot(probe).Some?
    ensures RetireAll(ids, owner).Some?
    ensures IsRetired(RetireAll(ids, owner).value, owner, probe) <==>
            exists id :: id in ids && Local(id) == Local(probe)
  {
    RetiredIffAnyAt(ids, owner, probe);
    AnyAtIffExists(ids, Local(probe));
  }

  /** So for an owner whose ids lie in one slot it answers like the set of its retired ids. */
  lemma BitmapIsASet(ids: seq<nat>, owner: Incarnation, slot: nat, probe: nat)
    requires forall i :: 0 <= i < |ids| ==> Slot(ids[i]) == Some(slot)
    requires Slot(probe) == Some(slot)
    ensures RetireAll(ids, owner).Some?
    ensures IsRetired(RetireAll(ids, owner).value, owner, probe) <==> probe in ids
  {
    BitmapAnswersByPlace(ids, owner, probe);
    assert forall id :: Slot(id) == Some(slot) && Local(id) == Local(probe) ==> id == probe;
  }

  /** Across two slots it does not: an id the owner never retired can answer as retired. */
  lemma BitmapAliasesAcrossSlots(owner: Incarnation)
    ensures RetireAll([1], owner).Some? && RANGE_STEP + 1 !in [1]
    ensures IsRetired(RetireAll([1], owner).value, owner, RANGE_STEP + 1)
  {
    SlotIsTheOwningRange(1, 0);
    SlotIsTheOwningRange(RANGE_STEP + 1, 1);
    BitmapAnswersByPlace([1], owner, RANGE_STEP + 1);
    assert 1 in [1] && Local(1) == Local(RANGE_STEP + 1);
  }
}
