/** Shared vocabulary: optional values, results, bytes and small sequence facts. */
module Prelude {

  datatype Option<+T> = None | Some(value: T)

  datatype Result<+T, +E> = Ok(value: T) | Err(error: E)

  type byte = b: int | 0 <= b < 256

  const U64_MAX: nat := 0xFFFF_FFFF_FFFF_FFFF

  /** What a dedicated bulk record adds to its payload: length prefix, frame header, bulk header, client incarnation. */
  const WIRE_OVERHEAD: nat := 4 + 5 + 12 + 16

  /** Frames and wire bytes the host may have outstanding on the data lane. */
  const DATA_FRAMES: nat := 256
  const DATA_BYTES: nat := 32 * 1024 * 1024

  predicate NoDup<T(==)>(s: seq<T>)
  {
    forall i, j :: 0 <= i < j < |s| ==> s[i] != s[j]
  }

  /** The elements of `s` other than those in `gone`, in order. */
  function Without<T(==,!new)>(s: seq<T>, gone: set<T>): (r: seq<T>)
    ensures forall x :: x in r <==> x in s && x !in gone
  {
    if s == [] then []
    else
      var rest := Without(s[..|s| - 1], gone);
      var last := s[|s| - 1];
      assert s == s[..|s| - 1] + [last];
      if last in gone then rest else rest + [last]
  }

  /** `a` stands somewhere before `b` in `s`. */
  ghost predicate Before<T(!new)>(s: seq<T>, a: T, b: T)
  {
    exists i, j :: 0 <= i < j < |s| && s[i] == a && s[j] == b
  }

  lemma {:induction false} WithoutKeepsOrder<T(!new)>(s: seq<T>, gone: set<T>)
    requires NoDup(s)
    ensures NoDup(Without(s, gone))
    ensures forall a, b :: Before(Without(s, gone), a, b) ==> Before(s, a, b)
  {
    if s != [] {
      var front, last := s[..|s| - 1], s[|s| - 1];
      WithoutKeepsOrder(front, gone);
      var rest := Without(front, gone);
      assert last !in front;
      forall a, b | Before(Without(s, gone), a, b)
        ensures Before(s, a, b)
      {
        var r := Without(s, gone);
        var i, j :| 0 <= i < j < |r| && r[i] == a && r[j] == b;
        if j < |rest| {
          assert rest[i] == a && rest[j] == b;
          assert Before(rest, a, b);
          var m, n :| 0 <= m < n < |front| && front[m] == a && front[n] == b;
          assert s[m] == a && s[n] == b;
        } else {
          assert rest[i] == a && a in front && b == last;
          var m :| 0 <= m < |front| && front[m] == a;
          assert s[m] == a && s[|s| - 1] == b;
        }
      }
    }
  }

  function Sum(xs: seq<nat>): nat
  {
    if xs == [] then 0 else Sum(xs[..|xs| - 1]) + xs[|xs| - 1]
  }

  lemma SumAppend(xs: seq<nat>, x: nat)
    ensures Sum(xs + [x]) == Sum(xs) + x
  {
    assert (xs + [x])[..|xs|] == xs;
  }

  lemma {:induction false} SumOmit(xs: seq<nat>, i: nat)
    requires i < |xs|
    ensures Sum(xs) == Sum(xs[..i] + xs[i + 1..]) + xs[i]
  {
    var front, last := xs[..|xs| - 1], xs[|xs| - 1];
    if i == |xs| - 1 {
      assert xs[..i] + xs[i + 1..] == front;
    } else {
      SumOmit(front, i);
      assert xs[..i] + xs[i + 1..] == (front[..i] + front[i + 1..]) + [last];
      SumAppend(front[..i] + front[i + 1..], last);
    }
  }

  /** A fact guarded by `Unlock` stays shut in proofs that only pass it on; naming a key opens it. */
  predicate Unlock(key: nat)
  {
    true
  }
}
