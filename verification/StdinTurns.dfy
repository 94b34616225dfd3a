/**
 The rotating poll of sessions with pending stdin: which session a poll serves, and how long a
 session that is always ready can be passed over.
 */
module StdinTurns {
  import opened Prelude

  /** How far `i` is behind `start`, going round. */
  function Distance(start: nat, i: nat, n: nat): (d: nat)
    requires start < n && i < n
    ensures d < n
  {
    if i >= start then i - start else i + n - start
  }

  function Start(offset: nat, n: nat): nat
  {
    if n == 0 then 0 else offset % n
  }

  /** `i` is the first ready position going round from `start`. */
  predicate Serves(ready: seq<bool>, start: nat, i: nat)
  {
    && start < |ready| && i < |ready| && ready[i]
    && forall j | 0 <= j < |ready| && ready[j] :: Distance(start, i, |ready|) <= Distance(start, j, |ready|)
  }

  class Poller {
    var offset: nat

    constructor ()
      ensures offset == 0
    {
      offset := 0;
    }

    /** Two passes over the sessions: from the cursor to the end, then from the front to the cursor. */
    method Poll(ready: seq<bool>) returns (served: Option<nat>)
      modifies `offset
      ensures served.None? <==> true !in ready
      ensures served.Some? ==> Serves(ready, Start(old(offset), |ready|), served.value) && offset == served.value + 1
      ensures served.None? ==> offset == old(offset)
    {
      var total := |ready|;
      var start := if total == 0 then 0 else offset % total;
      for pass := 0 to 2
        invariant offset == old(offset)
        invariant pass >= 1 ==> forall j | start <= j < total :: !ready[j]
        invariant pass >= 2 ==> forall j | 0 <= j < start && j < total :: !ready[j]
      {
        for index := 0 to total
          invariant offset == old(offset)
          invariant pass == 0 ==> forall j | start <= j < index :: !ready[j]
          invariant pass == 1 ==> forall j | 0 <= j < index && j < start :: !ready[j]
        {
          if (pass == 0 && index < start) || (pass == 1 && index >= start) {
            continue;
          }
          if ready[index] {
            offset := index + 1;
            return Some(index);
          }
        }
      }
      return None;
    }
  }

  /** The cursor after a poll that served `i`. */
  function After(served: nat, n: nat): nat
    requires served < n
  {
    Start(served + 1, n)
  }

  lemma AfterWraps(served: nat, n: nat)
    requires served < n
    ensures After(served, n) == if served + 1 == n then 0 else served + 1
  {
  }

  lemma CloserByArithmetic(start: nat, served: nat, me: nat, n: nat)
    requires start < n && served < n && me < n && served != me && Distance(start, served, n) <= Distance(start, me, n)
    ensures Distance(if served + 1 == n then 0 else served + 1, me, n) < Distance(start, me, n)
  {
  }

  /** A ready session that is passed over is closer to the cursor afterwards. */
  lemma PassedOverComesCloser(ready: seq<bool>, start: nat, served: nat, me: nat)
    requires Serves(ready, start, served) && me < |ready| && ready[me] && served != me
    ensures Distance(After(served, |ready|), me, |ready|) < Distance(start, me, |ready|)
  {
    AfterWraps(served, |ready|);
    CloserByArithmetic(start, served, me, |ready|);
  }

  /** Polls of a fixed set of sessions: in each, who was ready and who was served. */
  datatype Round = Round(ready: seq<bool>, served: nat)

  ghost predicate Possible(rounds: seq<Round>, start: nat, n: nat)
    decreases |rounds|
  {
    rounds == [] || (
      && |rounds[0].ready| == n && Serves(rounds[0].ready, start, rounds[0].served)
      && Possible(rounds[1..], After(rounds[0].served, n), n))
  }

  ghost predicate AlwaysReady(rounds: seq<Round>, me: nat, n: nat)
  {
    forall i :: 0 <= i < |rounds| ==> |rounds[i].ready| == n && me < n && rounds[i].ready[me]
  }

  /** The cyclic distance bounds how often a ready session is passed over. */
  lemma {:induction false} PassedOverAtMostDistance(rounds: seq<Round>, start: nat, n: nat, me: nat)
    requires start < n && me < n && Possible(rounds, start, n) && AlwaysReady(rounds, me, n)
    requires forall i :: 0 <= i < |rounds| ==> rounds[i].served != me
    ensures |rounds| <= Distance(start, me, n)
    decreases |rounds|
  {
    if rounds != [] {
      PassedOverComesCloser(rounds[0].ready, start, rounds[0].served, me);
      PassedOverAtMostDistance(rounds[1..], After(rounds[0].served, n), n, me);
    }
  }

  /** Among any `n` successful polls of `n` sessions, a session ready in all of them is served. */
  lemma ServedWithinOneRound(rounds: seq<Round>, start: nat, n: nat, me: nat)
    requires start < n && me < n && Possible(rounds, start, n) && AlwaysReady(rounds, me, n) && |rounds| >= n
    ensures exists i :: 0 <= i < |rounds| && rounds[i].served == me
  {
    if forall i :: 0 <= i < |rounds| ==> rounds[i].served != me {
      PassedOverAtMostDistance(rounds, start, n, me);
    }
  }
}
