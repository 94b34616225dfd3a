/**
 The order in which crates are published: waves, each after everything it depends on. The wave
 of a crate is the length of its longest dependency chain, so no order can publish it earlier.
 */
module PublicationWaves {
  import opened Prelude
  import opened ByteOrder
  import opened Publication

  /** A dependency chain of `n` steps starts at `c`; a dependency outside `g` never ends. */
  ghost predicate Chain(g: Graph, n: nat, c: Text)
  {
    n == 0 || c !in g || exists d :: d in g[c] && Chain(g, n - 1, d)
  }

  /** The crates whose chains are all shorter than `n`. */
  ghost function Shallow(g: Graph, n: nat): set<Text>
  {
    set c | c in g && !Chain(g, n, c)
  }

  lemma {:induction false} ShorterChains(g: Graph, n: nat, c: Text)
    requires Chain(g, n + 1, c)
    ensures Chain(g, n, c)
  {
    if n > 0 && c in g {
      var d :| d in g[c] && Chain(g, n, d);
      ShorterChains(g, n - 1, d);
      assert d in g[c] && Chain(g, n - 1, d);
    }
  }

  /** One wave: exactly the crates whose dependencies are all shallower. */
  lemma ShallowStep(g: Graph, n: nat, c: Text)
    requires c in g
    ensures c in Shallow(g, n + 1) <==> g[c] <= Shallow(g, n)
    ensures Shallow(g, n) <= Shallow(g, n + 1)
  {
    if g[c] <= Shallow(g, n) {
      assert !Chain(g, n + 1, c);
    }
    if c in Shallow(g, n + 1) {
      forall d | d in g[c] ensures d in Shallow(g, n) {
        assert !Chain(g, n, d);
      }
    }
    forall x | x in Shallow(g, n) ensures x in Shallow(g, n + 1) {
      if Chain(g, n + 1, x) {
        ShorterChains(g, n, x);
      }
    }
  }

  // ---- earliest possible ----

  /** A way to publish: every dependency in an earlier wave. */
  ghost predicate Layering(g: Graph, layer: Text -> nat)
  {
    forall c, d :: c in g && d in g[c] ==> layer(d) < layer(c)
  }

  /** No layering can place a crate before the end of its longest chain. */
  lemma {:induction false} ChainsTakeTime(g: Graph, layer: Text -> nat, n: nat, c: Text)
    requires Closed(g) && Layering(g, layer) && c in g && Chain(g, n, c)
    ensures n <= layer(c)
  {
    if n > 0 {
      var d :| d in g[c] && Chain(g, n - 1, d);
      ChainsTakeTime(g, layer, n - 1, d);
    }
  }

  // ---- cycles ----

  /** A walk that comes back to where it started. */
  ghost predicate Cycle(g: Graph, p: seq<Text>)
  {
    |p| > 1 && Walk(g, p) && p[0] == p[|p| - 1]
  }

  /** From a crate on a cycle there are chains of every length. */
  lemma {:induction false} CyclesChain(g: Graph, p: seq<Text>, i: nat, n: nat)
    requires Cycle(g, p) && i < |p|
    ensures Chain(g, n, p[i])
    decreases n
  {
    if n > 0 {
      var j := if i + 1 < |p| then i + 1 else 1;
      CyclesChain(g, p, j, n - 1);
      assert p[j] in g[p[i]];
    }
  }

  ghost predicate Waits(g: Graph, s: set<Text>, a: Text)
  {
    a in g && exists b :: b in g[a] && b in s
  }

  /** Every member depends on a member. */
  ghost predicate Entangled(g: Graph, s: set<Text>)
  {
    s <= g.Keys && forall a {:trigger Waits(g, s, a)} :: a in s ==> Waits(g, s, a)
  }

  /** An entangled set contains walks of every length. */
  lemma {:induction false} WalkInside(g: Graph, s: set<Text>, c: Text, n: nat) returns (p: seq<Text>)
    requires Entangled(g, s) && c in s
    ensures |p| == n + 1 && Walk(g, p) && forall i :: 0 <= i < |p| ==> p[i] in s
  {
    if n == 0 {
      p := [c];
    } else {
      var q := WalkInside(g, s, c, n - 1);
      var last := q[|q| - 1];
      assert Waits(g, s, last);
      var b :| b in g[last] && b in s;
      p := q + [b];
    }
  }

  lemma {:induction false} DistinctFit(p: seq<Text>, s: set<Text>)
    requires NoDup(p) && forall i :: 0 <= i < |p| ==> p[i] in s
    ensures |p| <= |s|
  {
    if p != [] {
      var front, last := p[..|p| - 1], p[|p| - 1];
      DistinctFit(front, s - {last});
    }
  }

  /** Pigeonhole: crates that all wait for one another contain a cycle. */
  lemma BlockedMeansCycle(g: Graph, s: set<Text>) returns (p: seq<Text>)
    requires s != {} && Entangled(g, s)
    ensures Cycle(g, p) && forall i :: 0 <= i < |p| ==> p[i] in s
  {
    var c :| c in s;
    var q := WalkInside(g, s, c, |s|);
    if NoDup(q) {
      DistinctFit(q, s);
    }
    var i, j :| 0 <= i < j < |q| && q[i] == q[j];
    p := q[i..j + 1];
    forall k | 0 <= k < |p| - 1 ensures p[k + 1] in g[p[k]] {
      assert q[i + k + 1] in g[q[i + k]];
    }
  }

  // ---- the waves ----

  function Published(waves: seq<seq<Text>>): set<Text>
  {
    if waves == [] then {} else Published(waves[..|waves| - 1]) + Elements(waves[|waves| - 1])
  }

  /** Each wave is sorted and holds exactly the crates whose longest chain has the wave's number of steps. */
  ghost predicate WavesOk(g: Graph, waves: seq<seq<Text>>)
  {
    waves == [] || (WavesOk(g, waves[..|waves| - 1]) && WaveOk(g, |waves| - 1, waves[|waves| - 1]))
  }

  ghost predicate WaveOk(g: Graph, k: nat, wave: seq<Text>)
  {
    Sorted(wave) && wave != [] && Elements(wave) == Shallow(g, k + 1) - Shallow(g, k)
  }

  ghost predicate HasCycle(g: Graph)
  {
    exists p :: Cycle(g, p)
  }

  /** Every crate of `s` starts chains of every length. */
  ghost predicate Endless(g: Graph, s: set<Text>)
  {
    forall c, n: nat :: c in s ==> Chain(g, n, c)
  }

  lemma NextWave(g: Graph, n: nat, remaining: set<Text>, ready: seq<Text>)
    requires remaining == g.Keys - Shallow(g, n) && remaining != {}
    requires Sorted(ready) && Elements(ready) == set c | c in remaining && g[c] <= Shallow(g, n)
    ensures Shallow(g, n) + Elements(ready) == Shallow(g, n + 1)
    ensures ready != [] ==> WaveOk(g, n, ready) && |remaining - Elements(ready)| < |remaining|
    ensures ready == [] ==> Endless(g, remaining) && (Closed(g) ==> HasCycle(g))
  {
    var names := Elements(ready);
    forall c | c in g
      ensures (c in Shallow(g, n + 1) <==> g[c] <= Shallow(g, n)) && Shallow(g, n) <= Shallow(g, n + 1)
    {
      ShallowStep(g, n, c);
    }
    if ready != [] {
      assert ready[0] in names;
      RemainingShrinks(remaining, names);
    } else {
      forall a | a in remaining ensures !(g[a] <= Shallow(g, n)) {
        assert a !in names;
      }
      Stuck(g, n, remaining);
    }
  }

  /** The next wave: what is ready among the remaining crates, by name. */
  method NextReady(g: Graph, remaining: set<Text>, published: set<Text>, ghost n: nat)
    returns (ready: seq<Text>, remaining': set<Text>, published': set<Text>)
    requires published == Shallow(g, n) && remaining == g.Keys - published && remaining != {}
    ensures published' == Shallow(g, n + 1) && remaining' == g.Keys - published'
    ensures ready != [] ==> WaveOk(g, n, ready) && |remaining'| < |remaining|
    ensures ready == [] ==> Endless(g, remaining) && (Closed(g) ==> HasCycle(g))
  {
    ready := SortSet(set c | c in remaining && g[c] <= published);
    NextWave(g, n, remaining, ready);
    published' := published + Elements(ready);
    remaining' := remaining - Elements(ready);
  }

  /** `Err` names the crates that wait for one another. */
  method DependencyWaves(g: Graph) returns (r: Result<seq<seq<Text>>, set<Text>>)
    ensures r.Ok? ==> WavesOk(g, r.value) && Shallow(g, |r.value|) == g.Keys
    ensures r.Err? ==> r.error != {} && r.error <= g.Keys && Endless(g, r.error)
    ensures Closed(g) ==> (r.Err? <==> HasCycle(g))
  {
    var remaining, published: set<Text>, waves := g.Keys, {}, [];
    while remaining != {}
      invariant remaining == g.Keys - published && published == Shallow(g, |waves|)
      invariant WavesOk(g, waves)
      decreases |remaining|
    {
      var ready, remaining', published' := NextReady(g, remaining, published, |waves|);
      if ready == [] {
        return Err(remaining);
      }
      assert (waves + [ready])[..|waves|] == waves;
      waves, remaining, published := waves + [ready], remaining', published';
    }
    Acyclic(g, |waves|);
    return Ok(waves);
  }

  lemma {:induction false} WaveAt(g: Graph, waves: seq<seq<Text>>, k: nat)
    requires WavesOk(g, waves) && k < |waves|
    ensures WaveOk(g, k, waves[k])
  {
    if k < |waves| - 1 {
      WaveAt(g, waves[..|waves| - 1], k);
    }
  }

  lemma {:induction false} PublishedIsShallow(g: Graph, waves: seq<seq<Text>>)
    requires WavesOk(g, waves)
    ensures Published(waves) == Shallow(g, |waves|)
  {
    if waves != [] {
      PublishedIsShallow(g, waves[..|waves| - 1]);
      if c :| c in g {
        ShallowStep(g, |waves| - 1, c);
      }
    }
  }

  /** The wave of a crate is the length of its longest chain. */
  lemma WaveIsLongestChain(g: Graph, waves: seq<seq<Text>>, k: nat, c: Text)
    requires WavesOk(g, waves) && k < |waves| && c in g
    ensures c in waves[k] <==> Chain(g, k, c) && !Chain(g, k + 1, c)
  {
    WaveAt(g, waves, k);
    assert c in waves[k] <==> c in Elements(waves[k]);
  }

  lemma {:induction false} ShorterStill(g: Graph, m: nat, n: nat, c: Text)
    requires m <= n && Chain(g, n, c)
    ensures Chain(g, m, c)
  {
    if m < n {
      ShorterChains(g, n - 1, c);
      ShorterStill(g, m, n - 1, c);
    }
  }

  lemma {:induction false} LongestChain(g: Graph, n: nat, c: Text) returns (k: nat)
    requires c in g && !Chain(g, n, c)
    ensures k < n && Chain(g, k, c) && !Chain(g, k + 1, c)
  {
    if Chain(g, n - 1, c) {
      k := n - 1;
    } else {
      k := LongestChain(g, n - 1, c);
    }
  }

  /** The waves partition the crates. */
  lemma EachCrateInOneWave(g: Graph, waves: seq<seq<Text>>, c: Text) returns (k: nat)
    requires WavesOk(g, waves) && Shallow(g, |waves|) == g.Keys && c in g
    ensures k < |waves| && c in waves[k]
    ensures forall j :: 0 <= j < |waves| && c in waves[j] ==> j == k
  {
    assert c in Shallow(g, |waves|);
    k := LongestChain(g, |waves|, c);
    WaveIsLongestChain(g, waves, k, c);
    forall j | 0 <= j < |waves| && c in waves[j] ensures j == k {
      WaveIsLongestChain(g, waves, j, c);
      if j < k {
        ShorterStill(g, j + 1, k, c);
      } else if k < j {
        ShorterStill(g, k + 1, j, c);
      }
    }
  }

  /** Everything a crate depends on is in earlier waves, and no valid order places it in an earlier one. */
  lemma WavesAreEarliest(g: Graph, waves: seq<seq<Text>>, k: nat, c: Text, layer: Text -> nat)
    requires Closed(g) && WavesOk(g, waves) && k < |waves| && c in waves[k]
    ensures c in g && g[c] <= Published(waves[..k])
    ensures Layering(g, layer) ==> k <= layer(c)
  {
    WaveAt(g, waves, k);
    assert c in Elements(waves[k]);
    ShallowStep(g, k, c);
    PrefixOk(g, waves, k);
    PublishedIsShallow(g, waves[..k]);
    if Layering(g, layer) {
      ChainsTakeTime(g, layer, k, c);
    }
  }

  lemma {:induction false} PrefixOk(g: Graph, waves: seq<seq<Text>>, k: nat)
    requires WavesOk(g, waves) && k <= |waves|
    ensures WavesOk(g, waves[..k])
  {
    if k == |waves| {
      assert waves[..k] == waves;
    } else {
      PrefixOk(g, waves[..|waves| - 1], k);
      assert waves[..|waves| - 1][..k] == waves[..k];
    }
  }

  lemma RemainingShrinks(remaining: set<Text>, names: set<Text>)
    requires names <= remaining && names != {}
    ensures |remaining - names| < |remaining|
  {
    assert remaining == (remaining - names) + names;
    assert |remaining| == |remaining - names| + |names|;
  }

  lemma {:induction false} StuckForever(g: Graph, n: nat, remaining: set<Text>, k: nat, c: Text)
    requires remaining == g.Keys - Shallow(g, n)
    requires forall a :: a in remaining ==> !(g[a] <= Shallow(g, n))
    requires c in remaining
    ensures Chain(g, k, c)
    decreases k
  {
    if k > 0 {
      var d :| d in g[c] && d !in Shallow(g, n);
      if d in g {
        StuckForever(g, n, remaining, k - 1, d);
      }
    }
  }

  /** A wave without ready crates: those left have endless chains, and in a closed graph a cycle. */
  lemma Stuck(g: Graph, n: nat, remaining: set<Text>)
    requires remaining == g.Keys - Shallow(g, n) && remaining != {}
    requires forall a :: a in remaining ==> !(g[a] <= Shallow(g, n))
    ensures Endless(g, remaining)
    ensures Closed(g) ==> HasCycle(g)
  {
    forall c, k: nat | c in remaining ensures Chain(g, k, c) {
      StuckForever(g, n, remaining, k, c);
    }
    if Closed(g) {
      forall a | a in remaining ensures Waits(g, remaining, a) {
        var d :| d in g[a] && d !in Shallow(g, n);
        assert d in remaining;
      }
      var p := BlockedMeansCycle(g, remaining);
    }
  }

  lemma Acyclic(g: Graph, n: nat)
    requires Shallow(g, n) == g.Keys
    ensures !HasCycle(g)
  {
    if p :| Cycle(g, p) {
      assert p[0] in g;
      CyclesChain(g, p, 0, n);
    }
  }
}
