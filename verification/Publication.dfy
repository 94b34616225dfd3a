/**
 Which workspace crates a release publishes: everything reachable from the roots over retained
 path dependencies. `g` maps each workspace crate to its dependencies.
 */
module Publication {
  import opened Prelude
  import opened ByteOrder

  type Graph = map<Text, set<Text>>

  datatype Error = UnknownRoots(names: set<Text>) | Unpublishable(name: Text)

  /** Dependencies are workspace crates: others were filtered out when the edges were read. */
  predicate Closed(g: Graph)
  {
    forall c, d :: c in g && d in g[c] ==> d in g
  }

  /** A walk along dependencies. */
  predicate Walk(g: Graph, p: seq<Text>)
  {
    && (forall i :: 0 <= i < |p| ==> p[i] in g)
    && (forall i :: 0 <= i < |p| - 1 ==> p[i + 1] in g[p[i]])
  }

  ghost predicate Reaches(g: Graph, roots: set<Text>, p: seq<Text>, c: Text)
  {
    p != [] && Walk(g, p) && p[0] in roots && p[|p| - 1] == c
  }

  ghost predicate Reachable(g: Graph, roots: set<Text>, c: Text)
  {
    exists p :: Reaches(g, roots, p, c)
  }

  /** The set holds exactly the reachable crates. */
  ghost predicate Selects(g: Graph, roots: set<Text>, selected: set<Text>)
  {
    forall c :: c in selected <==> Reachable(g, roots, c)
  }

  lemma RootsAreReachable(g: Graph, roots: set<Text>, c: Text)
    requires c in roots && c in g
    ensures Reachable(g, roots, c)
  {
    assert Reaches(g, roots, [c], c);
  }

  lemma DependenciesAreReachable(g: Graph, roots: set<Text>, c: Text, d: Text)
    requires Closed(g) && Reachable(g, roots, c) && d in g[c]
    ensures Reachable(g, roots, d)
  {
    var p :| Reaches(g, roots, p, c);
    assert Reaches(g, roots, p + [d], d);
  }

  /** A set that holds the roots and every dependency of its members holds everything reachable. */
  lemma {:induction false} ClosedSetsHoldTheReachable(g: Graph, roots: set<Text>, s: set<Text>, p: seq<Text>, c: Text)
    requires Reaches(g, roots, p, c) && roots <= s
    requires forall a, b :: a in s && a in g && b in g[a] ==> b in s
    ensures c in s
    decreases |p|
  {
    if |p| > 1 {
      var q := p[..|p| - 1];
      assert Reaches(g, roots, q, q[|q| - 1]);
      ClosedSetsHoldTheReachable(g, roots, s, q, q[|q| - 1]);
    }
  }

  method SetToSeq(s: set<Text>) returns (r: seq<Text>)
    ensures forall x :: x in r <==> x in s
  {
    r := [];
    var left := s;
    while left != {}
      invariant left <= s && forall x :: x in r <==> x in s - left
      decreases |left|
    {
      var x :| x in left;
      r, left := r + [x], left - {x};
    }
  }

  /** Everything selected or waiting is reachable and no edge of a selected crate is forgotten. */
  ghost predicate Frontier(g: Graph, roots: set<Text>, selected: set<Text>, pending: seq<Text>)
  {
    forall key: nat {:trigger Unlock(key)} :: Unlock(key) ==>
      && selected <= g.Keys
      && (forall c :: c in selected ==> Reachable(g, roots, c))
      && (forall c :: c in pending ==> c in g && Reachable(g, roots, c))
      && (forall c :: c in roots ==> c in selected || c in pending)
      && (forall c, d :: c in selected && d in g[c] ==> d in selected || d in pending)
  }

  lemma FrontierHead(g: Graph, roots: set<Text>, selected: set<Text>, pending: seq<Text>, c: Text)
    requires Frontier(g, roots, selected, pending + [c])
    ensures c in g && Reachable(g, roots, c)
  {
    assert Unlock(0);
    assert c in pending + [c];
  }

  lemma Expand(g: Graph, roots: set<Text>, selected: set<Text>, pending: seq<Text>, c: Text, more: seq<Text>)
    requires Closed(g) && Frontier(g, roots, selected, pending + [c]) && c in g
    requires forall x :: x in more <==> x in g[c]
    ensures Frontier(g, roots, selected + {c}, pending + more)
  {
    assert Unlock(0);
    assert c in pending + [c];
    forall d | d in g[c] ensures d in g && Reachable(g, roots, d) {
      DependenciesAreReachable(g, roots, c, d);
    }
    forall a, b | a in selected + {c} && b in g[a] ensures b in selected + {c} || b in pending + more {
      if a == c {
        assert b in more;
      } else {
        assert b in selected || b in pending + [c];
      }
    }
    forall a | a in roots ensures a in selected + {c} || a in pending + more {
      assert a in selected || a in pending + [c];
    }
  }

  lemma Skip(g: Graph, roots: set<Text>, selected: set<Text>, pending: seq<Text>, c: Text)
    requires Frontier(g, roots, selected, pending + [c]) && c in selected
    ensures Frontier(g, roots, selected, pending)
  {
    assert Unlock(0);
    forall x | x in pending ensures x in g && Reachable(g, roots, x) {
      assert x in pending + [c];
    }
    forall a | a in roots ensures a in selected || a in pending {
      assert a in selected || a in pending + [c];
    }
    forall a, b | a in selected && b in g[a] ensures b in selected || b in pending {
      assert b in selected || b in pending + [c];
    }
  }

  lemma FrontierStart(g: Graph, roots: seq<Text>)
    requires forall c :: c in roots ==> c in g
    ensures Frontier(g, Elements(roots), {}, roots)
  {
    forall c | c in roots ensures Reachable(g, Elements(roots), c) {
      RootsAreReachable(g, Elements(roots), c);
    }
  }

  lemma FrontierDone(g: Graph, roots: set<Text>, selected: set<Text>)
    requires Frontier(g, roots, selected, [])
    ensures selected <= g.Keys && Selects(g, roots, selected)
  {
    assert Unlock(0);
    forall c | Reachable(g, roots, c) ensures c in selected {
      var p :| Reaches(g, roots, p, c);
      ClosedSetsHoldTheReachable(g, roots, selected, p, c);
    }
  }

  /** The worklist: every reachable crate, or the first private one it meets. */
  method Collect(g: Graph, private: set<Text>, roots: seq<Text>) returns (r: Result<set<Text>, Text>)
    requires Closed(g) && forall c :: c in roots ==> c in g
    ensures r.Ok? ==> r.value <= g.Keys && r.value !! private && Selects(g, Elements(roots), r.value)
    ensures r.Err? ==> r.error in private && Reachable(g, Elements(roots), r.error)
  {
    ghost var rootSet := Elements(roots);
    var selected: set<Text>, pending := {}, roots;
    FrontierStart(g, roots);
    while pending != []
      invariant Frontier(g, rootSet, selected, pending) && selected !! private
      decreases |g.Keys - selected|, |pending|
    {
      var name := pending[|pending| - 1];
      var rest := pending[..|pending| - 1];
      assert pending == rest + [name];
      FrontierHead(g, rootSet, selected, rest, name);
      if name in selected {
        Skip(g, rootSet, selected, rest, name);
        pending := rest;
      } else {
        if name in private {
          return Err(name);
        }
        var more := SetToSeq(g[name]);
        Expand(g, rootSet, selected, rest, name, more);
        Shrinks(g.Keys, selected, name);
        selected := selected + {name};
        pending := rest + more;
      }
    }
    FrontierDone(g, rootSet, selected);
    return Ok(selected);
  }

  /**
   The crates to publish are exactly the reachable ones, unless a root is unknown or a
   reachable crate must not be published.
   */
  method PublicationClosure(g: Graph, private: set<Text>, roots: seq<Text>) returns (r: Result<Graph, Error>)
    requires Closed(g)
    ensures r.Err? && r.error.UnknownRoots? <==> !(Elements(roots) <= g.Keys)
    ensures r.Err? && r.error.UnknownRoots? ==> r.error.names == Elements(roots) - g.Keys
    ensures r.Err? && r.error.Unpublishable? ==>
            r.error.name in private && Reachable(g, Elements(roots), r.error.name)
    ensures r.Ok? ==> Selects(g, Elements(roots), r.value.Keys)
    ensures r.Ok? ==> forall c :: c in r.value ==> c in g && r.value[c] == g[c] && c !in private
    ensures r.Ok? ==> Closed(r.value)
  {
    var missing := Elements(roots) - g.Keys;
    if missing != {} {
      return Err(UnknownRoots(missing));
    }
    forall c | c in roots ensures c in g {
      assert c in Elements(roots) && c !in missing;
    }
    var found := Collect(g, private, roots);
    if found.Err? {
      return Err(Unpublishable(found.error));
    }
    SelectionIsClosed(g, Elements(roots), found.value);
    return Ok(map c | c in found.value :: g[c]);
  }

  lemma SelectionIsClosed(g: Graph, roots: set<Text>, selected: set<Text>)
    requires Closed(g) && selected <= g.Keys && Selects(g, roots, selected)
    ensures Closed(map c | c in selected :: g[c])
  {
    forall c, d | c in selected && d in g[c] ensures d in selected {
      DependenciesAreReachable(g, roots, c, d);
    }
  }

  lemma Shrinks(all: set<Text>, selected: set<Text>, name: Text)
    requires name in all && name !in selected
    ensures |all - (selected + {name})| < |all - selected|
  {
    assert all - selected == (all - (selected + {name})) + {name};
  }
}
