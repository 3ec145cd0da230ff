/** The configuration check that refuses cyclic service dependencies. */
module Validate {
  import opened Graph

  const IN_PROGRESS := 1
  const DONE := 2

  // Colours agree with a trail of nodes in progress and a list of finished ones.
  ghost predicate Colored(g: Deps, color: map<string, int>, trail: seq<string>, done: seq<string>) {
    && Path(g, trail) && Distinct(done) && DepsFirst(g, done)
    && (forall n :: n in trail <==> ColorOf(color, n) == IN_PROGRESS)
    && (forall n :: n in done <==> ColorOf(color, n) == DONE)
    && (forall n :: ColorOf(color, n) != 0 ==> n in g && (ColorOf(color, n) == IN_PROGRESS || ColorOf(color, n) == DONE))
  }

  // A C++ map yields zero for a key it has not seen.
  function ColorOf(color: map<string, int>, n: string): int { if n in color then color[n] else 0 }

  function Unseen(g: Deps, color: map<string, int>): set<string> {
    set n | n in g && ColorOf(color, n) == 0
  }

  lemma MetAgain(g: Deps, trail: seq<string>, n: string)
    requires Path(g, trail) && n in trail && Edge(g, trail[|trail| - 1], n)
    ensures Cyclic(g)
  {
    var i :| 0 <= i < |trail| && trail[i] == n;
    ClosedPath(g, trail + [n], i);
  }

  lemma Recolored(color: map<string, int>, n: string, v: int)
    ensures forall m :: ColorOf(color[n := v], m) == if m == n then v else ColorOf(color, m)
  {
    forall m ensures ColorOf(color[n := v], m) == if m == n then v else ColorOf(color, m) {
      if m == n { assert m in color[n := v]; }
    }
  }

  lemma Entered(g: Deps, color: map<string, int>, trail: seq<string>, done: seq<string>, n: string)
    requires Colored(g, color, trail, done) && n in g && ColorOf(color, n) == 0
    requires trail == [] || Edge(g, trail[|trail| - 1], n)
    ensures Colored(g, color[n := IN_PROGRESS], trail + [n], done)
    ensures n in Unseen(g, color) && Unseen(g, color[n := IN_PROGRESS]) == Unseen(g, color) - {n}
  {
    hide Path, Distinct, DepsFirst;
    PathSnoc(g, trail, n);
    Recolored(color, n, IN_PROGRESS);
    var c, t := color[n := IN_PROGRESS], trail + [n];
    forall m ensures m in t <==> ColorOf(c, m) == IN_PROGRESS {
      assert m in t <==> m in trail || m == n;
    }
    forall m ensures m in done <==> ColorOf(c, m) == DONE {
    }
    forall m | ColorOf(c, m) != 0 ensures m in g && (ColorOf(c, m) == IN_PROGRESS || ColorOf(c, m) == DONE) {
    }
  }

  lemma Left(g: Deps, color: map<string, int>, trail: seq<string>, done: seq<string>, n: string)
    requires Colored(g, color, trail + [n], done) && n !in trail && forall d :: Edge(g, n, d) ==> d in done
    ensures Colored(g, color[n := DONE], trail, done + [n])
    ensures Unseen(g, color[n := DONE]) == Unseen(g, color)
  {
    hide Path, Distinct, DepsFirst;
    var t, c, d := trail + [n], color[n := DONE], done + [n];
    Recolored(color, n, DONE);
    assert n in t && n !in done;
    PathPrefix(g, t, |trail|);
    assert t[..|trail|] == trail;
    DistinctSnoc(done, n);
    DepsFirstExtends(g, done, d);
    forall m ensures m in trail <==> ColorOf(c, m) == IN_PROGRESS {
      assert m in t <==> m in trail || m == n;
    }
    forall m ensures m in d <==> ColorOf(c, m) == DONE {
      assert m in d <==> m in done || m == n;
    }
    forall m | ColorOf(c, m) != 0 ensures m in g && (ColorOf(c, m) == IN_PROGRESS || ColorOf(c, m) == DONE) {
    }
  }

  lemma Fewer(small: set<string>, big: set<string>, n: string)
    requires small <= big - {n} && n in big
    ensures |small| < |big|
  {
    Subset(small, big - {n});
  }

  lemma {:induction false} Subset(small: set<string>, big: set<string>)
    requires small <= big
    ensures |small| <= |big|
  {
    if small != {} {
      var x :| x in small;
      Subset(small - {x}, big - {x});
    }
  }

  class CycleSearch {
    const svcs: Deps
    var color: map<string, int>
    ghost var trail: seq<string>  // the nodes in progress, outermost first
    ghost var done: seq<string>   // the finished nodes, in finishing order

    ghost predicate Valid() reads this { Colored(svcs, color, trail, done) }

    constructor (svcs: Deps)
      ensures Valid() && this.svcs == svcs && trail == []
    {
      this.svcs := svcs;
      color, trail, done := map[], [], [];
    }

    // True as soon as a node in progress is met again.
    method Visit(n: string) returns (found: bool)
      requires Valid() && (trail == [] || Edge(svcs, trail[|trail| - 1], n))
      modifies this
      ensures found ==> Cyclic(svcs)
      ensures !found ==>
        && Valid() && trail == old(trail) && (n in svcs ==> n in done)
        && (forall m :: m in old(done) ==> m in done) && Unseen(svcs, color) <= old(Unseen(svcs, color))
      decreases |Unseen(svcs, color)|
    {
      hide Distinct, DepsFirst, Path, Cyclic, Unseen;
      if ColorOf(color, n) == IN_PROGRESS {
        MetAgain(svcs, trail, n);
        return true;
      }
      if ColorOf(color, n) == DONE || n !in svcs {
        return false;
      }
      ghost var unseen := Unseen(svcs, color);
      Entered(svcs, color, trail, done, n);
      color, trail := color[n := IN_PROGRESS], trail + [n];
      var deps := svcs[n];
      for j := 0 to |deps|
        invariant Valid() && trail == old(trail) + [n] && Unseen(svcs, color) <= unseen - {n}
        invariant forall m :: m in old(done) ==> m in done
        invariant forall d :: d in deps[..j] && d in svcs ==> d in done
      {
        assert deps[..j + 1] == deps[..j] + [deps[j]];
        if deps[j] in svcs {
          Fewer(Unseen(svcs, color), unseen, n);
          found := Visit(deps[j]);
          if found {
            return true;
          }
        }
      }
      assert deps[..|deps|] == deps;
      Left(svcs, color, old(trail), done, n);
      color, trail, done := color[n := DONE], old(trail), done + [n];
      return false;
    }

    method Search(keys: seq<string>) returns (found: bool)
      requires Valid() && trail == [] && Elements(keys) == svcs.Keys
      modifies this
      ensures found <==> Cyclic(svcs)
    {
      hide DepsFirst, Path, Cyclic, Unseen;
      for i := 0 to |keys|
        invariant Valid() && trail == []
        invariant forall m :: m in keys[..i] ==> m in done
      {
        assert keys[..i + 1] == keys[..i] + [keys[i]];
        assert keys[i] in Elements(keys);
        if ColorOf(color, keys[i]) == 0 {
          found := Visit(keys[i]);
          if found {
            return true;
          }
        } else {
          assert keys[i] !in trail;
        }
      }
      assert keys[..|keys|] == keys;
      Finished(svcs, color, keys, done);
      return false;
    }
  }

  lemma Finished(g: Deps, color: map<string, int>, keys: seq<string>, done: seq<string>)
    requires Colored(g, color, [], done) && Elements(keys) == g.Keys && forall m :: m in keys ==> m in done
    ensures !Cyclic(g)
  {
    hide DepsFirst, Cyclic, Path;
    assert Elements(done) == g.Keys by {
      forall m ensures m in Elements(done) <==> m in g.Keys {
        assert m in g.Keys <==> m in Elements(keys);
      }
    }
    TopologicalAcyclic(g, done);
  }

  /** Depth-first cycle detection: true exactly when some service waits for itself. */
  method HasCycle(svcs: Deps, keys: seq<string>) returns (found: bool)
    requires Elements(keys) == svcs.Keys
    ensures found <==> Cyclic(svcs)
  {
    var search := new CycleSearch(svcs);
    found := search.Search(keys);
  }
}
