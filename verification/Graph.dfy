/** Dependency graphs between named processes. A name that no node carries is ignored,
    as the orchestrator and the validator both do. */
module Graph {
  type Deps = map<string, seq<string>>

  // from must wait for to.
  predicate Edge(g: Deps, from: string, to: string) {
    from in g && to in g && to in g[from]
  }

  ghost predicate Path(g: Deps, p: seq<string>) {
    forall i :: 0 < i < |p| ==> Edge(g, p[i - 1], p[i])
  }

  ghost predicate Cycle(g: Deps, p: seq<string>) {
    |p| >= 2 && p[0] == p[|p| - 1] && Path(g, p)
  }

  ghost predicate Cyclic(g: Deps) {
    exists p :: Cycle(g, p)
  }

  predicate Distinct(s: seq<string>) {
    forall i, j :: 0 <= i < j < |s| ==> s[i] != s[j]
  }

  function Elements(s: seq<string>): set<string> { set x | x in s }

  // Every registered dependency of each listed node is listed before it.
  ghost predicate DepsFirst(g: Deps, s: seq<string>) {
    forall i, d :: 0 <= i < |s| && Edge(g, s[i], d) ==> d in s[..i]
  }

  ghost predicate Topological(g: Deps, s: seq<string>) {
    Distinct(s) && Elements(s) == g.Keys && DepsFirst(g, s)
  }

  // ---- a topological order excludes cycles ------------------------------------------------

  lemma PathSuffix(g: Deps, p: seq<string>, i: nat)
    requires Path(g, p) && i <= |p|
    ensures Path(g, p[i..])
  {
  }

  lemma PathSnoc(g: Deps, p: seq<string>, n: string)
    requires Path(g, p) && (p == [] || Edge(g, p[|p| - 1], n))
    ensures Path(g, p + [n])
  {
  }

  lemma PathPrefix(g: Deps, p: seq<string>, n: nat)
    requires Path(g, p) && n <= |p|
    ensures Path(g, p[..n])
  {
  }

  lemma DistinctSnoc(s: seq<string>, n: string)
    requires Distinct(s) && n !in s
    ensures Distinct(s + [n])
  {
  }

  lemma {:induction false} DependenciesEarlier(g: Deps, s: seq<string>, p: seq<string>, at: nat)
    requires DepsFirst(g, s) && |p| >= 2 && Path(g, p) && at < |s| && s[at] == p[0]
    ensures p[|p| - 1] in s[..at]
    decreases |p|
  {
    assert Edge(g, p[0], p[1]);
    if |p| > 2 {
      var next :| 0 <= next < at && s[next] == p[1];
      PathSuffix(g, p, 1);
      DependenciesEarlier(g, s, p[1..], next);
    }
  }

  lemma TopologicalAcyclic(g: Deps, s: seq<string>)
    requires Topological(g, s)
    ensures !Cyclic(g)
  {
    if Cyclic(g) {
      var p :| Cycle(g, p);
      assert Edge(g, p[0], p[1]);
      assert p[0] in Elements(s);
      var at :| 0 <= at < |s| && s[at] == p[0];
      DependenciesEarlier(g, s, p, at);
      assert false;
    }
  }

  // Taking nodes away makes no cycle.
  lemma RemovalAcyclic(g: Deps, gone: set<string>)
    requires !Cyclic(g)
    ensures !Cyclic(g - gone)
  {
    forall p ensures !Cycle(g - gone, p) {
      assert Path(g - gone, p) ==> Path(g, p) by {
        if Path(g - gone, p) {
          forall i | 0 < i < |p| ensures Edge(g, p[i - 1], p[i]) { assert Edge(g - gone, p[i - 1], p[i]); }
        }
      }
      assert !Cycle(g, p);
    }
  }

  // ---- a set in which everybody waits for a member holds a cycle -------------------------------

  ghost predicate Stuck(g: Deps, waiting: set<string>) {
    && waiting <= g.Keys
    && forall n :: n in waiting ==> WaitsIn(g, n, waiting)
  }

  ghost predicate WaitsIn(g: Deps, n: string, waiting: set<string>) {
    exists d :: d in waiting && Edge(g, n, d)
  }

  lemma {:induction false} DistinctBounded(s: seq<string>, bound: set<string>)
    requires Distinct(s) && forall x :: x in s ==> x in bound
    ensures |s| <= |bound|
  {
    if s != [] {
      var n := |s| - 1;
      DistinctBounded(s[..n], bound - {s[n]});
    }
  }

  lemma {:induction false} StuckWalk(g: Deps, waiting: set<string>, p: seq<string>)
    requires Stuck(g, waiting) && p != [] && Path(g, p) && Distinct(p) && forall x :: x in p ==> x in waiting
    ensures Cyclic(g)
    decreases |waiting| - |p|
  {
    hide Path, Distinct, Cyclic;
    assert WaitsIn(g, p[|p| - 1], waiting);
    var d :| d in waiting && Edge(g, p[|p| - 1], d);
    var q := p + [d];
    PathSnoc(g, p, d);
    if d in p {
      var i :| 0 <= i < |p| && p[i] == d;
      ClosedPath(g, q, i);
    } else {
      DistinctSnoc(p, d);
      DistinctBounded(q, waiting);
      StuckWalk(g, waiting, q);
    }
  }

  // A path that returns to its i-th node is a cycle from there.
  lemma ClosedPath(g: Deps, p: seq<string>, i: nat)
    requires Path(g, p) && i < |p| - 1 && p[i] == p[|p| - 1]
    ensures Cyclic(g)
  {
    PathSuffix(g, p, i);
    assert Cycle(g, p[i..]);
  }

  lemma StuckCyclic(g: Deps, waiting: set<string>)
    requires Stuck(g, waiting) && waiting != {}
    ensures Cyclic(g)
  {
    hide Stuck, Cyclic;
    var n :| n in waiting;
    StuckWalk(g, waiting, [n]);
  }

  // ---- orders that grow --------------------------------------------------------------------------

  lemma DepsFirstExtends(g: Deps, s: seq<string>, t: seq<string>)
    requires DepsFirst(g, s) && s <= t
    requires forall i, d :: |s| <= i < |t| && Edge(g, t[i], d) ==> d in s
    ensures DepsFirst(g, t)
  {
    forall i, d | 0 <= i < |t| && Edge(g, t[i], d) ensures d in t[..i] {
      if i < |s| {
        assert t[i] == s[i] && t[..i] == s[..i];
      } else {
        assert d in s;
        assert t[..i] == s + t[|s|..i];
      }
    }
  }

  // Distinct members of a set that are as many as the set are all of it.
  lemma DistinctCovers(s: seq<string>, all: set<string>)
    requires Distinct(s) && |s| == |all| && forall x :: x in s ==> x in all
    ensures Elements(s) == all
  {
    forall x | x in all ensures x in s {
      if x !in s { DistinctBounded(s + [x], all); }
    }
  }
}
