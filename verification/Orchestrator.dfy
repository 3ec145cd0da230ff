/** The process orchestrator: registered specs and their start and stop order. */
module Orchestrator {
  import opened Graph

  datatype Order = Ordered(names: seq<string>) | CycleDetected

  function Reversed(s: seq<string>): seq<string> {
    if s == [] then [] else Reversed(s[1..]) + [s[0]]
  }

  lemma {:induction false} ReversedSnoc(s: seq<string>, x: string)
    ensures Reversed(s + [x]) == [x] + Reversed(s)
  {
    if s != [] {
      ReversedSnoc(s[1..], x);
      assert (s + [x])[1..] == s[1..] + [x];
    }
  }

  lemma {:induction false} ReversedTwice(s: seq<string>)
    ensures Reversed(Reversed(s)) == s
  {
    if s != [] {
      ReversedTwice(s[1..]);
      ReversedSnoc(Reversed(s[1..]), s[0]);
    }
  }

  // How many entries of a dependency list name an open node.
  function Open(deps: seq<string>, open: set<string>): nat {
    if deps == [] then 0
    else Open(deps[..|deps| - 1], open) + if deps[|deps| - 1] in open then 1 else 0
  }

  lemma {:induction false} OpenCloses(deps: seq<string>, open: set<string>, n: string)
    requires n in open
    ensures Open(deps, open - {n}) == Open(deps, open) - multiset(deps)[n]
  {
    if deps != [] {
      OpenCloses(deps[..|deps| - 1], open, n);
      assert deps == deps[..|deps| - 1] + [deps[|deps| - 1]];
    }
  }

  lemma {:induction false} OpenZero(deps: seq<string>, open: set<string>)
    ensures Open(deps, open) == 0 <==> forall d :: d in deps ==> d !in open
  {
    if deps != [] {
      OpenZero(deps[..|deps| - 1], open);
      assert deps == deps[..|deps| - 1] + [deps[|deps| - 1]];
    }
  }

  lemma OpenSnoc(deps: seq<string>, j: nat, open: set<string>)
    requires j < |deps|
    ensures Open(deps[..j + 1], open) == Open(deps[..j], open) + if deps[j] in open then 1 else 0
    ensures multiset(deps[..j + 1]) == multiset(deps[..j]) + multiset{deps[j]}
  {
    assert deps[..j + 1][..j] == deps[..j];
    assert deps[..j + 1] == deps[..j] + [deps[j]];
  }

  // A C++ map yields an empty list for a key it has not seen.
  function Listed(rev: Deps, d: string): seq<string> { if d in rev then rev[d] else [] }

  // The registered names in the order the map enumerates them.
  predicate KeyOrder(g: Deps, keys: seq<string>) { Distinct(keys) && Elements(keys) == g.Keys }

  datatype Tallies = Tallies(indeg: map<string, nat>, rev: Deps)

  function TallyOne(g: Deps, t: Tallies, n: string, deps: seq<string>): (r: Tallies)
    requires n in t.indeg
    ensures r.indeg.Keys == t.indeg.Keys
  {
    if deps == [] then t
    else
      var last := |deps| - 1;
      var u := TallyOne(g, t, n, deps[..last]);
      if deps[last] !in g then u
      else Tallies(u.indeg[n := u.indeg[n] + 1], u.rev[deps[last] := Listed(u.rev, deps[last]) + [n]])
  }

  function TallyAll(g: Deps, keys: seq<string>): (r: Tallies)
    requires forall n :: n in keys ==> n in g
    ensures r.indeg.Keys == g.Keys
  {
    if keys == [] then Tallies(map n | n in g :: 0, map[])
    else var n := keys[|keys| - 1]; TallyOne(g, TallyAll(g, keys[..|keys| - 1]), n, g[n])
  }

  lemma {:induction false} TallyOneCounts(g: Deps, t: Tallies, n: string, deps: seq<string>, m: string)
    requires n in t.indeg && m in t.indeg
    ensures TallyOne(g, t, n, deps).indeg[m] == t.indeg[m] + if m == n then Open(deps, g.Keys) else 0
  {
    if deps != [] {
      TallyOneCounts(g, t, n, deps[..|deps| - 1], m);
    }
  }

  lemma ListedSnoc(rev: Deps, dep: string, n: string, d: string, m: string)
    ensures multiset(Listed(rev[dep := Listed(rev, dep) + [n]], d))[m] ==
            multiset(Listed(rev, d))[m] + if d == dep && m == n then 1 else 0
  {
  }

  lemma {:induction false} TallyOneMirrors(g: Deps, t: Tallies, n: string, deps: seq<string>, d: string, m: string)
    requires n in t.indeg && d in g
    ensures multiset(Listed(TallyOne(g, t, n, deps).rev, d))[m] ==
            multiset(Listed(t.rev, d))[m] + if m == n then multiset(deps)[d] else 0
  {
    hide Listed, Open;
    if deps != [] {
      var last := |deps| - 1;
      TallyOneMirrors(g, t, n, deps[..last], d, m);
      OpenSnoc(deps, last, {});
      assert deps[..last + 1] == deps;
      ListedSnoc(TallyOne(g, t, n, deps[..last]).rev, deps[last], n, d, m);
    }
  }

  lemma {:induction false} TallyAllFacts(g: Deps, keys: seq<string>, d: string, m: string)
    requires Distinct(keys) && d in g && forall n :: n in keys ==> n in g
    ensures multiset(Listed(TallyAll(g, keys).rev, d))[m] == if m in g && m in keys then multiset(g[m])[d] else 0
    ensures m in g ==> TallyAll(g, keys).indeg[m] == if m in keys then Open(g[m], g.Keys) else 0
  {
    hide TallyOne, Open;
    if keys != [] {
      var last := |keys| - 1;
      var t, n := TallyAll(g, keys[..last]), keys[last];
      assert keys == keys[..last] + [n];
      TallyAllFacts(g, keys[..last], d, m);
      TallyOneMirrors(g, t, n, g[n], d, m);
      if m in g { TallyOneCounts(g, t, n, g[n], m); }
    }
  }

  lemma TallyFacts(g: Deps, keys: seq<string>)
    requires KeyOrder(g, keys) && forall n :: n in keys ==> n in g
    ensures var t := TallyAll(g, keys); Counts(g, t.indeg, {}) && Mirrors(g, t.rev)
  {
    hide TallyAll, Open;
    assert g.Keys - {} == g.Keys;
    assert forall n :: n in g ==> n in Elements(keys);
    forall d, m | d in g ensures multiset(Listed(TallyAll(g, keys).rev, d))[m] == if m in g then multiset(g[m])[d] else 0 {
      TallyAllFacts(g, keys, d, m);
    }
    forall m | m in g ensures TallyAll(g, keys).indeg[m] == Open(g[m], g.Keys) {
      TallyAllFacts(g, keys, m, m);
    }
    forall d, n | d in g && n in Listed(TallyAll(g, keys).rev, d) ensures n in g {
      assert multiset(Listed(TallyAll(g, keys).rev, d))[n] > 0;
    }
  }

  lemma KeysRegistered(g: Deps, keys: seq<string>)
    requires KeyOrder(g, keys)
    ensures forall n :: n in keys ==> n in g
  {
  }

  // Each open count is what the closed names leave of the dependency list.
  ghost predicate Counts(g: Deps, indeg: map<string, nat>, closed: set<string>) {
    indeg.Keys == g.Keys && forall m :: m in g ==> indeg[m] == Open(g[m], g.Keys - closed)
  }

  // The queue holds exactly the names with nothing left to wait for.
  ghost predicate Zeroes(indeg: map<string, nat>, queue: seq<string>) {
    Distinct(queue) && forall m :: m in queue <==> m in indeg && indeg[m] == 0
  }

  // d lists each waiter as often as the waiter names d.
  ghost predicate Mirrors(g: Deps, rev: Deps) {
    && (forall d, n :: d in g && n in g ==> multiset(Listed(rev, d))[n] == multiset(g[n])[d])
    && (forall d, n :: d in g && n in Listed(rev, d) ==> n in g)
  }

  lemma Affordable(g: Deps, queue: seq<string>, i: nat, indeg: map<string, nat>, rev: Deps)
    requires i < |queue| && Mirrors(g, rev) && Zeroes(indeg, queue) && Counts(g, indeg, Elements(queue[..i]))
    ensures queue[i] in g
    ensures forall m :: m in indeg ==> multiset(Listed(rev, queue[i]))[m] <= indeg[m]
  {
    hide Distinct;
    var n, open := queue[i], g.Keys - Elements(queue[..i]);
    NotBefore(queue, i);
    forall m | m in indeg ensures multiset(Listed(rev, n))[m] <= indeg[m] {
      OpenCloses(g[m], open, n);
    }
  }

  lemma NotBefore(s: seq<string>, i: nat)
    requires Distinct(s) && i < |s|
    ensures s[i] !in s[..i] && Elements(s[..i + 1]) == Elements(s[..i]) + {s[i]}
  {
  }

  // Closing the i-th name keeps the counts, and what it queued waited for it last.
  lemma Advanced(g: Deps, queue: seq<string>, next: seq<string>, i: nat, before: map<string, nat>, after: map<string, nat>, rev: Deps)
    requires i < |queue| && queue <= next && DepsFirst(g, queue) && Mirrors(g, rev) && Zeroes(before, queue) && Zeroes(after, next)
    requires Counts(g, before, Elements(queue[..i])) && after.Keys == g.Keys
    requires forall m :: m in after ==> after[m] + multiset(Listed(rev, queue[i]))[m] == before[m]
    ensures Counts(g, after, Elements(next[..i + 1])) && DepsFirst(g, next)
  {
    hide Distinct, DepsFirst;
    var n, open := queue[i], g.Keys - Elements(queue[..i]);
    NotBefore(queue, i);
    assert next[..i + 1] == queue[..i + 1];
    var rest := g.Keys - Elements(next[..i + 1]);
    assert rest == open - {n};
    forall m | m in g ensures after[m] == Open(g[m], rest) {
      OpenCloses(g[m], open, n);
    }
    forall k, d | |queue| <= k < |next| && Edge(g, next[k], d) ensures d in queue {
      assert next[k] in next;
      OpenZero(g[next[k]], rest);
      assert d in next[..i + 1];
    }
    DepsFirstExtends(g, queue, next);
  }

  lemma Unqueued(g: Deps, queue: seq<string>, indeg: map<string, nat>)
    requires Zeroes(indeg, queue) && Counts(g, indeg, {})
    ensures DepsFirst(g, queue) && Counts(g, indeg, Elements(queue[..0]))
  {
    forall i, d | 0 <= i < |queue| ensures !Edge(g, queue[i], d) {
      assert queue[i] in queue;
      OpenZero(g[queue[i]], g.Keys - {});
    }
    assert Elements(queue[..0]) == {};
  }

  lemma Waits(g: Deps, n: string, waiting: set<string>)
    requires n in g && waiting <= g.Keys && Open(g[n], waiting) > 0
    ensures WaitsIn(g, n, waiting)
  {
    OpenZero(g[n], waiting);
    var d :| d in g[n] && d in waiting;
    assert Edge(g, n, d);
  }

  lemma AllWait(g: Deps, waiting: set<string>)
    requires waiting <= g.Keys && forall n :: n in waiting ==> WaitsIn(g, n, waiting)
    ensures Stuck(g, waiting)
  {
  }

  // Names the queue never reached wait for one another.
  lemma Blocked(g: Deps, queue: seq<string>, indeg: map<string, nat>)
    requires Zeroes(indeg, queue) && Counts(g, indeg, Elements(queue)) && |queue| != |g|
    ensures Cyclic(g)
  {
    hide Cyclic, Open, Distinct, Stuck, WaitsIn;
    var waiting := g.Keys - Elements(queue);
    forall n | n in waiting ensures WaitsIn(g, n, waiting) {
      Waits(g, n, waiting);
    }
    DistinctCounts(queue);
    assert Elements(queue) <= g.Keys;
    assert g.Keys == waiting + Elements(queue);
    AllWait(g, waiting);
    StuckCyclic(g, waiting);
  }

  lemma {:induction false} DistinctCounts(s: seq<string>)
    requires Distinct(s)
    ensures |Elements(s)| == |s|
  {
    if s != [] {
      var n := |s| - 1;
      NotBefore(s, n);
      DistinctCounts(s[..n]);
      assert s[..n + 1] == s;
    }
  }

  // The names that wait for nobody registered, in key order: the start of the order.
  function ReadyFirst(g: Deps, keys: seq<string>): seq<string> {
    if keys == [] then []
    else
      var front, n := ReadyFirst(g, keys[..|keys| - 1]), keys[|keys| - 1];
      if n in g && Open(g[n], g.Keys) == 0 then front + [n] else front
  }

  class Registry {
    var specs: Deps

    constructor ()
      ensures specs == map[]
    {
      specs := map[];
    }

    method Add(name: string, startAfter: seq<string>)
      modifies this
      ensures specs == old(specs)[name := startAfter]
    {
      specs := specs[name := startAfter];
    }

    method Remove(name: string)
      modifies this
      ensures specs == old(specs) - {name}
    {
      specs := specs - {name};
    }

    // In-degrees and reverse dependencies of the registered specs.
    method Tally(keys: seq<string>) returns (indeg: map<string, nat>, rev: Deps)
      requires KeyOrder(specs, keys)
      ensures Counts(specs, indeg, {}) && Mirrors(specs, rev)
    {
      hide Counts, Mirrors, Distinct, Listed;
      indeg, rev := map n | n in specs :: 0, map[];
      KeysRegistered(specs, keys);
      for i := 0 to |keys|
        invariant Tallies(indeg, rev) == TallyAll(specs, keys[..i])
      {
        var n := keys[i];
        assert keys[..i + 1][..i] == keys[..i];
        for j := 0 to |specs[n]|
          invariant Tallies(indeg, rev) == TallyOne(specs, TallyAll(specs, keys[..i]), n, specs[n][..j])
        {
          var dep := specs[n][j];
          assert specs[n][..j + 1][..j] == specs[n][..j];
          if dep in specs {
            indeg, rev := indeg[n := indeg[n] + 1], rev[dep := Listed(rev, dep) + [n]];
          }
        }
        assert specs[n][..|specs[n]|] == specs[n];
      }
      assert keys[..|keys|] == keys;
      TallyFacts(specs, keys);
    }

    // Releases what waited for a started process; a count that reaches zero queues its owner.
    method Release(waiters: seq<string>, indeg0: map<string, nat>, queue0: seq<string>)
      returns (indeg: map<string, nat>, queue: seq<string>)
      requires forall m :: m in indeg0 ==> multiset(waiters)[m] <= indeg0[m]
      requires forall m :: m in waiters ==> m in indeg0
      requires Zeroes(indeg0, queue0)
      ensures indeg.Keys == indeg0.Keys && forall m :: m in indeg ==> indeg[m] + multiset(waiters)[m] == indeg0[m]
      ensures queue0 <= queue && Zeroes(indeg, queue)
    {
      indeg, queue := indeg0, queue0;
      for j := 0 to |waiters|
        invariant indeg.Keys == indeg0.Keys
        invariant forall m :: m in indeg ==> indeg[m] + multiset(waiters[..j])[m] == indeg0[m]
        invariant queue0 <= queue && Zeroes(indeg, queue)
      {
        var m := waiters[j];
        OpenSnoc(waiters, j, {});
        assert waiters == waiters[..j + 1] + waiters[j + 1..];
        indeg := indeg[m := indeg[m] - 1];
        if indeg[m] == 0 {
          queue := queue + [m];
        }
      }
      assert waiters[..|waiters|] == waiters;
    }

    // The names with nothing to wait for, in key order.
    method Ready(keys: seq<string>, indeg: map<string, nat>) returns (queue: seq<string>)
      requires KeyOrder(specs, keys) && Counts(specs, indeg, {})
      ensures Zeroes(indeg, queue) && queue == ReadyFirst(specs, keys)
    {
      hide Open;
      assert specs.Keys - {} == specs.Keys;
      queue := [];
      for i := 0 to |keys|
        invariant Distinct(queue) && forall m :: m in queue <==> m in keys[..i] && m in indeg && indeg[m] == 0
        invariant queue == ReadyFirst(specs, keys[..i])
      {
        assert keys[..i + 1][..i] == keys[..i];
        NotBefore(keys, i);
        assert keys[..i + 1] == keys[..i] + [keys[i]];
        assert keys[i] in Elements(keys);
        if indeg[keys[i]] == 0 {
          queue := queue + [keys[i]];
        }
      }
      assert keys[..|keys|] == keys;
      assert forall m :: m in specs ==> m in Elements(keys);
    }

    /** Kahn's algorithm: a topological order of the registered specs, or the cycle error
        exactly when there is a cycle. */
    method StartOrder(keys: seq<string>) returns (r: Order)
      requires KeyOrder(specs, keys)
      ensures r.Ordered? <==> !Cyclic(specs)
      ensures r.Ordered? ==> Topological(specs, r.names) && ReadyFirst(specs, keys) <= r.names
    {
      var indeg, rev := Tally(keys);
      var queue := Ready(keys, indeg);
      var i := 0;
      Unqueued(specs, queue, indeg);
      while i < |queue|
        invariant 0 <= i <= |queue| && DepsFirst(specs, queue) && ReadyFirst(specs, keys) <= queue
        invariant Zeroes(indeg, queue) && Counts(specs, indeg, Elements(queue[..i]))
        decreases |specs| - i
      {
        DistinctBounded(queue, specs.Keys);
        Affordable(specs, queue, i, indeg, rev);
        ghost var before, was := indeg, queue;
        indeg, queue := Release(Listed(rev, queue[i]), indeg, queue);
        Advanced(specs, was, queue, i, before, indeg, rev);
        i := i + 1;
      }
      assert queue[..i] == queue;
      if |queue| != |specs| {
        Blocked(specs, queue, indeg);
        r := CycleDetected;
      } else {
        DistinctCovers(queue, specs.Keys);
        TopologicalAcyclic(specs, queue);
        r := Ordered(queue);
      }
    }

    /** The reverse: nothing stops before what waits for it. */
    method StopOrder(keys: seq<string>) returns (r: Order)
      requires KeyOrder(specs, keys)
      ensures r.Ordered? <==> !Cyclic(specs)
      ensures r.Ordered? ==> Topological(specs, Reversed(r.names))
    {
      r := StartOrder(keys);
      if r.Ordered? {
        ReversedTwice(r.names);
        r := Ordered(Reversed(r.names));
      }
    }
  }
}
