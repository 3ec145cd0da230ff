/** Configuration patches: the deep merge, and the lock on values the dynamic link owns. */
module ConfigLock {
  import opened Common

  // A leaf is any value that is not an object: number, string, boolean, null or array.
  datatype Json = Leaf(text: string) | Obj(fields: map<string, Json>)

  type Path = seq<string>

  function Get(j: Json, p: Path): Option<Json> {
    if p == [] then Some(j)
    else if j.Obj? && p[0] in j.fields then Get(j.fields[p[0]], p[1..])
    else None
  }

  // ---- deep merge ----------------------------------------------------------------------------

  function Merge(base: Json, overlay: Json): Json
    decreases overlay
  {
    if !base.Obj? || !overlay.Obj? then overlay
    else
      Obj(map k | k in base.fields.Keys + overlay.fields.Keys ::
        if k !in overlay.fields then base.fields[k]
        else if k in base.fields then Merge(base.fields[k], overlay.fields[k])
        else overlay.fields[k])
  }

  // The overlay's keys outside todo have been merged in.
  function Partly(base: map<string, Json>, overlay: map<string, Json>, todo: set<string>): map<string, Json> {
    map k | k in base.Keys + (overlay.Keys - todo) ::
      if k !in overlay || k in todo then base[k]
      else if k in base then Merge(base[k], overlay[k])
      else overlay[k]
  }

  lemma PartlyStep(base: map<string, Json>, overlay: map<string, Json>, todo: set<string>, k: string)
    requires k in todo && todo <= overlay.Keys
    ensures Partly(base, overlay, todo - {k}) ==
      Partly(base, overlay, todo)[k := if k in base then Merge(base[k], overlay[k]) else overlay[k]]
    ensures var f := Partly(base, overlay, todo); k in f <==> k in base
    ensures k in base ==> Partly(base, overlay, todo)[k] == base[k]
  {
  }

  lemma PartlyEnds(base: Json, overlay: Json)
    ensures base.Obj? && overlay.Obj? ==>
      && Partly(base.fields, overlay.fields, overlay.fields.Keys) == base.fields
      && Merge(base, overlay) == Obj(Partly(base.fields, overlay.fields, {}))
    ensures !base.Obj? || !overlay.Obj? ==> Merge(base, overlay) == overlay
  {
  }

  method DeepMergeJson(base: Json, overlay: Json) returns (out: Json)
    ensures out == Merge(base, overlay)
    decreases overlay
  {
    hide Merge, Partly;
    PartlyEnds(base, overlay);
    if !base.Obj? || !overlay.Obj? {
      return overlay;
    }
    var fields, todo := base.fields, overlay.fields.Keys;
    while todo != {}
      invariant todo <= overlay.fields.Keys && fields == Partly(base.fields, overlay.fields, todo)
      decreases |todo|
    {
      var k :| k in todo;
      PartlyStep(base.fields, overlay.fields, todo, k);
      if k in base.fields { PartlyEnds(base.fields[k], overlay.fields[k]); }
      if k in fields && fields[k].Obj? && overlay.fields[k].Obj? {
        var merged := DeepMergeJson(fields[k], overlay.fields[k]);
        fields := fields[k := merged];
      } else {
        fields := fields[k := overlay.fields[k]];
      }
      todo := todo - {k};
    }
    out := Obj(fields);
  }

  lemma {:induction false} MergeSelf(j: Json)
    ensures Merge(j, j) == j
  {
    if j.Obj? {
      forall k | k in j.fields ensures Merge(j.fields[k], j.fields[k]) == j.fields[k] {
        MergeSelf(j.fields[k]);
      }
    }
  }

  /** Patching twice is patching once. */
  lemma {:induction false} MergeIdempotent(base: Json, p: Json)
    ensures Merge(Merge(base, p), p) == Merge(base, p)
    decreases p
  {
    if base.Obj? && p.Obj? {
      var m := Merge(base, p);
      forall k | k in p.fields ensures Merge(m.fields[k], p.fields[k]) == m.fields[k] {
        if k in base.fields {
          MergeIdempotent(base.fields[k], p.fields[k]);
        } else {
          MergeSelf(p.fields[k]);
        }
      }
    } else {
      MergeSelf(p);
    }
  }

  // ---- written paths ----------------------------------------------------------------------------

  // The path leads through objects to a leaf or an empty object.
  predicate Writes(body: Json, p: Path) {
    if p == [] then !body.Obj? || body.fields == map[]
    else body.Obj? && p[0] in body.fields && Writes(body.fields[p[0]], p[1..])
  }

  // Every path the body writes, after the prefix, and no other.
  method CollectWrittenPaths(body: Json, prefix: Path) returns (out: seq<Path>)
    ensures forall p :: p in out <==> prefix <= p && Writes(body, p[|prefix|..])
    decreases body
  {
    if !body.Obj? || body.fields == map[] {
      OnlyRoot(body, prefix);
      return [prefix];
    }
    out := [];
    var todo := body.fields.Keys;
    while todo != {}
      invariant todo <= body.fields.Keys
      invariant forall p :: p in out <==> Visited(body, prefix, todo, p)
      decreases |todo|
    {
      hide Visited;
      var k :| k in todo;
      var below := CollectWrittenPaths(body.fields[k], prefix + [k]);
      forall p ensures p in out + below <==> Visited(body, prefix, todo - {k}, p) {
        VisitedStep(body, prefix, todo, k, p);
      }
      out, todo := out + below, todo - {k};
    }
    forall p ensures Visited(body, prefix, {}, p) <==> prefix <= p && Writes(body, p[|prefix|..]) {
      VisitedAll(body, prefix, p);
    }
  }

  predicate Visited(body: Json, prefix: Path, todo: set<string>, p: Path) {
    prefix <= p && p != prefix && p[|prefix|] !in todo && Writes(body, p[|prefix|..])
  }

  lemma OnlyRoot(body: Json, prefix: Path)
    requires !body.Obj? || body.fields == map[]
    ensures forall p :: prefix <= p && Writes(body, p[|prefix|..]) <==> p == prefix
  {
  }

  lemma VisitedStep(body: Json, prefix: Path, todo: set<string>, k: string, p: Path)
    requires body.Obj? && todo <= body.fields.Keys && k in todo
    ensures Visited(body, prefix, todo - {k}, p) <==>
      Visited(body, prefix, todo, p) || (prefix + [k] <= p && Writes(body.fields[k], p[|prefix| + 1..]))
  {
  }

  lemma VisitedAll(body: Json, prefix: Path, p: Path)
    requires body.Obj? && body.fields != map[]
    ensures Visited(body, prefix, {}, p) <==> prefix <= p && Writes(body, p[|prefix|..])
  {
  }

  // ---- the lock ---------------------------------------------------------------------------------------

  function LockedPaths(): seq<Path> {
    [["link", "mcs"], ["link", "fec", "k"], ["link", "fec", "n"], ["link", "txPowerDbm"],
     ["video", "bitrate"], ["video", "qpDelta"], ["video", "roi"]]
  }

  // One path lies under the other.
  predicate Comparable(a: Path, b: Path) { a <= b || b <= a }

  ghost predicate Hits(patch: Json, lock: Path) {
    exists w :: Writes(patch, w) && Comparable(w, lock)
  }

  predicate Trips(w: Path) { exists i :: 0 <= i < |LockedPaths()| && Comparable(w, LockedPaths()[i]) }

  ghost predicate Refused(patch: Json) { exists w :: Writes(patch, w) && Trips(w) }

  ghost predicate Passes(patch: Json, enabled: bool) {
    !enabled || !patch.Obj? || patch.fields == map[] || !Refused(patch)
  }

  /** A written path trips the lock exactly at, above or below the rung, the block's k and n, the
      transmit power, the bitrate, the QP offset or the region of interest; so stbc, ldpc, width
      and the rest of link.fec can be patched, but not link.fec as a whole. */
  lemma TripsExactly(w: Path)
    ensures Trips(w) <==>
      || |w| == 0
      || (w[0] == "link" && (|w| == 1 || w[1] == "mcs" || w[1] == "txPowerDbm" || (w[1] == "fec" && (|w| == 2 || w[2] == "k" || w[2] == "n"))))
      || (w[0] == "video" && (|w| == 1 || w[1] == "bitrate" || w[1] == "qpDelta" || w[1] == "roi"))
  {
    var l := LockedPaths();
    assert Trips(w) <==> Comparable(w, l[0]) || Comparable(w, l[1]) || Comparable(w, l[2]) || Comparable(w, l[3])
                         || Comparable(w, l[4]) || Comparable(w, l[5]) || Comparable(w, l[6]);
    Under(w, "link", "mcs");
    Under(w, "link", "txPowerDbm");
    Under(w, "video", "bitrate");
    Under(w, "video", "qpDelta");
    Under(w, "video", "roi");
    Under3(w, "link", "fec", "k");
    Under3(w, "link", "fec", "n");
  }

  lemma Under(w: Path, a: string, b: string)
    ensures Comparable(w, [a, b]) <==> |w| == 0 || (w[0] == a && (|w| == 1 || w[1] == b))
  {
    if |w| == 1 { assert w == [w[0]]; }
    if |w| >= 2 { assert w[..2] == [w[0], w[1]]; }
  }

  lemma Under3(w: Path, a: string, b: string, c: string)
    ensures Comparable(w, [a, b, c]) <==> |w| == 0 || (w[0] == a && (|w| == 1 || (w[1] == b && (|w| == 2 || w[2] == c))))
  {
    if |w| == 1 { assert w == [w[0]]; }
    if |w| == 2 { assert w == [w[0], w[1]]; }
    if |w| >= 3 { assert w[..3] == [w[0], w[1], w[2]]; }
  }

  // The offending written paths; the patch passes when there are none.
  method CheckDynamicLinkLock(patch: Json, enabled: bool) returns (locked: seq<Path>)
    ensures locked == [] <==> Passes(patch, enabled)
    ensures enabled && patch.Obj? && patch.fields != map[] ==>
      forall w :: w in locked <==> Writes(patch, w) && Trips(w)
  {
    locked := [];
    if !enabled || !patch.Obj? || patch.fields == map[] {
      return;
    }
    var written := CollectWrittenPaths(patch, []);
    for i := 0 to |written|
      invariant forall w :: w in locked <==> w in written[..i] && Trips(w)
    {
      assert written[..i + 1] == written[..i] + [written[i]];
      if Trips(written[i]) {
        locked := locked + [written[i]];
      }
    }
    assert written[..|written|] == written;
    forall w ensures w in written <==> Writes(patch, w) {
      assert w[0..] == w;
    }
    if locked != [] { assert locked[0] in locked; }
  }

  // ---- what the lock guarantees ----------------------------------------------------------------------------

  // Merging this patch leaves the value at p alone, whatever the base.
  ghost predicate Harmless(patch: Json, p: Path) {
    forall base :: Get(Merge(base, patch), p) == Get(base, p)
  }

  // The patch reaches the path, or replaces one of its ancestors by a leaf.
  predicate Touches(patch: Json, p: Path) {
    p == [] || !patch.Obj? || (p[0] in patch.fields && Touches(patch.fields[p[0]], p[1..]))
  }

  // An empty object at a strict ancestor of the path.
  predicate EmptyAbove(patch: Json, p: Path) {
    p != [] && patch.Obj? && (patch.fields == map[] || (p[0] in patch.fields && EmptyAbove(patch.fields[p[0]], p[1..])))
  }

  lemma {:induction false} UntouchedKept(base: Json, patch: Json, p: Path)
    requires !Touches(patch, p)
    ensures Get(Merge(base, patch), p) == Get(base, p)
    decreases p
  {
    if p[0] in patch.fields {
      var child := patch.fields[p[0]];
      if base.Obj? && p[0] in base.fields {
        UntouchedKept(base.fields[p[0]], child, p[1..]);
      } else {
        // Merging onto a leaf is replacing it.
        UntouchedKept(Leaf(""), child, p[1..]);
      }
    }
  }

  // A base whose value at p the patch changes.
  lemma {:induction false} TouchedChanges(patch: Json, p: Path) returns (base: Json)
    requires Touches(patch, p)
    ensures Get(Merge(base, patch), p) != Get(base, p)
    decreases p
  {
    if p == [] {
      base := if patch == Leaf("") then Leaf("x") else Leaf("");
    } else if !patch.Obj? {
      base := Nested(p);
      NestedGet(p);
    } else {
      var below := TouchedChanges(patch.fields[p[0]], p[1..]);
      base := Obj(map[p[0] := below]);
    }
  }

  function Nested(p: Path): Json { if p == [] then Leaf("") else Obj(map[p[0] := Nested(p[1..])]) }

  lemma NestedGet(p: Path)
    ensures Get(Nested(p), p) == Some(Leaf(""))
  {
  }

  /** A patch is harmless at a path exactly when it neither reaches it nor replaces an
      ancestor by a leaf. */
  lemma HarmlessExactly(patch: Json, p: Path)
    ensures Harmless(patch, p) <==> !Touches(patch, p)
  {
    if Touches(patch, p) {
      var base := TouchedChanges(patch, p);
    } else {
      forall base ensures Get(Merge(base, patch), p) == Get(base, p) {
        UntouchedKept(base, patch, p);
      }
    }
  }

  // Every body writes some path.
  lemma {:induction false} WritesSomething(body: Json) returns (w: Path)
    ensures Writes(body, w)
    decreases body
  {
    if !body.Obj? || body.fields == map[] {
      w := [];
    } else {
      var k :| k in body.fields;
      var below := WritesSomething(body.fields[k]);
      w := [k] + below;
    }
  }

  lemma HitsBelow(patch: Json, p: Path)
    requires p != [] && patch.Obj? && patch.fields != map[]
    ensures Hits(patch, p) <==> p[0] in patch.fields && Hits(patch.fields[p[0]], p[1..])
  {
    if Hits(patch, p) {
      var w :| Writes(patch, w) && Comparable(w, p);
      assert w[0] == p[0] && Comparable(w[1..], p[1..]);
    }
    if p[0] in patch.fields && Hits(patch.fields[p[0]], p[1..]) {
      var v :| Writes(patch.fields[p[0]], v) && Comparable(v, p[1..]);
      var w := [p[0]] + v;
      assert w[1..] == v && p == [p[0]] + p[1..];
      assert Writes(patch, w) && Comparable(w, p);
    }
  }

  lemma {:induction false} HitsExactly(patch: Json, p: Path)
    ensures Hits(patch, p) <==> Touches(patch, p) || EmptyAbove(patch, p)
    decreases p
  {
    if p == [] {
      var w := WritesSomething(patch);
      assert Comparable(w, p);
    } else if !patch.Obj? || patch.fields == map[] {
      assert Writes(patch, []) && Comparable([], p);
    } else {
      HitsBelow(patch, p);
      if p[0] in patch.fields {
        HitsExactly(patch.fields[p[0]], p[1..]);
      }
    }
  }

  ghost predicate Dangerous(patch: Json) {
    exists i :: 0 <= i < |LockedPaths()| && (Touches(patch, LockedPaths()[i]) || EmptyAbove(patch, LockedPaths()[i]))
  }

  /** The lock refuses exactly the patches that can change a locked value, and those that
      put an empty object above one. */
  lemma RefusesExactly(patch: Json)
    ensures Refused(patch) <==> Dangerous(patch)
  {
    hide LockedPaths, Touches, EmptyAbove, Writes, Comparable;
    if Refused(patch) {
      var w :| Writes(patch, w) && Trips(w);
      var i :| 0 <= i < |LockedPaths()| && Comparable(w, LockedPaths()[i]);
      assert Hits(patch, LockedPaths()[i]);
      HitsExactly(patch, LockedPaths()[i]);
    }
    if Dangerous(patch) {
      var i :| 0 <= i < |LockedPaths()| && (Touches(patch, LockedPaths()[i]) || EmptyAbove(patch, LockedPaths()[i]));
      HitsExactly(patch, LockedPaths()[i]);
      var w :| Writes(patch, w) && Comparable(w, LockedPaths()[i]);
      assert Trips(w);
    }
  }

  lemma LockedNonempty(i: nat)
    requires i < |LockedPaths()|
    ensures LockedPaths()[i] != []
  {
  }

  /** An object patch that the lock lets through leaves every locked value as it was, for
      every base. */
  lemma LockProtects(base: Json, patch: Json, i: nat)
    requires i < |LockedPaths()| && patch.Obj? && Passes(patch, true)
    ensures var p := LockedPaths()[i]; Get(Merge(base, patch), p) == Get(base, p)
  {
    hide LockedPaths;
    LockedNonempty(i);
    if patch.fields != map[] {
      RefusesExactly(patch);
    }
    UntouchedKept(base, patch, LockedPaths()[i]);
  }

  /** Taken alone the lock lets every patch through that is not an object, and such a patch
      is harmless to no locked path; what else it lets through is harmless to all. */
  lemma PassedHarmlessExactly(patch: Json, i: nat)
    requires i < |LockedPaths()|
    ensures !patch.Obj? ==> Passes(patch, true)
    ensures Passes(patch, true) ==> (Harmless(patch, LockedPaths()[i]) <==> patch.Obj?)
  {
    hide LockedPaths, Merge, Refused;
    HarmlessExactly(patch, LockedPaths()[i]);
    if patch.Obj? && Passes(patch, true) {
      forall base ensures Get(Merge(base, patch), LockedPaths()[i]) == Get(base, LockedPaths()[i]) {
        LockProtects(base, patch, i);
      }
    }
  }

  // ---- patching the pending configuration -----------------------------------------------------------------------

  datatype Outcome = Rejected | Locked(paths: seq<Path>) | Accepted

  // The conversion to a configuration throws on anything but an object; fieldsFit says whether
  // the fields of an object convert too.
  predicate Converts(candidate: Json, fieldsFit: bool) { candidate.Obj? && fieldsFit }

  class PendingConfig {
    var pending: Json

    /** fieldsFit, enabled and valid are what converting, reading and validating the merged
        candidate say.  Only an accepted patch changes the pending configuration, and no patch
        of any shape changes a locked value while the dynamic link is enabled. */
    method PatchPending(patch: Json, fieldsFit: bool, enabled: bool, valid: bool) returns (r: Outcome)
      modifies this
      ensures r.Accepted? <==> Converts(Merge(old(pending), patch), fieldsFit) && valid && Passes(patch, enabled)
      ensures pending == if r.Accepted? then Merge(old(pending), patch) else old(pending)
      ensures enabled ==>
        forall i :: 0 <= i < |LockedPaths()| ==> Get(pending, LockedPaths()[i]) == Get(old(pending), LockedPaths()[i])
      ensures r.Locked? <==>
        Converts(Merge(old(pending), patch), fieldsFit) && enabled && patch.Obj? && patch.fields != map[] && Dangerous(patch)
    {
      hide LockedPaths, Merge, Refused, Dangerous;
      RefusesExactly(patch);
      PartlyEnds(pending, patch);
      var next := DeepMergeJson(pending, patch);
      if !Converts(next, fieldsFit) {
        return Rejected;
      }
      var locked := CheckDynamicLinkLock(patch, enabled);
      if locked != [] {
        return Locked(locked);
      }
      if !valid {
        return Rejected;
      }
      ghost var before := pending;
      pending := next;
      if enabled {
        forall i | 0 <= i < |LockedPaths()| ensures Get(next, LockedPaths()[i]) == Get(before, LockedPaths()[i]) {
          LockProtects(before, patch, i);
        }
      }
      return Accepted;
    }
  }
}
