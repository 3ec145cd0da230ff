/** Whole runs of the selector: every promote is justified by what happened before
    it, and the flap damper spaces repeated failures of a rung. */
module SelectorHistory {
  import opened Common
  import opened Knee
  import opened Selector

  // The two ways the selector's state changes: a call, or a demote from outside.
  datatype Op = Choose(x: Inputs) | Lower(at: int)

  function TsOf(o: Op): int {
    match o
    case Choose(x) => x.ts
    case Lower(t) => t
  }

  /** One call, as an observer would log it.  rung and after are the rung before and
      after; backoff is set when the call charged the damper. */
  datatype Rec = Rec(
    ts: int, rung: nat, after: nat, clean: bool, confirms: bool, snr: Option<real>,
    why: Why, release: Release, snapTgt: Option<nat>, backoff: Option<int>)

  datatype Hist = Hist(sel: Sel, recs: seq<Rec>)

  predicate ChargesNow(cfg: SelectorConfig, s: Sel, x: Inputs) {
    Emergency(cfg, x) && StepsDown(s, x) && Charges(s, x)
  }

  function RecOf(cfg: SelectorConfig, s: Sel, x: Inputs): Rec
    requires s.Valid(cfg)
  {
    var t := Select(cfg, s, x);
    Rec(x.ts, s.current, t.current, !Emergency(cfg, x),
        !Emergency(cfg, x) && Confirms(cfg, s.cleanDwell + 1, x), x.snr,
        t.note.why, t.note.release, t.note.snapTgt,
        if ChargesNow(cfg, s, x) then Some(BackoffMs(cfg, EffectiveLevel(cfg, s.flaps, s.current, x.ts) + 1)) else None)
  }

  // ---- what one call does -----------------------------------------------------------------

  // No promote: the rung stays or, on a dirty call, drops by one.
  predicate Kept(cfg: SelectorConfig, s: Sel, t: Sel, r: Rec) {
    && !r.why.Promotes() && t.current <= s.current
    && (r.clean ==> t.current == s.current && t.cleanDwell == s.cleanDwell + 1)
    && (!r.clean ==> t.cleanDwell == 0)
  }

  predicate Climbed(cfg: SelectorConfig, s: Sel, t: Sel, r: Rec, x: Inputs)
    requires s.memory.Valid()
  {
    && r.why.Promotes() && r.clean && t.current == s.current + 1 && t.cleanDwell == 0
    && (r.why != SnapBack ==> s.cleanDwell + 1 >= cfg.promoteDwell)
    && Damper(cfg, t.flaps, t.recent, t.current, x.ts, x.probeRelease) == Verdict(false, r.release)
    && x.snr.Some? && t.memory.Valid()
    && (r.why == SnapBack ==> r.snapTgt.Some? && r.snapTgt.value > s.current && Eligible(cfg, t.memory, x.snr.value, x.ts, r.snapTgt.value))
  }

  predicate TablesMoved(cfg: SelectorConfig, s: Sel, t: Sel, r: Rec, x: Inputs) {
    && t.flaps == (if r.clean then Cleared(cfg, s.flaps, s.cleanDwell + 1, s.current)
                   else if r.backoff.Some? then Charged(cfg, s.flaps, s.current, x.snr, x.ts) else s.flaps)
    && t.memory == (if r.clean then Confirmed(cfg, s.memory, s.cleanDwell + 1, s.current, x) else s.memory)
  }

  lemma SelectSummary(cfg: SelectorConfig, s: Sel, x: Inputs)
    requires s.Valid(cfg)
    ensures var t, r := Select(cfg, s, x), RecOf(cfg, s, x);
      && t.Valid(cfg) && r.after == t.current && r.rung == s.current && r.ts == x.ts && r.snr == x.snr
      && (Kept(cfg, s, t, r) || Climbed(cfg, s, t, r, x))
      && TablesMoved(cfg, s, t, r, x)
      && (r.backoff.Some? ==> !r.clean && s.trial == Some(s.current) && t.current == s.current - 1)
      && r.confirms == (r.clean && Confirms(cfg, s.cleanDwell + 1, x))
  {
    hide Charged, BackoffMs, EffectiveLevel, Classify, Damper, SnapTarget, Windowed, Cleared, Route;
    var e := Entered(s, x);
    if Emergency(cfg, x) {
      DirtyFacts(cfg, e, x);
    } else {
      BookkeptKeeps(cfg, e, x);
      var b := Bookkept(cfg, e, x);
      ClimbFacts(cfg, b, x);
    }
  }

  lemma DirtyFacts(cfg: SelectorConfig, s: Sel, x: Inputs)
    requires s.Valid(cfg) && s.note.why == Stay
    ensures var t := Dirty(cfg, s, x);
      && t.Valid(cfg) && !t.note.why.Promotes() && t.cleanDwell == 0 && t.memory == s.memory
      && t.current == (if StepsDown(s, x) then s.current - 1 else s.current)
      && t.flaps == (if StepsDown(s, x) && Charges(s, x) then Charged(cfg, s.flaps, s.current, x.snr, x.ts) else s.flaps)
  {
  }

  lemma ClimbFacts(cfg: SelectorConfig, s: Sel, x: Inputs)
    requires s.Valid(cfg) && s.note.why == Stay
    ensures var t := Climb(cfg, s, x);
      && t.Valid(cfg) && t.memory == s.memory && t.flaps == s.flaps && t.recent == s.recent
      && (t.note.why == Stay ==> t.current == s.current && t.cleanDwell == s.cleanDwell)
      && (t.note.why != Stay ==>
            && t.note.why.Promotes() && t.current == s.current + 1 && t.cleanDwell == 0 && x.snr.Some?
            && (t.note.why != SnapBack ==> s.cleanDwell >= cfg.promoteDwell)
            && Damper(cfg, s.flaps, s.recent, t.current, x.ts, x.probeRelease) == Verdict(false, t.note.release)
            && (t.note.why == SnapBack ==> t.note.snapTgt.Some? && t.note.snapTgt.value > s.current
                                           && Eligible(cfg, s.memory, x.snr.value, x.ts, t.note.snapTgt.value)))
  {
    hide Damper;
  }

  // ---- runs ---------------------------------------------------------------------------------

  // A demote from outside always asks for the next rung down.
  function LowerOne(cfg: SelectorConfig, s: Sel, at: int): Sel {
    Lowered(cfg, s, s.current as int - 1, at)
  }

  lemma LowerSummary(cfg: SelectorConfig, s: Sel, at: int)
    requires s.Valid(cfg)
    ensures var t := LowerOne(cfg, s, at);
      && t.Valid(cfg) && t.flaps == s.flaps && t.memory == s.memory && t.current <= s.current
      && (t.cleanDwell == 0 || (t.cleanDwell == s.cleanDwell && t.current == s.current))
  {
  }

  function Extend(cfg: SelectorConfig, h: Hist, o: Op): Hist
    requires h.sel.Valid(cfg)
  {
    match o
    case Choose(x) => Hist(Select(cfg, h.sel, x), h.recs + [RecOf(cfg, h.sel, x)])
    case Lower(at) => Hist(LowerOne(cfg, h.sel, at), h.recs)
  }

  function RunFrom(cfg: SelectorConfig, h: Hist, ops: seq<Op>): (r: Hist)
    requires h.sel.Valid(cfg)
    ensures r.sel.Valid(cfg)
  {
    if ops == [] then h
    else
      var g := RunFrom(cfg, h, ops[..|ops| - 1]);
      var o := ops[|ops| - 1];
      assert Extend(cfg, g, o).sel.Valid(cfg) by {
        if o.Choose? { SelectSummary(cfg, g.sel, o.x); } else { LowerSummary(cfg, g.sel, o.at); }
      }
      Extend(cfg, g, o)
  }

  function Run(cfg: SelectorConfig, ops: seq<Op>): (r: Hist)
    ensures r.sel.Valid(cfg)
  {
    RunFrom(cfg, Hist(Boot(cfg), []), ops)
  }

  // Time never runs backwards.
  ghost predicate Clocked(ops: seq<Op>) {
    forall i, j :: 0 <= i < j < |ops| ==> TsOf(ops[i]) <= TsOf(ops[j])
  }

  // ---- clean dwell -----------------------------------------------------------------------------

  /** promoteDwell consecutive clean calls at the rung of call j, ending with it. */
  ghost predicate Dwelt(cfg: SelectorConfig, recs: seq<Rec>, j: nat)
    requires j < |recs|
  {
    && cfg.promoteDwell <= j + 1
    && forall i :: j - cfg.promoteDwell < i <= j ==> 0 <= i && recs[i].clean && recs[i].rung == recs[j].rung
  }

  ghost predicate DwellTrue(h: Hist) {
    && h.sel.cleanDwell <= |h.recs|
    && forall i :: |h.recs| - h.sel.cleanDwell <= i < |h.recs| ==> h.recs[i].clean && h.recs[i].rung == h.sel.current
  }

  ghost predicate DwellNeeded(r: Rec) {
    r.confirms || r.why == KneePromote || r.why == Explore
  }

  ghost predicate AllDwelt(cfg: SelectorConfig, recs: seq<Rec>) {
    forall j :: 0 <= j < |recs| && DwellNeeded(recs[j]) ==> Dwelt(cfg, recs, j)
  }

  lemma DweltStable(cfg: SelectorConfig, recs: seq<Rec>, r: Rec, j: nat)
    requires j < |recs|
    ensures Dwelt(cfg, recs, j) ==> Dwelt(cfg, recs + [r], j)
  {
  }

  lemma DwellStep(cfg: SelectorConfig, h: Hist, o: Op)
    requires h.sel.Valid(cfg) && DwellTrue(h) && AllDwelt(cfg, h.recs)
    ensures DwellTrue(Extend(cfg, h, o)) && AllDwelt(cfg, Extend(cfg, h, o).recs)
  {
    hide Select, RecOf, Damper, Eligible, TablesMoved, Confirms, LowerOne;
    match o
    case Choose(x) =>
      SelectSummary(cfg, h.sel, x);
      ConfirmsDwell(cfg, h.sel.cleanDwell + 1, x);
      var g := Extend(cfg, h, o);
      var r, n := RecOf(cfg, h.sel, x), |h.recs|;
      forall j | 0 <= j < |g.recs| && DwellNeeded(g.recs[j])
        ensures Dwelt(cfg, g.recs, j)
      {
        if j < n { DweltStable(cfg, h.recs, r, j); }
      }
    case Lower(at) => LowerSummary(cfg, h.sel, at);
  }

  lemma ConfirmsDwell(cfg: SelectorConfig, dwell: nat, x: Inputs)
    ensures Confirms(cfg, dwell, x) ==> dwell >= cfg.promoteDwell && x.snr.Some?
  {
  }

  // ---- snap-back memory ----------------------------------------------------------------------

  // Call i confirmed rung r, and that confirmation is still live at time now.
  predicate LiveConfirm(cfg: SelectorConfig, recs: seq<Rec>, i: nat, r: nat, now: int)
    requires i < |recs|
  {
    recs[i].confirms && recs[i].rung == r && recs[i].snr.Some? && recs[i].ts + cfg.confirmTtlMs >= now
  }

  // The table holds exactly the confirmed rungs, each with its latest deadline ...
  ghost predicate DeadlinesTrue(cfg: SelectorConfig, recs: seq<Rec>, m: Memory) {
    && m.Valid()
    && (forall i :: 0 <= i < |recs| && recs[i].confirms ==>
          recs[i].rung in m.until && recs[i].ts + cfg.confirmTtlMs <= m.until[recs[i].rung])
    && (forall r :: r in m.until ==> Latest(cfg, recs, r, m.until[r]))
  }

  ghost predicate Latest(cfg: SelectorConfig, recs: seq<Rec>, r: nat, until: int) {
    exists i :: 0 <= i < |recs| && LiveConfirm(cfg, recs, i, r, until)
  }

  // The rung's entry was live when call j came.
  ghost predicate WasLive(cfg: SelectorConfig, recs: seq<Rec>, j: nat, r: nat)
    requires j < |recs|
  {
    exists k :: 0 <= k < j && LiveConfirm(cfg, recs, k, r, recs[j].ts)
  }

  // Between i and n every confirmation of r found the entry live.
  ghost predicate Unbroken(cfg: SelectorConfig, recs: seq<Rec>, i: nat, r: nat, n: nat)
    requires n <= |recs|
  {
    forall j :: i < j < n && recs[j].confirms && recs[j].rung == r ==> WasLive(cfg, recs, j, r)
  }

  /** Call i confirmed rung r, and the entry has not lapsed since, up to call n, however long
      ago that was. */
  ghost predicate InLife(cfg: SelectorConfig, recs: seq<Rec>, i: int, r: nat, n: nat)
    requires n <= |recs|
  {
    0 <= i < n && recs[i].confirms && recs[i].rung == r && recs[i].snr.Some? && Unbroken(cfg, recs, i, r, n)
  }

  // ... and, as its bar, the highest SNR confirmed in the entry's unbroken life.
  ghost predicate BarIs(cfg: SelectorConfig, recs: seq<Rec>, r: nat, bar: real) {
    && (forall i :: InLife(cfg, recs, i, r, |recs|) ==> recs[i].snr.value <= bar)
    && (exists i :: InLife(cfg, recs, i, r, |recs|) && recs[i].snr.value == bar)
  }

  ghost predicate BarsTrue(cfg: SelectorConfig, recs: seq<Rec>, m: Memory) {
    m.Valid() && forall r :: r in m.snr ==> BarIs(cfg, recs, r, m.snr[r])
  }

  /** A snap-back aims at a rung confirmed within the last confirmTtlMs, and the SNR is
      within the recovery margin of every confirmation in the entry's unbroken life. */
  ghost predicate SnapJustified(cfg: SelectorConfig, recs: seq<Rec>, j: nat)
    requires j < |recs|
  {
    var r := recs[j];
    && r.snapTgt.Some? && r.rung < r.after <= r.snapTgt.value <= cfg.maxMcs && r.snr.Some?
    && (exists i :: 0 <= i < j && LiveConfirm(cfg, recs, i, r.snapTgt.value, r.ts))
    && (forall i :: InLife(cfg, recs, i, r.snapTgt.value, j) ==> r.snr.value >= recs[i].snr.value - cfg.recoverMarginDb)
  }

  ghost predicate AllSnapsJustified(cfg: SelectorConfig, recs: seq<Rec>) {
    forall j :: 0 <= j < |recs| && recs[j].why == SnapBack ==> SnapJustified(cfg, recs, j)
  }

  ghost predicate MemoryTrue(cfg: SelectorConfig, h: Hist) {
    DeadlinesTrue(cfg, h.recs, h.sel.memory) && BarsTrue(cfg, h.recs, h.sel.memory)
  }

  lemma DeadlinesStep(cfg: SelectorConfig, recs: seq<Rec>, m: Memory, r: Rec, x: Inputs, dwell: nat, m': Memory)
    requires DeadlinesTrue(cfg, recs, m) && r.ts == x.ts && r.snr == x.snr
    requires forall i :: 0 <= i < |recs| ==> recs[i].ts <= x.ts
    requires r.confirms ==> Confirms(cfg, dwell, x)
    requires m' == if r.confirms then Confirmed(cfg, m, dwell, r.rung, x) else m
    ensures DeadlinesTrue(cfg, recs + [r], m')
  {
    var recs' := recs + [r];
    forall q | q in m'.until ensures Latest(cfg, recs', q, m'.until[q]) {
      if r.confirms && q == r.rung {
        assert LiveConfirm(cfg, recs', |recs|, q, m'.until[q]);
      } else {
        assert Latest(cfg, recs, q, m.until[q]);
        var i :| 0 <= i < |recs| && LiveConfirm(cfg, recs, i, q, m.until[q]);
        assert LiveConfirm(cfg, recs', i, q, m'.until[q]);
      }
    }
  }

  // A longer log tells the same story of its earlier calls.
  lemma UnbrokenStable(cfg: SelectorConfig, recs: seq<Rec>, x: Rec, i: nat, r: nat, n: nat)
    requires n <= |recs|
    ensures Unbroken(cfg, recs + [x], i, r, n) <==> Unbroken(cfg, recs, i, r, n)
  {
    hide WasLive;
    forall j | 0 <= j < |recs| ensures WasLive(cfg, recs + [x], j, r) <==> WasLive(cfg, recs, j, r) {
      LiveStable(cfg, recs, x, j, r);
    }
  }

  lemma LiveStable(cfg: SelectorConfig, recs: seq<Rec>, x: Rec, j: nat, r: nat)
    requires j < |recs|
    ensures WasLive(cfg, recs + [x], j, r) <==> WasLive(cfg, recs, j, r)
  {
    var recs' := recs + [x];
    forall k | 0 <= k < j ensures LiveConfirm(cfg, recs', k, r, recs'[j].ts) <==> LiveConfirm(cfg, recs, k, r, recs[j].ts) {
    }
  }

  // One more call: an entry's life goes on unless the call re-confirms the rung after a lapse.
  lemma LifeNext(cfg: SelectorConfig, recs: seq<Rec>, x: Rec, i: nat, r: nat)
    requires i < |recs|
    ensures var recs', n := recs + [x], |recs|;
      InLife(cfg, recs', i, r, n + 1) <==>
        InLife(cfg, recs, i, r, n) && (x.confirms && x.rung == r ==> WasLive(cfg, recs', n, r))
  {
    hide WasLive;
    UnbrokenStable(cfg, recs, x, i, r, |recs|);
  }

  lemma LifeStarts(cfg: SelectorConfig, recs: seq<Rec>, x: Rec)
    requires x.confirms && x.snr.Some?
    ensures InLife(cfg, recs + [x], |recs|, x.rung, |recs| + 1)
  {
  }

  // The table's deadline says whether the log holds a live confirmation.
  lemma LiveByTable(cfg: SelectorConfig, recs: seq<Rec>, m: Memory, x: Rec, r: nat)
    requires DeadlinesTrue(cfg, recs, m)
    ensures WasLive(cfg, recs + [x], |recs|, r) <==> r in m.until && m.until[r] >= x.ts
  {
    var recs', n := recs + [x], |recs|;
    if r in m.until && m.until[r] >= x.ts {
      assert Latest(cfg, recs, r, m.until[r]);
      var k :| 0 <= k < n && LiveConfirm(cfg, recs, k, r, m.until[r]);
      assert LiveConfirm(cfg, recs', k, r, recs'[n].ts);
    }
    if WasLive(cfg, recs', n, r) {
      var k :| 0 <= k < n && LiveConfirm(cfg, recs', k, r, recs'[n].ts);
      assert recs[k] == recs'[k];
    }
  }

  lemma BarsStep(cfg: SelectorConfig, recs: seq<Rec>, m: Memory, r: Rec, x: Inputs, dwell: nat, m': Memory)
    requires DeadlinesTrue(cfg, recs, m) && BarsTrue(cfg, recs, m) && r.ts == x.ts && r.snr == x.snr
    requires r.confirms ==> Confirms(cfg, dwell, x)
    requires m' == if r.confirms then Confirmed(cfg, m, dwell, r.rung, x) else m
    ensures BarsTrue(cfg, recs + [r], m')
  {
    hide BarIs, DeadlinesTrue, WasLive, InLife;
    forall q | q in m'.snr ensures BarIs(cfg, recs + [r], q, m'.snr[q]) {
      if r.confirms && q == r.rung {
        LiveByTable(cfg, recs, m, r, q);
        if q in m.until && m.until[q] >= x.ts { BarRaised(cfg, recs, r, m.snr[q]); } else { BarRebased(cfg, recs, r); }
      } else {
        BarKept(cfg, recs, r, q, m.snr[q]);
      }
    }
  }

  lemma BarKept(cfg: SelectorConfig, recs: seq<Rec>, x: Rec, r: nat, bar: real)
    requires BarIs(cfg, recs, r, bar) && !(x.confirms && x.rung == r)
    ensures BarIs(cfg, recs + [x], r, bar)
  {
    hide Unbroken, WasLive;
    var recs', n := recs + [x], |recs|;
    var m := |recs'|;
    forall i | 0 <= i < n ensures InLife(cfg, recs', i, r, m) <==> InLife(cfg, recs, i, r, n) {
      LifeNext(cfg, recs, x, i, r);
    }
    var i :| InLife(cfg, recs, i, r, n) && recs[i].snr.value == bar;
    assert InLife(cfg, recs', i, r, m);
  }

  lemma BarRaised(cfg: SelectorConfig, recs: seq<Rec>, x: Rec, bar: real)
    requires BarIs(cfg, recs, x.rung, bar) && x.confirms && x.snr.Some? && WasLive(cfg, recs + [x], |recs|, x.rung)
    ensures BarIs(cfg, recs + [x], x.rung, if bar > x.snr.value then bar else x.snr.value)
  {
    hide Unbroken, WasLive;
    var recs', n, r := recs + [x], |recs|, x.rung;
    var m := |recs'|;
    LifeStarts(cfg, recs, x);
    forall i | 0 <= i < n ensures InLife(cfg, recs', i, r, m) <==> InLife(cfg, recs, i, r, n) {
      LifeNext(cfg, recs, x, i, r);
    }
    var i :| InLife(cfg, recs, i, r, n) && recs[i].snr.value == bar;
    assert InLife(cfg, recs', i, r, m) && InLife(cfg, recs', n, r, m);
  }

  lemma BarRebased(cfg: SelectorConfig, recs: seq<Rec>, x: Rec)
    requires x.confirms && x.snr.Some? && !WasLive(cfg, recs + [x], |recs|, x.rung)
    ensures BarIs(cfg, recs + [x], x.rung, x.snr.value)
  {
    hide Unbroken, WasLive;
    var recs', n, r := recs + [x], |recs|, x.rung;
    var m := |recs'|;
    LifeStarts(cfg, recs, x);
    forall i | 0 <= i < n ensures !InLife(cfg, recs', i, r, m) {
      LifeNext(cfg, recs, x, i, r);
    }
  }

  lemma SnapNow(cfg: SelectorConfig, recs: seq<Rec>, m: Memory, r: Rec)
    requires DeadlinesTrue(cfg, recs, m) && BarsTrue(cfg, recs, m)
    requires r.snr.Some? && r.snapTgt.Some? && r.rung + 1 == r.after && r.rung < r.snapTgt.value
    requires Eligible(cfg, m, r.snr.value, r.ts, r.snapTgt.value)
    ensures SnapJustified(cfg, recs + [r], |recs|)
  {
    hide Unbroken, DeadlinesTrue;
    var recs', t, n := recs + [r], r.snapTgt.value, |recs|;
    LiveByTable(cfg, recs, m, r, t);
    assert BarIs(cfg, recs, t, m.snr[t]);
    forall i | InLife(cfg, recs', i, t, n) ensures r.snr.value >= recs'[i].snr.value - cfg.recoverMarginDb {
      UnbrokenStable(cfg, recs, r, i, t, n);
      assert InLife(cfg, recs, i, t, n);
    }
  }

  lemma SnapStable(cfg: SelectorConfig, recs: seq<Rec>, r: Rec, j: nat)
    requires j < |recs| && SnapJustified(cfg, recs, j)
    ensures SnapJustified(cfg, recs + [r], j)
  {
    hide Unbroken;
    var recs' := recs + [r];
    var t := recs[j].snapTgt.value;
    assert WasLive(cfg, recs, j, t);
    LiveStable(cfg, recs, r, j, t);
    forall i | InLife(cfg, recs', i, t, j) ensures recs'[j].snr.value >= recs'[i].snr.value - cfg.recoverMarginDb {
      UnbrokenStable(cfg, recs, r, i, t, j);
      assert InLife(cfg, recs, i, t, j);
    }
  }

  lemma EligibleBefore(cfg: SelectorConfig, m: Memory, dwell: nat, cur: nat, x: Inputs, r: nat)
    requires m.Valid() && x.snr.Some? && r != cur
    ensures var m' := Confirmed(cfg, m, dwell, cur, x); m'.Valid() && Eligible(cfg, m', x.snr.value, x.ts, r) == Eligible(cfg, m, x.snr.value, x.ts, r)
  {
  }

  lemma MemoryMoved(cfg: SelectorConfig, s: Sel, x: Inputs)
    requires s.Valid(cfg)
    ensures var t, r := Select(cfg, s, x), RecOf(cfg, s, x);
      t.memory == if r.confirms then Confirmed(cfg, s.memory, s.cleanDwell + 1, r.rung, x) else s.memory
  {
    SelectSummary(cfg, s, x);
    hide Select, RecOf, Kept, Climbed;
  }

  lemma MemoryStep(cfg: SelectorConfig, h: Hist, o: Op)
    requires h.sel.Valid(cfg) && MemoryTrue(cfg, h)
    requires forall i :: 0 <= i < |h.recs| ==> h.recs[i].ts <= TsOf(o)
    requires AllSnapsJustified(cfg, h.recs)
    ensures MemoryTrue(cfg, Extend(cfg, h, o)) && AllSnapsJustified(cfg, Extend(cfg, h, o).recs)
  {
    hide Select, RecOf, Damper, Eligible, TablesMoved, Confirms, LowerOne, DeadlinesTrue, BarsTrue, SnapJustified, Confirmed;
    match o
    case Choose(x) =>
      var r, m, m' := RecOf(cfg, h.sel, x), h.sel.memory, Select(cfg, h.sel, x).memory;
      SelectSummary(cfg, h.sel, x);
      MemoryMoved(cfg, h.sel, x);
      DeadlinesStep(cfg, h.recs, m, r, x, h.sel.cleanDwell + 1, m');
      BarsStep(cfg, h.recs, m, r, x, h.sel.cleanDwell + 1, m');
      if r.why == SnapBack {
        EligibleBefore(cfg, m, h.sel.cleanDwell + 1, r.rung, x, r.snapTgt.value);
        SnapNow(cfg, h.recs, m, r);
      }
      forall j | 0 <= j < |h.recs| && h.recs[j].why == SnapBack
        ensures SnapJustified(cfg, h.recs + [r], j)
      {
        SnapStable(cfg, h.recs, r, j);
      }
    case Lower(at) => LowerSummary(cfg, h.sel, at);
  }

  // ---- flap damper -----------------------------------------------------------------------------

  predicate ChargedAt(recs: seq<Rec>, i: nat, rung: nat)
    requires i < |recs|
  {
    recs[i].backoff.Some? && recs[i].rung == rung
  }

  // Call m promoted into the rung.
  predicate Enters(recs: seq<Rec>, m: nat, rung: nat)
    requires m < |recs|
  {
    recs[m].why.Promotes() && recs[m].after == rung
  }

  // Between i and n some promote into the rung got past the damper early.
  ghost predicate Early(recs: seq<Rec>, i: nat, n: nat, rung: nat)
    requires n <= |recs|
  {
    exists m :: i < m < n && Enters(recs, m, rung) && recs[m].release in {RawMin, Probe}
  }

  // Between i and n some promote into the rung came after the window had run out.
  ghost predicate Served(recs: seq<Rec>, i: nat, n: nat, rung: nat)
    requires i < n <= |recs| && recs[i].backoff.Some?
  {
    exists m :: i < m < n && Enters(recs, m, rung) && recs[m].ts >= recs[i].ts + recs[i].backoff.value
  }

  // The last charge of a rung is still being served, or has been got past.
  ghost predicate Pending(h: Hist, i: nat)
    requires i < |h.recs| && h.recs[i].backoff.Some?
  {
    var rung, until := h.recs[i].rung, h.recs[i].ts + h.recs[i].backoff.value;
    || Early(h.recs, i, |h.recs|, rung)
    || Served(h.recs, i, |h.recs|, rung)
    || (h.sel.current < rung && rung in h.sel.flaps.until && h.sel.flaps.until[rung] == until)
  }

  ghost predicate LastCharge(recs: seq<Rec>, i: nat, n: nat)
    requires i < n <= |recs|
  {
    recs[i].backoff.Some? && forall j :: i < j < n ==> !ChargedAt(recs, j, recs[i].rung)
  }

  ghost predicate DamperTrue(h: Hist) {
    forall i :: 0 <= i < |h.recs| && LastCharge(h.recs, i, |h.recs|) ==> Pending(h, i)
  }

  /** Two consecutive charges of one rung are the first one's backoff apart, or the
      rung was re-entered through an early release in between. */
  ghost predicate Spaced(recs: seq<Rec>, i: nat, j: nat)
    requires i < j < |recs| && recs[i].backoff.Some?
  {
    recs[j].ts >= recs[i].ts + recs[i].backoff.value || Early(recs, i, j, recs[i].rung)
  }

  ghost predicate AllSpaced(recs: seq<Rec>) {
    forall i, j :: 0 <= i < j < |recs| && LastCharge(recs, i, j) && ChargedAt(recs, j, recs[i].rung) ==> Spaced(recs, i, j)
  }

  lemma EarlyStable(recs: seq<Rec>, r: Rec, i: nat, n: nat, rung: nat)
    requires n <= |recs|
    ensures Early(recs, i, n, rung) ==> Early(recs + [r], i, n, rung) && Early(recs + [r], i, |recs| + 1, rung)
  {
    if Early(recs, i, n, rung) {
      var m :| i < m < n && Enters(recs, m, rung) && recs[m].release in {RawMin, Probe};
      assert Enters(recs + [r], m, rung);
    }
  }

  lemma ServedStable(recs: seq<Rec>, r: Rec, i: nat, rung: nat)
    requires i < |recs| && recs[i].backoff.Some?
    ensures Served(recs, i, |recs|, rung) ==> Served(recs + [r], i, |recs| + 1, rung)
  {
    if Served(recs, i, |recs|, rung) {
      var m :| i < m < |recs| && Enters(recs, m, rung) && recs[m].ts >= recs[i].ts + recs[i].backoff.value;
      assert Enters(recs + [r], m, rung);
    }
  }

  lemma LastChargeStable(recs: seq<Rec>, r: Rec, i: nat, n: nat)
    requires i < n <= |recs|
    ensures LastCharge(recs + [r], i, n) == LastCharge(recs, i, n)
    ensures LastCharge(recs + [r], i, |recs| + 1) ==> LastCharge(recs, i, |recs|) && !(r.backoff.Some? && r.rung == recs[i].rung)
  {
    var recs' := recs + [r];
    assert forall j :: 0 <= j < |recs| ==> recs'[j] == recs[j];
    if LastCharge(recs', i, |recs| + 1) {
      assert !ChargedAt(recs', |recs|, recs'[i].rung);
      forall j | i < j < |recs| ensures !ChargedAt(recs, j, recs[i].rung) {
        assert !ChargedAt(recs', j, recs'[i].rung);
      }
    }
    if LastCharge(recs, i, n) {
      forall j | i < j < n ensures !ChargedAt(recs', j, recs'[i].rung) {
        assert !ChargedAt(recs, j, recs[i].rung);
      }
    }
    if LastCharge(recs', i, n) {
      forall j | i < j < n ensures !ChargedAt(recs, j, recs[i].rung) {
        assert !ChargedAt(recs', j, recs'[i].rung);
      }
    }
  }

  // The suppression entries of rungs above the current one only change by a charge.
  lemma UntilKept(cfg: SelectorConfig, s: Sel, x: Inputs, rung: nat)
    requires s.Valid(cfg) && s.current < rung && rung in s.flaps.until
    ensures var t := Select(cfg, s, x); rung in t.flaps.until && t.flaps.until[rung] == s.flaps.until[rung]
  {
    SelectSummary(cfg, s, x);
    hide Select, RecOf, Kept, Climbed, BackoffMs, EffectiveLevel;
  }

  lemma DamperOpens(cfg: SelectorConfig, t: Table, recent: seq<real>, rung: nat, ts: int, pr: bool)
    requires rung in t.until && !Damper(cfg, t, recent, rung, ts, pr).suppressed
    ensures ts >= t.until[rung] || Damper(cfg, t, recent, rung, ts, pr).release in {RawMin, Probe}
  {
  }

  lemma PendingStep(cfg: SelectorConfig, h: Hist, x: Inputs, i: nat)
    requires h.sel.Valid(cfg) && i < |h.recs| && h.recs[i].backoff.Some? && Pending(h, i)
    ensures Pending(Extend(cfg, h, Choose(x)), i)
  {
    hide Select, RecOf, Damper, Eligible, TablesMoved, Early, Served;
    var g := Extend(cfg, h, Choose(x));
    var r, n, rung := g.recs[|h.recs|], |h.recs|, h.recs[i].rung;
    EarlyStable(h.recs, r, i, n, rung);
    ServedStable(h.recs, r, i, rung);
    if !Early(h.recs, i, n, rung) && !Served(h.recs, i, n, rung) {
      SelectSummary(cfg, h.sel, x);
      UntilKept(cfg, h.sel, x, rung);
      if g.sel.current == rung {
        assert Enters(g.recs, n, rung);
        DamperOpens(cfg, g.sel.flaps, g.sel.recent, rung, x.ts, x.probeRelease);
        EntryCounts(g.recs, i, rung);
      }
    }
  }

  lemma EntryCounts(recs: seq<Rec>, i: nat, rung: nat)
    requires i < |recs| - 1 && recs[i].backoff.Some? && Enters(recs, |recs| - 1, rung)
    ensures recs[|recs| - 1].release in {RawMin, Probe} ==> Early(recs, i, |recs|, rung)
    ensures recs[|recs| - 1].ts >= recs[i].ts + recs[i].backoff.value ==> Served(recs, i, |recs|, rung)
  {
  }

  // A charge sets the window it reports.
  lemma ChargeSets(cfg: SelectorConfig, s: Sel, x: Inputs)
    requires s.Valid(cfg) && RecOf(cfg, s, x).backoff.Some?
    ensures var t, r := Select(cfg, s, x), RecOf(cfg, s, x);
      t.current < s.current && s.current in t.flaps.until && t.flaps.until[s.current] == x.ts + r.backoff.value
  {
  }

  lemma DamperStep(cfg: SelectorConfig, h: Hist, x: Inputs)
    requires h.sel.Valid(cfg) && DamperTrue(h)
    ensures DamperTrue(Extend(cfg, h, Choose(x)))
  {
    hide Select, RecOf, Pending, LastCharge;
    var g := Extend(cfg, h, Choose(x));
    var r, n := g.recs[|h.recs|], |h.recs|;
    forall i | 0 <= i < |g.recs| && LastCharge(g.recs, i, |g.recs|)
      ensures g.recs[i].backoff.Some? && Pending(g, i)
    {
      ChargeHasBackoff(g.recs, i);
      if i < n {
        LastChargeStable(h.recs, r, i, n);
        assert g.recs[i] == h.recs[i];
        ChargeHasBackoff(h.recs, i);
        PendingStep(cfg, h, x, i);
      } else {
        ChargeSets(cfg, h.sel, x);
        NewChargePending(cfg, h, x);
      }
    }
  }

  lemma NewChargePending(cfg: SelectorConfig, h: Hist, x: Inputs)
    requires h.sel.Valid(cfg) && RecOf(cfg, h.sel, x).backoff.Some?
    ensures Pending(Extend(cfg, h, Choose(x)), |h.recs|)
  {
  }

  lemma ChargeHasBackoff(recs: seq<Rec>, i: nat)
    requires i < |recs| && LastCharge(recs, i, |recs|)
    ensures recs[i].backoff.Some?
  {
  }

  // A new charge finds the rung re-entered, so its predecessor's window is over.
  lemma SpacedStep(cfg: SelectorConfig, h: Hist, x: Inputs)
    requires h.sel.Valid(cfg) && DamperTrue(h) && AllSpaced(h.recs)
    requires forall i :: 0 <= i < |h.recs| ==> h.recs[i].ts <= x.ts
    ensures AllSpaced(Extend(cfg, h, Choose(x)).recs)
  {
    hide Select, RecOf, Early, Served, LastCharge, DamperTrue;
    var g := Extend(cfg, h, Choose(x));
    var r, n := g.recs[|h.recs|], |h.recs|;
    SelectSummary(cfg, h.sel, x);
    assert forall i :: 0 <= i < n ==> g.recs[i] == h.recs[i];
    forall i, j | 0 <= i < j < |g.recs| && LastCharge(g.recs, i, j) && ChargedAt(g.recs, j, g.recs[i].rung)
      ensures g.recs[i].backoff.Some? && Spaced(g.recs, i, j)
    {
      LastChargeStable(h.recs, r, i, j);
      LastHasBackoff(h.recs, i, j);
      if j < n {
        assert ChargedAt(h.recs, j, h.recs[i].rung);
        assert Spaced(h.recs, i, j);
        EarlyStable(h.recs, r, i, j, h.recs[i].rung);
      } else {
        DamperAt(h, i);
        EarlyStable(h.recs, r, i, n, h.recs[i].rung);
        ServedBy(h.recs, i, h.recs[i].rung, x.ts);
      }
    }
  }

  lemma LastHasBackoff(recs: seq<Rec>, i: nat, n: nat)
    requires i < n <= |recs| && LastCharge(recs, i, n)
    ensures recs[i].backoff.Some?
  {
  }

  lemma DamperAt(h: Hist, i: nat)
    requires DamperTrue(h) && i < |h.recs| && LastCharge(h.recs, i, |h.recs|)
    ensures h.recs[i].backoff.Some? && Pending(h, i)
  {
  }

  lemma ServedBy(recs: seq<Rec>, i: nat, rung: nat, now: int)
    requires i < |recs| && recs[i].backoff.Some? && forall k :: 0 <= k < |recs| ==> recs[k].ts <= now
    ensures Served(recs, i, |recs|, rung) ==> now >= recs[i].ts + recs[i].backoff.value
  {
  }

  // ---- every run -----------------------------------------------------------------------------------

  ghost predicate Sound(cfg: SelectorConfig, h: Hist, now: int) {
    && h.sel.Valid(cfg) && (forall i :: 0 <= i < |h.recs| ==> h.recs[i].ts <= now)
    && DwellTrue(h) && AllDwelt(cfg, h.recs)
    && MemoryTrue(cfg, h) && AllSnapsJustified(cfg, h.recs)
    && DamperTrue(h) && AllSpaced(h.recs)
  }

  lemma BootSound(cfg: SelectorConfig, now: int)
    ensures Sound(cfg, Hist(Boot(cfg), []), now)
  {
  }

  lemma SoundStep(cfg: SelectorConfig, h: Hist, o: Op, now: int)
    requires Sound(cfg, h, now) && now <= TsOf(o)
    ensures Sound(cfg, Extend(cfg, h, o), TsOf(o))
  {
    hide Select, RecOf, DwellTrue, AllDwelt, MemoryTrue, AllSnapsJustified, DamperTrue, AllSpaced, LowerOne, TablesMoved, Climbed, Kept;
    DwellStep(cfg, h, o);
    MemoryStep(cfg, h, o);
    match o
    case Choose(x) =>
      SelectSummary(cfg, h.sel, x);
      DamperStep(cfg, h, x);
      SpacedStep(cfg, h, x);
    case Lower(at) =>
      LowerSummary(cfg, h.sel, at);
      LowerDamper(cfg, h, at);
  }

  lemma LowerDamper(cfg: SelectorConfig, h: Hist, at: int)
    requires h.sel.Valid(cfg) && DamperTrue(h)
    ensures DamperTrue(Extend(cfg, h, Lower(at)))
  {
  }

  /** In every run: knee and explore promotes, and every confirmation, follow
      promoteDwell consecutive clean calls at their rung; the snap-back bar of a rung is the
      highest SNR confirmed in its entry's unbroken life, and snap-backs come up to it; charges of one rung are spaced by the damper; and the rung on
      probation is the current one. */
  lemma {:induction false} RunSound(cfg: SelectorConfig, ops: seq<Op>, now: int)
    requires Clocked(ops) && (forall i :: 0 <= i < |ops| ==> TsOf(ops[i]) <= now)
    ensures Sound(cfg, Run(cfg, ops), if ops == [] then now else TsOf(ops[|ops| - 1]))
  {
    hide Extend, Sound;
    if ops == [] {
      BootSound(cfg, now);
    } else {
      var n := |ops| - 1;
      var last := TsOf(ops[n]);
      RunSound(cfg, ops[..n], last);
      SoundStep(cfg, Run(cfg, ops[..n]), ops[n], if n == 0 then last else TsOf(ops[n - 1]));
    }
  }

  /** Each promote in a run, read off the log. */
  lemma PromotesJustified(cfg: SelectorConfig, ops: seq<Op>, j: nat)
    requires Clocked(ops) && j < |Run(cfg, ops).recs| && Run(cfg, ops).recs[j].why.Promotes()
    ensures var recs := Run(cfg, ops).recs;
      if recs[j].why == SnapBack
      then SnapJustified(cfg, recs, j) && forall i :: 0 <= i < j && recs[i].confirms ==> Dwelt(cfg, recs, i)
      else Dwelt(cfg, recs, j)
  {
    hide Run, SnapJustified, Dwelt;
    RunSound(cfg, ops, if ops == [] then 0 else TsOf(ops[|ops| - 1]));
  }

  // The entry of rung r is live when the operation comes.
  predicate EntryLive(s: Sel, r: nat, o: Op) { r in s.memory.until && s.memory.until[r] >= TsOf(o) }

  lemma StepBar(cfg: SelectorConfig, h: Hist, o: Op, r: nat)
    requires h.sel.Valid(cfg) && EntryLive(h.sel, r, o)
    ensures var m, m' := h.sel.memory, Extend(cfg, h, o).sel.memory; r in m.snr && r in m'.snr && m.snr[r] <= m'.snr[r]
  {
    hide Select, RecOf, LowerOne, Kept, Climbed, TablesMoved;
    match o
    case Choose(x) =>
      SelectSummary(cfg, h.sel, x);
      MemoryMoved(cfg, h.sel, x);
    case Lower(at) => LowerSummary(cfg, h.sel, at);
  }

  /** While every operation finds a rung's entry live, its bar never falls. */
  lemma {:induction false} BarNeverFalls(cfg: SelectorConfig, ops: seq<Op>, i: nat, r: nat)
    requires i <= |ops| && r in Run(cfg, ops[..i]).sel.memory.snr
    requires forall k :: i <= k < |ops| ==> EntryLive(Run(cfg, ops[..k]).sel, r, ops[k])
    ensures var a, b := Run(cfg, ops[..i]).sel.memory, Run(cfg, ops).sel.memory; r in b.snr && a.snr[r] <= b.snr[r]
  {
    hide Extend, EntryLive, Sel.Valid;
    if i == |ops| {
      assert ops[..i] == ops;
    } else {
      var n := |ops| - 1;
      forall k | i <= k < n ensures EntryLive(Run(cfg, ops[..n][..k]).sel, r, ops[..n][k]) {
        assert ops[..n][..k] == ops[..k];
        assert EntryLive(Run(cfg, ops[..k]).sel, r, ops[k]);
      }
      assert ops[..n][..i] == ops[..i];
      BarNeverFalls(cfg, ops[..n], i, r);
      assert EntryLive(Run(cfg, ops[..n]).sel, r, ops[n]);
      StepBar(cfg, Run(cfg, ops[..n]), ops[n], r);
    }
  }

  lemma ChargesSpaced(cfg: SelectorConfig, ops: seq<Op>, i: nat, j: nat)
    requires Clocked(ops) && i < j < |Run(cfg, ops).recs|
    requires LastCharge(Run(cfg, ops).recs, i, j) && ChargedAt(Run(cfg, ops).recs, j, Run(cfg, ops).recs[i].rung)
    ensures Spaced(Run(cfg, ops).recs, i, j)
  {
    hide Run, Spaced, LastCharge;
    RunSound(cfg, ops, if ops == [] then 0 else TsOf(ops[|ops| - 1]));
  }
}
