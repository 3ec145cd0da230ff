/** When a call of the selector moves the rung, and what it leaves behind, in the inputs and
    the state before the call. */
module SelectorMoves {
  import opened Common
  import opened Selector
  import opened SelectorHistory

  // ---- down --------------------------------------------------------------------------------

  /** A call lowers the rung exactly when it may and loss, FEC pressure or starvation says so;
      it never moves more than one rung. */
  lemma DemotesExactly(cfg: SelectorConfig, s: Sel, x: Inputs)
    requires s.Valid(cfg)
    ensures var t := Select(cfg, s, x);
      && (t.current == s.current - 1 <==>
            s.current > 0 && x.canDemote && (x.lossDemote || x.fecPressure >= cfg.emergencyFec || x.starved))
      && s.current as int - 1 <= t.current <= s.current + 1
  {
    hide Charged, Damper, SnapTarget, Cleared, Confirmed, Windowed, DemoteNote, Route, MayClimb;
    BookkeptKeeps(cfg, Entered(s, x), x);
  }

  // ---- up ----------------------------------------------------------------------------------

  // The raw SNR windows the damper looks at: the last twenty.
  function LastWindows(s: Sel, x: Inputs): seq<real> {
    LastTwenty(if x.snrW.Some? then s.recent + [x.snrW.value] else s.recent)
  }

  function LastTwenty(w: seq<real>): seq<real> {
    if |w| > 20 then w[|w| - 20..] else w
  }

  /** Nothing holds the next rung down: its window is over, its probe has been clean for long
      enough, or twenty windows all clear the SNR of its last flap by the release margin. */
  ghost predicate Open(cfg: SelectorConfig, s: Sel, x: Inputs) {
    var target := s.current + 1;
    || x.ts >= (if target in s.flaps.until then s.flaps.until[target] else 0)
    || x.probeRelease
    || (&& target in s.flaps.snr && |LastWindows(s, x)| == 20
        && forall i :: 0 <= i < 20 ==> LastWindows(s, x)[i] >= s.flaps.snr[target] + cfg.flapReleaseDb)
  }

  // Some higher rung was confirmed recently and its SNR is nearly back.
  ghost predicate Recovered(cfg: SelectorConfig, s: Sel, x: Inputs)
    requires s.memory.Valid() && x.snr.Some?
  {
    exists r: nat :: s.current < r <= cfg.maxMcs && r in s.memory.until && s.memory.until[r] >= x.ts
                     && x.snr.value >= s.memory.snr[r] - cfg.recoverMarginDb
  }

  ghost predicate Snaps(cfg: SelectorConfig, s: Sel, x: Inputs)
    requires s.memory.Valid() && x.snr.Some?
  {
    Recovered(cfg, s, x) && (x.slope.Some? ==> x.slope.value >= 0.0) && !x.targetBlocked
  }

  // Held, dwelt, not falling too fast, and the knee, if it is known, leaves headroom.
  ghost predicate Ripe(cfg: SelectorConfig, s: Sel, x: Inputs) {
    && x.ts >= s.lastChange + cfg.holdMs && s.cleanDwell + 1 >= cfg.promoteDwell
    && (if x.slope.Some? then x.slope.value else 0.0) >= cfg.promoteSlopeMin
    && !(x.targetConfident && x.targetBlocked)
  }

  ghost predicate Rises(cfg: SelectorConfig, s: Sel, x: Inputs)
    requires s.memory.Valid()
  {
    && !x.lossDemote && x.fecPressure < cfg.emergencyFec && !x.starved
    && x.snr.Some? && s.current < cfg.maxMcs && x.ts >= s.lastChange + cfg.minBetweenMs && !x.probeVeto
    && Open(cfg, s, x) && (Snaps(cfg, s, x) || Ripe(cfg, s, x))
  }

  lemma WindowedLast(s: Sel, x: Inputs)
    requires |s.recent| <= 20
    ensures Windowed(s.recent, x.snrW) == LastWindows(s, x)
  {
  }

  lemma DamperOpen(cfg: SelectorConfig, s: Sel, b: Sel, x: Inputs)
    requires b.current == s.current && b.recent == LastWindows(s, x) && b.flaps == Cleared(cfg, s.flaps, s.cleanDwell + 1, s.current)
    ensures !Damper(cfg, b.flaps, b.recent, s.current + 1, x.ts, x.probeRelease).suppressed <==> Open(cfg, s, x)
  {
    hide LastWindows;
    if s.current + 1 in s.flaps.snr { EachAbove(b.recent, s.flaps.snr[s.current + 1] + cfg.flapReleaseDb); }
  }

  lemma EachAbove(w: seq<real>, bar: real)
    ensures (forall v :: v in w ==> v >= bar) <==> (forall i :: 0 <= i < |w| ==> w[i] >= bar)
  {
    if forall v :: v in w ==> v >= bar {
      forall i | 0 <= i < |w| ensures w[i] >= bar { assert w[i] in w; }
    }
  }

  // A higher rung's entry is untouched by the confirmation of this one.
  lemma SnapRecovered(cfg: SelectorConfig, s: Sel, m: Memory, x: Inputs)
    requires s.memory.Valid() && x.snr.Some? && m == Confirmed(cfg, s.memory, s.cleanDwell + 1, s.current, x)
    ensures m.Valid()
    ensures var sb := SnapTarget(cfg, m, x.snr.value, x.ts, cfg.maxMcs);
      sb.Some? && sb.value > s.current <==> Recovered(cfg, s, x)
  {
    var sb := SnapTarget(cfg, m, x.snr.value, x.ts, cfg.maxMcs);
    if Recovered(cfg, s, x) {
      var r: nat :| s.current < r <= cfg.maxMcs && r in s.memory.until && s.memory.until[r] >= x.ts
                    && x.snr.value >= s.memory.snr[r] - cfg.recoverMarginDb;
      assert Eligible(cfg, m, x.snr.value, x.ts, r);
    }
  }

  /** A call raises the rung exactly when it is clean and nothing vetoes it, the damper is open
      and one of the routes is; the route taken is reported. */
  lemma PromotesExactly(cfg: SelectorConfig, s: Sel, x: Inputs)
    requires s.Valid(cfg) && |s.recent| <= 20
    ensures var t := Select(cfg, s, x);
      && (t.current == s.current + 1 <==> Rises(cfg, s, x))
      && (Rises(cfg, s, x) ==>
            t.note.why == if Snaps(cfg, s, x) then SnapBack else if x.targetConfident then KneePromote else Explore)
  {
    hide Charged, Damper, SnapTarget, Cleared, Confirmed, Windowed, LastWindows, DemoteNote, Open, Recovered;
    var e := Entered(s, x);
    BookkeptKeeps(cfg, e, x);
    WindowedLast(s, x);
    var b := Bookkept(cfg, e, x);
    DamperOpen(cfg, s, b, x);
    if x.snr.Some? {
      SnapRecovered(cfg, s, b.memory, x);
    }
  }

  // ---- what a call leaves -------------------------------------------------------------------

  /** The clock of the last change, the dwell and the probation after a call. */
  lemma CallLeaves(cfg: SelectorConfig, s: Sel, x: Inputs)
    requires s.Valid(cfg)
    ensures var t := Select(cfg, s, x);
      var dirty := x.lossDemote || x.fecPressure >= cfg.emergencyFec || x.starved;
      && t.lastChange == (if t.current != s.current then x.ts else s.lastChange)
      && t.cleanDwell == (if dirty || t.current != s.current then 0 else s.cleanDwell + 1)
      && t.trial == (if t.current > s.current then Some(t.current)
                     else if t.current < s.current || (!dirty && x.ts >= s.trialUntil) then None else s.trial)
      && t.trialUntil == (if t.current > s.current then x.ts + cfg.trialWindowMs else s.trialUntil)
  {
    hide Charged, Damper, SnapTarget, Cleared, Confirmed, Windowed, DemoteNote, Route, MayClimb;
    BookkeptKeeps(cfg, Entered(s, x), x);
  }

  // The rung is on probation when the call comes.
  predicate Trying(s: Sel, x: Inputs) { s.trial.Some? && x.ts < s.trialUntil }

  // The raw SNR has fallen away from the smoothed one.
  predicate Collapsed(cfg: SelectorConfig, x: Inputs) {
    x.snr.Some? && x.snrW.Some? && x.snr.value - x.snrW.value >= cfg.collapseDb
  }

  /** What a call teaches: a demote on loss reports the raw SNR when it collapsed, else the
      smoothed SNR when the rung was on probation, else nothing; no other call reports. */
  lemma FailExactly(cfg: SelectorConfig, s: Sel, x: Inputs)
    requires s.Valid(cfg)
    ensures Select(cfg, s, x).note.lastFail ==
      if !(x.lossDemote && x.canDemote && s.current > 0) then None
      else if Collapsed(cfg, x) then Some(Fail(s.current, Fade, x.snrW.value))
      else if Trying(s, x) && x.snr.Some? then Some(Fail(s.current, Flap, x.snr.value))
      else None
  {
    hide Charged, Damper, SnapTarget, Cleared, Confirmed, Windowed, Route, MayClimb;
    BookkeptKeeps(cfg, Entered(s, x), x);
  }

  /** The change a call reports. */
  lemma ReportsExactly(cfg: SelectorConfig, s: Sel, x: Inputs)
    requires s.Valid(cfg) && |s.recent| <= 20
    ensures var t := Select(cfg, s, x);
      t.note.why ==
        if t.current > s.current then (if Snaps(cfg, s, x) then SnapBack else if x.targetConfident then KneePromote else Explore)
        else if t.current == s.current then Stay
        else if !x.lossDemote then EmergencyDemote
        else LossDemote(if Collapsed(cfg, x) then Fade else if Trying(s, x) then Flap else Burst)
  {
    hide Charged, Damper, SnapTarget, Cleared, Confirmed, Windowed, Route, MayClimb, Snaps, Open;
    PromotesExactly(cfg, s, x);
    BookkeptKeeps(cfg, Entered(s, x), x);
  }

  /** What a call reports of the damper: a clean call below the top rung with an SNR looks at
      the next rung, any other clean call finds it free, a dirty one leaves the report. */
  lemma SuppressedExactly(cfg: SelectorConfig, s: Sel, x: Inputs)
    requires s.Valid(cfg) && |s.recent| <= 20
    ensures var dirty := x.lossDemote || x.fecPressure >= cfg.emergencyFec || x.starved;
      Select(cfg, s, x).note.suppressed ==
        if dirty then s.note.suppressed else x.snr.Some? && s.current < cfg.maxMcs && !Open(cfg, s, x)
  {
    hide Charged, Damper, SnapTarget, Cleared, Confirmed, Windowed, LastWindows, Open, Route, MayClimb, Classify;
    var e := Entered(s, x);
    BookkeptKeeps(cfg, e, x);
    WindowedLast(s, x);
    DamperOpen(cfg, s, Bookkept(cfg, e, x), x);
  }

  /** A clean call with an SNR, promoteDwell clean calls in, confirms the rung: its entry is good
      for confirmTtlMs more, at the higher of the two SNRs if it was live and at this one if not. */
  lemma MemoryLeaves(cfg: SelectorConfig, s: Sel, x: Inputs, r: nat)
    requires s.Valid(cfg)
    ensures var dirty := x.lossDemote || x.fecPressure >= cfg.emergencyFec || x.starved;
      var m, m' := s.memory, Select(cfg, s, x).memory;
      var live := (if r in m.until then m.until[r] else 0) >= x.ts;
      if r == s.current && !dirty && x.snr.Some? && s.cleanDwell + 1 >= cfg.promoteDwell
      then && Get(m'.until, r) == Some(x.ts + cfg.confirmTtlMs)
           && Get(m'.snr, r) == if live && r in m.snr && m.snr[r] > x.snr.value then Some(m.snr[r]) else x.snr
      else Get(m'.until, r) == Get(m.until, r) && Get(m'.snr, r) == Get(m.snr, r)
  {
    hide Charged, Damper, SnapTarget, Cleared, Windowed, Route, MayClimb, DemoteNote;
    BookkeptKeeps(cfg, Entered(s, x), x);
  }

  // ---- the damper -----------------------------------------------------------------------------

  function Get<T>(m: map<nat, T>, r: nat): Option<T> { if r in m then Some(m[r]) else None }

  // A rung's level, window, SNR and time of its last flap.
  datatype Entry = Entry(level: Option<nat>, until: Option<int>, snr: Option<real>, last: Option<int>)

  function EntryOf(t: Table, r: nat): Entry { Entry(Get(t.level, r), Get(t.until, r), Get(t.snr, r), Get(t.last, r)) }

  /** A probation loss that lowers the rung charges it one level above what is left of the old
      one; a long enough clean dwell clears the current rung; nothing else touches the damper. */
  lemma DamperLeaves(cfg: SelectorConfig, s: Sel, x: Inputs, r: nat)
    requires s.Valid(cfg)
    ensures var dirty := x.lossDemote || x.fecPressure >= cfg.emergencyFec || x.starved;
      var was, now := EntryOf(s.flaps, r), EntryOf(Select(cfg, s, x).flaps, r);
      var level := EffectiveLevel(cfg, s.flaps, r, x.ts) + 1;
      now ==
        if r != s.current then was
        else if x.lossDemote && x.canDemote && s.current > 0 && Trying(s, x)
        then Entry(Some(level), Some(x.ts + BackoffMs(cfg, level)), if x.snr.Some? then x.snr else was.snr, Some(x.ts))
        else if !dirty && s.cleanDwell + 1 >= cfg.flapResetTicks then Entry(None, None, None, None)
        else was
  {
    hide BackoffMs, EffectiveLevel, Damper, SnapTarget, Confirmed, Windowed, Route, MayClimb, DemoteNote;
    BookkeptKeeps(cfg, Entered(s, x), x);
  }

  /** Every quiet decay period since the last flap forgives one level, down to none. */
  lemma LevelDecays(cfg: SelectorConfig, t: Table, r: nat, ts: int, periods: nat)
    requires r in t.level && r in t.last && cfg.flapDecayMs > 0
    requires t.last[r] + periods * cfg.flapDecayMs <= ts < t.last[r] + (periods + 1) * cfg.flapDecayMs
    ensures EffectiveLevel(cfg, t, r, ts) == if t.level[r] > periods then t.level[r] - periods else 0
  {
    Periods(ts - t.last[r], cfg.flapDecayMs, periods);
  }

  lemma Periods(a: int, b: int, k: nat)
    requires b > 0 && k * b <= a < (k + 1) * b
    ensures DivTowardZero(a, b) == k
  {
    if a / b < k { LessTimes(a / b + 1, k, b); } else if a / b > k { LessTimes(k + 1, a / b, b); }
  }

  lemma LessTimes(i: int, j: int, b: int)
    requires b > 0 && i <= j
    ensures i * b <= j * b
  {
  }

  // The power a level raises the multiplier to.
  function Exponent(n: nat): nat
    requires n >= 1
  {
    if n > 41 then 40 else n - 1
  }

  /** Level n suppresses a rung for the base times the multiplier to the n - 1, in whole
      milliseconds, up to the cap; from level 41 on the exponent stays at 40. */
  lemma BackoffExactly(cfg: SelectorConfig, n: nat)
    requires n >= 1 && cfg.flapBaseMs >= 0 && cfg.flapMult >= 0.0
    ensures var b, raw := BackoffMs(cfg, n), cfg.flapBaseMs as real * Pow(cfg.flapMult, Exponent(n));
      b == cfg.flapCapMs <= raw.Floor || (b <= cfg.flapCapMs && b as real <= raw < (b + 1) as real)
  {
    var m := Min(n - 1, 40);
    assert m == Exponent(n);
    hide Pow, Trunc, Min, Exponent;
    PowNonNegative(cfg.flapMult, m);
    Product(cfg.flapBaseMs as real, Pow(cfg.flapMult, m));
    Capped(cfg.flapBaseMs as real * Pow(cfg.flapMult, m), cfg.flapCapMs);
  }

  lemma Capped(raw: real, cap: int)
    requires raw >= 0.0
    ensures var b := Min(Trunc(raw), cap); b == cap <= raw.Floor || (b <= cap && b as real <= raw < (b + 1) as real)
  {
  }

  lemma Product(a: real, b: real)
    requires a >= 0.0 && b >= 0.0
    ensures a * b >= 0.0
  {
  }

  // ---- the raw windows over a run ----------------------------------------------------------------

  // Every raw SNR window the calls brought, in order.
  function RawWindows(ops: seq<Op>): seq<real> {
    if ops == [] then []
    else RawWindows(ops[..|ops| - 1]) + RawOf(ops[|ops| - 1])
  }

  function RawOf(o: Op): seq<real> { if o.Choose? && o.x.snrW.Some? then [o.x.snrW.value] else [] }

  lemma RecentStep(cfg: SelectorConfig, h: Hist, o: Op, w: seq<real>)
    requires h.sel.Valid(cfg) && h.sel.recent == LastTwenty(w)
    ensures Extend(cfg, h, o).sel.recent == LastTwenty(w + RawOf(o))
  {
    hide RecOf, Charged, Damper, SnapTarget, Cleared, Confirmed, LastTwenty, DemoteNote, Route, MayClimb, Emergency, Windowed;
    match o
    case Choose(x) =>
      LastTwentyNext(w, x.snrW);
      BookkeptKeeps(cfg, Entered(h.sel, x), x);
    case Lower(_) => assert w + [] == w;
  }

  lemma LastTwentyNext(w: seq<real>, v: Option<real>)
    ensures Windowed(LastTwenty(w), v) == LastTwenty(w + if v.Some? then [v.value] else [])
  {
    assert w + [] == w;
  }

  /** In every run the damper looks at the last twenty raw windows, whatever happened between. */
  lemma {:induction false} RecentIsLatest(cfg: SelectorConfig, ops: seq<Op>)
    ensures Run(cfg, ops).sel.recent == LastTwenty(RawWindows(ops)) && |Run(cfg, ops).sel.recent| <= 20
  {
    hide Extend, RawOf, Sel.Valid;
    if ops != [] {
      var n := |ops| - 1;
      RecentIsLatest(cfg, ops[..n]);
      RecentStep(cfg, Run(cfg, ops[..n]), ops[n], RawWindows(ops[..n]));
    }
  }
}
