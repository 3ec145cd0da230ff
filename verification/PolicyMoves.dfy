/** When a tick or a loss event moves the rung and what it teaches, in the signals and the
    state before it, and what the policy's counters count over a run. */
module PolicyMoves {
  import opened Common
  import opened Knee
  import opened Selector
  import opened SelectorHistory
  import opened SelectorMoves
  import opened Policy
  import opened PolicyRuns

  // ---- the knee a rung is judged by -----------------------------------------------------------

  // Enough samples stand behind the rung's knee.
  predicate Known(cfg: PriorConfig, p: Prior, rung: int)
    requires p.Valid()
  {
    0 <= rung <= 7 && p.knee[rung].Some? && p.count[rung] >= cfg.minSamples
  }

  // The rung's knee is known, and some known knee at or below it lies above v.
  ghost predicate UnderKnee(cfg: PriorConfig, p: Prior, rung: int, v: real)
    requires p.Valid()
  {
    Known(cfg, p, rung) && exists i :: 0 <= i <= rung && Known(cfg, p, i) && v < p.knee[i].value
  }

  lemma KneeJudges(cfg: PriorConfig, p: Prior, rung: int, value: real, margin: real)
    requires p.Valid()
    ensures Unviable(cfg, p, rung, value, margin) <==> UnderKnee(cfg, p, rung, value + margin)
    ensures Confident(cfg, p, rung) <==> Known(cfg, p, rung)
  {
    if 0 <= rung <= 7 {
      EffectiveExactly(cfg, p, rung, value, margin);
      var e := Effective(cfg, p, rung);
      if e.Some? {
        var i :| 0 <= i <= rung && p.knee[i] == e && p.count[i] >= cfg.minSamples;
        assert Known(cfg, p, i);
      }
    }
  }

  // ---- demotes before the selector ---------------------------------------------------------------

  function LastSamples(w: seq<real>, max: nat): seq<real> { if |w| > max then w[|w| - max..] else w }

  // The SNR gradient over the last windows, this one included.
  function Gradient(cfg: PolicyConfig, p: Pol, snr: real): real {
    LsqSlope(LastSamples(p.window + [snr], cfg.prior.slopeWindow))
  }

  /** The SNR is falling, and where it will be in horizonTicks the rung is known to fail. */
  ghost predicate FallsUnder(cfg: PriorConfig, p: Prior, rung: int, snr: real, slope: real)
    requires p.Valid()
  {
    && UnderKnee(cfg, p, rung, snr + slope * cfg.horizonTicks as real + cfg.demoteMarginDb)
    && -slope * cfg.horizonTicks as real >= cfg.minDropDb
  }

  ghost predicate Forecast(cfg: PolicyConfig, p: Pol, g: Signals)
    requires p.Valid(cfg)
  {
    g.snr.Some? && FallsUnder(cfg.prior, p.prior, p.sel.current, g.snr.value, Gradient(cfg, p, g.snr.value))
  }

  // The SNR is already under the rung's knee by the demote margin.
  ghost predicate Sunk(cfg: PolicyConfig, p: Pol, g: Signals, rung: int)
    requires p.Valid(cfg)
  {
    g.snr.Some? && UnderKnee(cfg.prior, p.prior, rung, g.snr.value + cfg.sel.demoteMarginDb)
  }

  ghost predicate Foreseen(cfg: PolicyConfig, p: Pol, g: Signals)
    requires p.Valid(cfg)
  {
    && p.sel.current > 0 && p.sinceDemote + 1 >= cfg.sel.cooldownWindows
    && Forecast(cfg, p, g) && p.predictCount + 1 >= cfg.prior.debounceWindows
  }

  // One of the two demotes the tick makes itself.
  ghost predicate Outside(cfg: PolicyConfig, p: Pol, g: Signals)
    requires p.Valid(cfg)
  {
    && p.sel.current > 0 && p.sinceDemote + 1 >= cfg.sel.cooldownWindows
    && (|| (Forecast(cfg, p, g) && p.predictCount + 1 >= cfg.prior.debounceWindows)
        || (Sunk(cfg, p, g, p.sel.current) && p.snrCount + 1 >= cfg.sel.snrDebounce))
  }

  // The rung the second demote looks at.
  ghost function Judged(cfg: PolicyConfig, p: Pol, g: Signals): int
    requires p.Valid(cfg)
  {
    if Foreseen(cfg, p, g) then p.sel.current - 1 else p.sel.current
  }

  lemma FallsIs(cfg: PriorConfig, p: Prior, rung: int, snr: real, slope: real)
    requires p.Valid()
    ensures FallsUnder(cfg, p, rung, snr, slope) <==>
      Unviable(cfg, p, rung, Projected(snr, slope, cfg.horizonTicks), cfg.demoteMarginDb) && DropOf(slope, cfg.horizonTicks) >= cfg.minDropDb
  {
    KneeJudges(cfg, p, rung, Projected(snr, slope, cfg.horizonTicks), cfg.demoteMarginDb);
  }

  lemma PredictsIs(cfg: PolicyConfig, p: Pol, g: Signals)
    requires p.Valid(cfg)
    ensures Predicts(cfg, Counted(cfg, p, g), g) <==> Forecast(cfg, p, g)
    ensures PredictLowers(cfg, Counted(cfg, p, g), g) <==> Foreseen(cfg, p, g)
    ensures SlopeOf(cfg, p, g) == if g.snr.Some? then Some(Gradient(cfg, p, g.snr.value)) else None
  {
    hide LsqSlope, Unviable, FallsUnder, Projected, DropOf, Sel.Valid;
    if g.snr.Some? { FallsIs(cfg.prior, p.prior, p.sel.current, g.snr.value, Gradient(cfg, p, g.snr.value)); }
  }

  lemma SnrFailsIs(cfg: PolicyConfig, p: Pol, q: Pol, g: Signals)
    requires p.Valid(cfg) && q.Valid(cfg) && q.prior == p.prior
    ensures SnrFails(cfg, q, g) <==> Sunk(cfg, p, g, q.sel.current)
  {
    hide Unviable, UnderKnee, Sel.Valid;
    if g.snr.Some? { KneeJudges(cfg.prior, p.prior, q.sel.current, g.snr.value, cfg.sel.demoteMarginDb); }
  }

  /** What a tick demotes on before the selector runs, and its counters then. */
  lemma PreparedExactly(cfg: PolicyConfig, p: Pol, g: Signals)
    requires p.Valid(cfg)
    ensures var q := Prepared(cfg, p, g);
      && (q.sel.current < p.sel.current <==> Outside(cfg, p, g))
      && q.sel == (if Outside(cfg, p, g) then p.sel.(current := p.sel.current - 1, lastChange := g.ts, cleanDwell := 0, trial := None) else p.sel)
      && q.predictCount == (if g.snr.None? then p.predictCount else if Forecast(cfg, p, g) then p.predictCount + 1 else 0)
      && q.snrCount == (if Sunk(cfg, p, g, Judged(cfg, p, g)) then p.snrCount + 1 else 0)
      && q.starvation == (if g.starvedW then p.starvation + 1 else 0)
      && q.window == (if g.snr.Some? then LastSamples(p.window + [g.snr.value], cfg.prior.slopeWindow) else p.window)
  {
    hide Predicts, SnrFails, PredictLowers, Forecast, Sunk, ProbeClean, SlopeOf;
    StagesValid(cfg, p, g);
    PredictsIs(cfg, p, g);
    var p1 := PredictStage(cfg, Counted(cfg, p, g), g);
    SnrFailsIs(cfg, p, p1, g);
  }

  // ---- the selector's inputs -----------------------------------------------------------------------

  predicate FreshProbe(g: Signals, target: nat) { target in g.probe && g.probe[target].isFresh && g.probe[target].per.Some? }

  // Consecutive windows with a fresh probe of the target at 2 % loss or less, this one included.
  function CleanStreak(p: Pol, g: Signals, target: nat): nat {
    if FreshProbe(g, target) && g.probe[target].per.value <= 0.02
    then 1 + if p.probeRung == Some(target) then p.probeTicks else 0
    else 0
  }

  /** What a tick that has not lowered the rung itself asks the selector. */
  ghost function Asked(cfg: PolicyConfig, p: Pol, g: Signals, cur: nat, may: bool): Inputs
    requires p.Valid(cfg)
  {
    var target := cur + 1;
    Inputs(g.snr, g.snrW, if g.snr.Some? then Some(Gradient(cfg, p, g.snr.value)) else None,
           g.loss >= cfg.sel.videoDemotePer,
           Known(cfg.prior, p.prior, target),
           g.snr.Some? && UnderKnee(cfg.prior, p.prior, target, g.snr.value - cfg.sel.promoteMarginDb),
           g.fecWork, (if g.starvedW then p.starvation + 1 else 0) >= cfg.sel.starvationWindows,
           may && p.sinceDemote + 1 >= cfg.sel.cooldownWindows, g.ts,
           FreshProbe(g, target) && g.probe[target].per.value >= 0.10, CleanStreak(p, g, target) >= 20)
  }

  lemma ProbeExactly(cfg: PolicyConfig, p: Pol, g: Signals)
    requires p.Valid(cfg)
    ensures var q := Prepared(cfg, p, g);
      var target := q.sel.current + 1;
      q.probeRung == Some(target) && q.probeTicks == CleanStreak(p, g, target)
  {
    hide Predicts, SnrFails, PredictLowers, SnrLowers, Pushed;
  }

  lemma ChoiceExactly(cfg: PolicyConfig, p: Pol, g: Signals)
    requires p.Valid(cfg)
    ensures TickChoice(cfg, p, g) == Asked(cfg, p, g, Prepared(cfg, p, g).sel.current, !Outside(cfg, p, g))
  {
    hide Prepared, Outside, SlopeOf, Gradient, Unviable, Confident, UnderKnee, Known, Sel.Valid, CleanStreak;
    PreparedValid(cfg, p, g);
    PreparedExactly(cfg, p, g);
    PreparedMoves(cfg, p, g);
    ProbeExactly(cfg, p, g);
    PredictsIs(cfg, p, g);
    var target := Prepared(cfg, p, g).sel.current + 1;
    if g.snr.Some? { KneeJudges(cfg.prior, p.prior, target, g.snr.value, -cfg.sel.promoteMarginDb); }
    KneeJudges(cfg.prior, p.prior, target, 0.0, 0.0);
  }

  // ---- what a tick moves ------------------------------------------------------------------------------

  ghost predicate Reacts(cfg: PolicyConfig, p: Pol, g: Signals) {
    || g.loss >= cfg.sel.videoDemotePer || g.fecWork >= cfg.sel.emergencyFec
    || (if g.starvedW then p.starvation + 1 else 0) >= cfg.sel.starvationWindows
  }

  // The selector undoes the tick's own demote: only where changes need no time between them.
  ghost predicate Undone(cfg: PolicyConfig, p: Pol, g: Signals)
    requires p.Valid(cfg) && p.sel.current > 0
  {
    var cur := p.sel.current - 1;
    Rises(cfg.sel, p.sel.(current := cur, lastChange := g.ts, cleanDwell := 0, trial := None), Asked(cfg, p, g, cur, false))
  }

  /** A tick lowers the rung exactly when one of its own demotes stands, or there was none and
      the cooldown is over and loss, FEC pressure or starvation says so; it raises the rung
      exactly when it made no demote and the selector's conditions for a promote hold. */
  lemma TickExactly(cfg: PolicyConfig, p: Pol, g: Signals)
    requires p.Valid(cfg) && |p.sel.recent| <= 20
    ensures var r, cur := Tick(cfg, p, g).sel.current, p.sel.current;
      && (r < cur <==> if Outside(cfg, p, g) then !Undone(cfg, p, g)
                       else cur > 0 && p.sinceDemote + 1 >= cfg.sel.cooldownWindows && Reacts(cfg, p, g))
      && (r > cur <==> !Outside(cfg, p, g) && Rises(cfg.sel, p.sel, Asked(cfg, p, g, cur, true)))
      && (r < cur ==> r == cur - 1) && (r > cur ==> r == cur + 1)
    ensures Outside(cfg, p, g) && cfg.sel.minBetweenMs > 0 ==> !Undone(cfg, p, g)
  {
    hide Prepared, TickChoice, Select, Taught, Observed, Forecast, Sunk, Gradient, UnderKnee, Known, CleanStreak, Open, Snaps, Ripe;
    PreparedValid(cfg, p, g);
    PreparedExactly(cfg, p, g);
    ChoiceExactly(cfg, p, g);
    DemotesExactly(cfg.sel, Prepared(cfg, p, g).sel, TickChoice(cfg, p, g));
    PromotesExactly(cfg.sel, Prepared(cfg, p, g).sel, TickChoice(cfg, p, g));
  }

  // ---- the fast path ------------------------------------------------------------------------------------

  /** A loss event lowers the rung exactly when the loss breaches, the cooldown is over and
      there is a rung below; it then starts the cooldown over. */
  lemma LossExactly(cfg: PolicyConfig, p: Pol, g: Signals)
    requires p.Valid(cfg)
    ensures var r := LossEvent(cfg, p, g);
      var fires := g.loss >= cfg.sel.videoDemotePer && p.sinceDemote >= cfg.sel.cooldownWindows && p.sel.current > 0;
      && r.sel.current == (if fires then p.sel.current - 1 else p.sel.current)
      && r.sinceDemote == (if fires then 0 else p.sinceDemote)
      && r.prior == Learn(cfg.prior, p.prior, if fires then LossTeaches(cfg, p.sel, g) else [])
      && r == p.(sel := r.sel, sinceDemote := r.sinceDemote, prior := r.prior)
  {
    hide Select, Taught, Learn, Sel.Valid;
    LearnNone(cfg.prior, p.prior);
    if LossGate(cfg, p, g) {
      var sel := Select(cfg.sel, p.sel, LossInputs(g));
      SelectSummary(cfg.sel, p.sel, LossInputs(g));
      DemotesExactly(cfg.sel, p.sel, LossInputs(g));
      FailExactly(cfg.sel, p.sel, LossInputs(g));
      TaughtIs(cfg, p.prior, sel.note.lastFail);
      assert p.sel.current > 0 ==> FailObs(sel.note.lastFail) == LossTeaches(cfg, p.sel, g);
    }
  }

  // A loss at the rung teaches the raw SNR of a collapse, else the SNR of a failed probation.
  function LossTeaches(cfg: PolicyConfig, s: Sel, g: Signals): seq<Obs> {
    if g.snr.Some? && g.snrW.Some? && g.snr.value - g.snrW.value >= cfg.sel.collapseDb then [Obs(s.current, g.snrW.value, false)]
    else if s.trial.Some? && g.ts < s.trialUntil && g.snr.Some? then [Obs(s.current, g.snr.value, false)]
    else []
  }

  function FailObs(f: Option<Fail>): seq<Obs> { if f.Some? then [Obs(f.value.rung, f.value.snr, false)] else [] }

  lemma TaughtIs(cfg: PolicyConfig, prior: Prior, f: Option<Fail>)
    requires prior.Valid()
    ensures Taught(cfg, prior, f) == Learn(cfg.prior, prior, FailObs(f))
  {
    if f.Some? { LearnOne(cfg.prior, prior, [], Obs(f.value.rung, f.value.snr, false)); }
    assert [] + FailObs(f) == FailObs(f);
  }

  lemma LearnNone(cfg: PriorConfig, p: Prior)
    requires p.Valid()
    ensures Learn(cfg, p, []) == p
  {
  }

  lemma LearnOne(cfg: PriorConfig, p: Prior, obs: seq<Obs>, o: Obs)
    requires p.Valid()
    ensures Learn(cfg, p, obs + [o]) == Observed(cfg, Learn(cfg, p, obs), o)
  {
    assert (obs + [o])[..|obs|] == obs;
  }

  // ---- what a tick teaches ------------------------------------------------------------------------------

  // Windows at the new rung after the one that brought it there.
  function Settled(p: Pol, mcs: nat): nat { if p.lastIngest == Some(mcs) then p.ticksAtMcs + 1 else 0 }

  // A settled window with little loss is a clean sample of the rung it ends at.
  function CleanTeaches(cfg: PolicyConfig, p: Pol, g: Signals, mcs: nat): seq<Obs> {
    if g.snr.Some? && Settled(p, mcs) >= cfg.prior.settleTicks && g.loss < cfg.prior.viableLoss then [Obs(mcs, g.snr.value, true)] else []
  }

  /** A tick teaches the loss that lowered the rung, if loss did, and then the clean sample of
      the rung it ends at, if it has settled there; and it counts. */
  lemma TickTeaches(cfg: PolicyConfig, p: Pol, g: Signals)
    requires p.Valid(cfg)
    ensures var r := Tick(cfg, p, g);
      var lost := !Outside(cfg, p, g) && p.sel.current > 0 && p.sinceDemote + 1 >= cfg.sel.cooldownWindows && g.loss >= cfg.sel.videoDemotePer;
      && r.prior == Learn(cfg.prior, p.prior, (if lost then LossTeaches(cfg, p.sel, g) else []) + CleanTeaches(cfg, p, g, r.sel.current))
      && r.ticksAtMcs == Settled(p, r.sel.current) && r.lastIngest == Some(r.sel.current)
      && r.sinceDemote == (if r.sel.current < p.sel.current then 0 else p.sinceDemote + 1)
  {
    hide Prepared, TickChoice, Select, Taught, Observed, Outside, Gradient, UnderKnee, Known, CleanStreak, Learn, Sel.Valid;
    PreparedValid(cfg, p, g);
    PreparedExactly(cfg, p, g);
    PreparedKeeps(cfg, p, g);
    ChoiceExactly(cfg, p, g);
    var q, x := Prepared(cfg, p, g), TickChoice(cfg, p, g);
    SelectSummary(cfg.sel, q.sel, x);
    var sel := Select(cfg.sel, q.sel, x);
    FailExactly(cfg.sel, q.sel, x);
    TaughtIs(cfg, p.prior, sel.note.lastFail);
    var fails, clean := FailObs(sel.note.lastFail), Obs(sel.current, if g.snr.Some? then g.snr.value else 0.0, true);
    LearnOne(cfg.prior, p.prior, fails, clean);
    assert fails + [] == fails;
  }

  lemma PreparedKeeps(cfg: PolicyConfig, p: Pol, g: Signals)
    requires p.Valid(cfg)
    ensures var q := Prepared(cfg, p, g);
      q.sinceDemote == p.sinceDemote + 1 && q.ticksAtMcs == p.ticksAtMcs && q.lastIngest == p.lastIngest
  {
    hide Predicts, SnrFails, PredictLowers, SnrLowers, Pushed, ProbeClean;
  }
}
