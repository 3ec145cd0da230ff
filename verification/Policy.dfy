/** The ground station's policy (Policy in gs/fpvdgs/dynlink/policy.py): one tick per
    statistics window, with four demote paths, plus a fast loss path between ticks, all
    under one cooldown. */
module Policy {
  import opened Common
  import opened Knee
  import opened Selector
  import opened SelectorHistory

  const PROBE_DIRTY_PER: real := 0.10
  const PROBE_CLEAN_PER: real := 0.02
  const PROBE_CLEAN_RELEASE_TICKS := 20

  datatype PolicyConfig = PolicyConfig(sel: SelectorConfig, prior: PriorConfig)

  datatype Reading = Reading(per: Option<real>, isFresh: bool)

  /** probe: readings per rung; empty when the probe is off. */
  datatype Signals = Signals(
    snr: Option<real>, snrW: Option<real>, loss: real, fecWork: real, starvedW: bool, ts: int, probe: map<nat, Reading>)

  datatype Pol = Pol(
    sel: Sel, prior: Prior, starvation: nat, ticksAtMcs: nat, lastIngest: Option<nat>,
    window: seq<real>, predictCount: nat, snrCount: nat, sinceDemote: nat, probeTicks: nat, probeRung: Option<nat>)
  {
    predicate Valid(cfg: PolicyConfig) { sel.Valid(cfg.sel) && prior.Valid() }
  }

  function Fresh(cfg: PolicyConfig, prior: Prior): Pol {
    Pol(Boot(cfg.sel), prior, 0, 0, None, [], 0, 0, cfg.sel.cooldownWindows, 0, None)
  }

  // ---- slope ---------------------------------------------------------------------------

  function Covariance(s: seq<real>, meanX: real, meanY: real): real {
    if s == [] then 0.0
    else Covariance(s[..|s| - 1], meanX, meanY) + ((|s| - 1) as real - meanX) * (s[|s| - 1] - meanY)
  }

  function Variance(n: nat, meanX: real): real {
    if n == 0 then 0.0 else Variance(n - 1, meanX) + ((n - 1) as real - meanX) * ((n - 1) as real - meanX)
  }

  // Least-squares gradient per tick.
  function LsqSlope(s: seq<real>): real {
    if |s| < 2 then 0.0
    else
      var meanX := (|s| - 1) as real / 2.0;
      var den := Variance(|s|, meanX);
      if den != 0.0 then Covariance(s, meanX, Sum(s) / |s| as real) / den else 0.0
  }

  function Pushed(window: seq<real>, v: real, max: nat): seq<real> {
    var w := window + [v];
    if |w| > max then w[|w| - max..] else w
  }

  // ---- the stages of a tick ----------------------------------------------------------------

  predicate CooldownOk(cfg: PolicyConfig, p: Pol) {
    p.sinceDemote >= cfg.sel.cooldownWindows
  }

  function Counted(cfg: PolicyConfig, p: Pol, g: Signals): Pol {
    p.(sinceDemote := p.sinceDemote + 1, starvation := if g.starvedW then p.starvation + 1 else 0)
  }

  function SlopeOf(cfg: PolicyConfig, p: Pol, g: Signals): Option<real> {
    if g.snr.None? then None else Some(LsqSlope(Pushed(p.window, g.snr.value, cfg.prior.slopeWindow)))
  }

  function Projected(snr: real, slope: real, horizon: int): real { snr + slope * horizon as real }

  function DropOf(slope: real, horizon: int): real { -slope * horizon as real }

  // The current rung fails at the projected SNR.
  predicate Doomed(cfg: PolicyConfig, p: Pol, g: Signals)
    requires p.Valid(cfg) && g.snr.Some?
  {
    var slope := SlopeOf(cfg, p, g).value;
    Unviable(cfg.prior, p.prior, p.sel.current, Projected(g.snr.value, slope, cfg.prior.horizonTicks), cfg.prior.demoteMarginDb)
  }

  predicate Dropping(cfg: PolicyConfig, p: Pol, g: Signals)
    requires g.snr.Some?
  {
    DropOf(SlopeOf(cfg, p, g).value, cfg.prior.horizonTicks) >= cfg.prior.minDropDb
  }

  predicate Predicts(cfg: PolicyConfig, p: Pol, g: Signals)
    requires p.Valid(cfg)
  {
    g.snr.Some? && Doomed(cfg, p, g) && Dropping(cfg, p, g)
  }

  predicate PredictLowers(cfg: PolicyConfig, p: Pol, g: Signals)
    requires p.Valid(cfg)
  {
    Predicts(cfg, p, g) && p.predictCount + 1 >= cfg.prior.debounceWindows && CooldownOk(cfg, p) && p.sel.current > 0
  }

  function PredictStage(cfg: PolicyConfig, p: Pol, g: Signals): Pol
    requires p.Valid(cfg)
  {
    p.(window := if g.snr.Some? then Pushed(p.window, g.snr.value, cfg.prior.slopeWindow) else p.window,
       predictCount := if g.snr.None? then p.predictCount else if Predicts(cfg, p, g) then p.predictCount + 1 else 0,
       sel := if PredictLowers(cfg, p, g) then LowerOne(cfg.sel, p.sel, g.ts) else p.sel)
  }

  predicate SnrFails(cfg: PolicyConfig, p: Pol, g: Signals)
    requires p.Valid(cfg)
  {
    g.snr.Some? && Unviable(cfg.prior, p.prior, p.sel.current, g.snr.value, cfg.sel.demoteMarginDb)
  }

  predicate SnrLowers(cfg: PolicyConfig, p: Pol, g: Signals, start: nat)
    requires p.Valid(cfg)
  {
    SnrFails(cfg, p, g) && p.snrCount + 1 >= cfg.sel.snrDebounce && CooldownOk(cfg, p) && p.sel.current == start && p.sel.current > 0
  }

  function SnrStage(cfg: PolicyConfig, p: Pol, g: Signals, start: nat): Pol
    requires p.Valid(cfg)
  {
    p.(snrCount := if SnrFails(cfg, p, g) then p.snrCount + 1 else 0,
       sel := if SnrLowers(cfg, p, g, start) then LowerOne(cfg.sel, p.sel, g.ts) else p.sel)
  }

  predicate ProbeDirty(g: Signals, target: nat) {
    target in g.probe && g.probe[target].isFresh && g.probe[target].per.Some? && g.probe[target].per.value >= PROBE_DIRTY_PER
  }

  predicate ProbeClean(g: Signals, target: nat) {
    target in g.probe && g.probe[target].isFresh && g.probe[target].per.Some? && g.probe[target].per.value <= PROBE_CLEAN_PER
  }

  // The clean streak belongs to the rung it was seen at.
  function ProbeStage(p: Pol, g: Signals): Pol {
    var target := p.sel.current + 1;
    var streak := if p.probeRung == Some(target) then p.probeTicks else 0;
    p.(probeRung := Some(target), probeTicks := if ProbeClean(g, target) then streak + 1 else 0)
  }

  function TickInputs(cfg: PolicyConfig, p: Pol, g: Signals, slope: Option<real>, start: nat): Inputs
    requires p.Valid(cfg)
  {
    var target := p.sel.current + 1;
    Inputs(g.snr, g.snrW, slope, g.loss >= cfg.sel.videoDemotePer,
           Confident(cfg.prior, p.prior, target),
           g.snr.Some? && Unviable(cfg.prior, p.prior, target, g.snr.value, -cfg.sel.promoteMarginDb),
           g.fecWork, p.starvation >= cfg.sel.starvationWindows,
           CooldownOk(cfg, p) && p.sel.current == start, g.ts,
           ProbeDirty(g, target), p.probeTicks >= PROBE_CLEAN_RELEASE_TICKS)
  }

  // A classified loss teaches the knee of the rung it came from.
  function Taught(cfg: PolicyConfig, prior: Prior, fail: Option<Fail>): (r: Prior)
    requires prior.Valid()
    ensures r.Valid()
  {
    if fail.None? then prior else Observed(cfg.prior, prior, Obs(fail.value.rung, fail.value.snr, false))
  }

  // Settled clean windows relax the knee of the operating rung.
  function IngestStage(cfg: PolicyConfig, p: Pol, g: Signals): Pol
    requires p.Valid(cfg)
  {
    var mcs := p.sel.current;
    var ticks := if p.lastIngest == Some(mcs) then p.ticksAtMcs + 1 else 0;
    p.(ticksAtMcs := ticks, lastIngest := Some(mcs),
       prior := if g.snr.Some? && ticks >= cfg.prior.settleTicks && g.loss < cfg.prior.viableLoss
                then Observed(cfg.prior, p.prior, Obs(mcs, g.snr.value, true)) else p.prior)
  }

  // Everything before the selector is called.
  function Prepared(cfg: PolicyConfig, p: Pol, g: Signals): Pol
    requires p.Valid(cfg)
  {
    var start := p.sel.current;
    var p1 := PredictStage(cfg, Counted(cfg, p, g), g);
    LowerSummary(cfg.sel, p.sel, g.ts);
    ProbeStage(SnrStage(cfg, p1, g, start), g)
  }

  lemma PreparedValid(cfg: PolicyConfig, p: Pol, g: Signals)
    requires p.Valid(cfg)
    ensures Prepared(cfg, p, g).Valid(cfg) && Prepared(cfg, p, g).prior == p.prior
  {
  }

  function TickChoice(cfg: PolicyConfig, p: Pol, g: Signals): Inputs
    requires p.Valid(cfg)
  {
    PreparedValid(cfg, p, g);
    TickInputs(cfg, Prepared(cfg, p, g), g, SlopeOf(cfg, p, g), p.sel.current)
  }

  // After the selector: cooldown, teaching, relaxation.
  function Concluded(cfg: PolicyConfig, q: Pol, sel: Sel, g: Signals, start: nat): Pol
    requires q.Valid(cfg) && sel.Valid(cfg.sel)
  {
    IngestStage(cfg, q.(sel := sel, sinceDemote := if sel.current < start then 0 else q.sinceDemote,
                        prior := Taught(cfg, q.prior, sel.note.lastFail)), g)
  }

  function Tick(cfg: PolicyConfig, p: Pol, g: Signals): (r: Pol)
    requires p.Valid(cfg)
    ensures r.Valid(cfg)
  {
    PreparedValid(cfg, p, g);
    var q := Prepared(cfg, p, g);
    SelectSummary(cfg.sel, q.sel, TickChoice(cfg, p, g));
    Concluded(cfg, q, Select(cfg.sel, q.sel, TickChoice(cfg, p, g)), g, p.sel.current)
  }

  // ---- the fast path -----------------------------------------------------------------------------

  predicate LossGate(cfg: PolicyConfig, p: Pol, g: Signals) {
    g.loss >= cfg.sel.videoDemotePer && CooldownOk(cfg, p)
  }

  function LossInputs(g: Signals): Inputs {
    Inputs(g.snr, g.snrW, None, true, false, false, g.fecWork, false, true, g.ts, false, false)
  }

  function LossEvent(cfg: PolicyConfig, p: Pol, g: Signals): (r: Pol)
    requires p.Valid(cfg)
    ensures r.Valid(cfg)
  {
    if !LossGate(cfg, p, g) then p
    else
      SelectSummary(cfg.sel, p.sel, LossInputs(g));
      var sel := Select(cfg.sel, p.sel, LossInputs(g));
      if sel.current >= p.sel.current then p.(sel := sel)
      else p.(sel := sel, sinceDemote := 0, prior := Taught(cfg, p.prior, sel.note.lastFail))
  }

  // ---- the imperative policy --------------------------------------------------------------------------

  class Engine {
    const cfg: PolicyConfig
    var leading: LeadingSelector
    var learned: KneeModel
    var starvation: nat
    var ticksAtMcs: nat
    var lastIngest: Option<nat>
    var window: seq<real>
    var predictCount: nat
    var snrCount: nat
    var sinceDemote: nat
    var probeTicks: nat
    var probeRung: Option<nat>

    function View(): Pol reads this, leading, learned {
      Pol(leading.View(), learned.View(), starvation, ticksAtMcs, lastIngest, window,
          predictCount, snrCount, sinceDemote, probeTicks, probeRung)
    }

    ghost predicate Valid() reads this, leading, learned {
      leading.cfg == cfg.sel && learned.cfg == cfg.prior && View().Valid(cfg)
    }

    constructor (cfg: PolicyConfig, key: string)
      ensures Valid() && fresh(leading) && fresh(learned) && learned.key == key
      ensures this.cfg == cfg && View() == Fresh(cfg, FreshPrior())
    {
      this.cfg := cfg;
      leading := new LeadingSelector(cfg.sel);
      learned := new KneeModel(key, cfg.prior);
      starvation, ticksAtMcs, lastIngest, window := 0, 0, None, [];
      predictCount, snrCount, sinceDemote := 0, 0, cfg.sel.cooldownWindows;
      probeTicks, probeRung := 0, None;
    }

    // A new session forgets everything but the learned knees.
    method ResetForNewSession()
      requires Valid()
      modifies this
      ensures Valid() && fresh(leading) && learned == old(learned)
      ensures View() == Fresh(cfg, old(learned.View()))
    {
      hide Boot, Sel.Valid, Prior.Valid, LeadingSelector.View, KneeModel.View;
      BootValid(cfg.sel);
      leading := new LeadingSelector(cfg.sel);
      ResetCounters();
    }

    method ResetCounters()
      modifies this`starvation, this`ticksAtMcs, this`lastIngest, this`window, this`predictCount, this`snrCount, this`sinceDemote,
               this`probeTicks, this`probeRung
      ensures View() == Fresh(cfg, learned.View()).(sel := leading.View())
    {
      hide LeadingSelector.View, KneeModel.View, Boot;
      starvation, ticksAtMcs, lastIngest, window := 0, 0, None, [];
      predictCount, snrCount, sinceDemote := 0, 0, cfg.sel.cooldownWindows;
      probeTicks, probeRung := 0, None;
    }

    // A different card or channel width brings its own knees; the same one keeps its own.
    method BindLearnedPrior(key: string, stored: Prior)
      requires Valid() && stored.Valid()
      modifies this
      ensures Valid() && leading == old(leading) && learned.key == key
      ensures if key == old(learned.key) then learned == old(learned) else fresh(learned)
      ensures View() == if key == old(learned.key) then old(View()) else old(View()).(prior := stored)
    {
      if learned.key == key {
        return;
      }
      learned := new KneeModel(key, cfg.prior);
      learned.Load(stored);
    }

    method Predict(g: Signals, cooldownOk: bool) returns (slope: Option<real>)
      requires Valid() && cooldownOk == CooldownOk(cfg, View())
      modifies this`window, this`predictCount, leading
      ensures slope == SlopeOf(cfg, old(View()), g)
      ensures View() == PredictStage(cfg, old(View()), g)
    {
      hide Unviable, Effective, LsqSlope, Pushed, Lowered, CooldownOk, Sel.Valid, Projected, DropOf;
      slope := None;
      if g.snr.Some? {
        window := Pushed(window, g.snr.value, cfg.prior.slopeWindow);
        slope := Some(LsqSlope(window));
        var cur := leading.current;
        var projected := Projected(g.snr.value, slope.value, cfg.prior.horizonTicks);
        var unviable := learned.RungUnviable(cur, projected, cfg.prior.demoteMarginDb);
        if unviable {
          if DropOf(slope.value, cfg.prior.horizonTicks) >= cfg.prior.minDropDb {
            predictCount := predictCount + 1;
            if predictCount >= cfg.prior.debounceWindows && cooldownOk {
              var tgt := if cur as int - 1 > 0 then cur as int - 1 else 0;
              if tgt < cur {
                leading.ExternalDemote(tgt, g.ts);
              }
            }
          } else {
            predictCount := 0;
          }
        } else {
          predictCount := 0;
        }
      }
    }

    method DemoteOnSnr(g: Signals, cooldownOk: bool, start: nat)
      requires Valid() && cooldownOk == CooldownOk(cfg, View())
      modifies this`snrCount, leading
      ensures View() == SnrStage(cfg, old(View()), g, start)
    {
      hide Unviable, Effective, Lowered, CooldownOk, Sel.Valid;
      var cur := leading.current;
      var unviable := false;
      if g.snr.Some? {
        unviable := learned.RungUnviable(cur, g.snr.value, cfg.sel.demoteMarginDb);
      }
      if unviable {
        snrCount := snrCount + 1;
        if snrCount >= cfg.sel.snrDebounce && cooldownOk && leading.current == start {
          var tgt := if cur as int - 1 > 0 then cur as int - 1 else 0;
          if tgt < cur {
            leading.ExternalDemote(tgt, g.ts);
          }
        }
      } else {
        snrCount := 0;
      }
    }

    method WatchProbe(g: Signals)
      modifies this`probeTicks, this`probeRung
      ensures View() == ProbeStage(old(View()), g)
    {
      var target := leading.current + 1;
      if probeRung != Some(target) {
        probeTicks := 0;
        probeRung := Some(target);
      }
      if ProbeClean(g, target) {
        probeTicks := probeTicks + 1;
      } else {
        probeTicks := 0;
      }
    }

    method Teach(fail: Option<Fail>)
      requires Valid()
      modifies learned
      ensures View() == old(View()).(prior := Taught(cfg, old(learned.View()), fail))
    {
      hide Observed, Sel.Valid;
      if fail.Some? {
        learned.Observe(fail.value.rung, fail.value.snr, false);
      }
    }

    method Ingest(g: Signals, mcs: nat)
      requires Valid() && mcs == leading.current
      modifies this`ticksAtMcs, this`lastIngest, learned
      ensures View() == IngestStage(cfg, old(View()), g)
    {
      hide Observed, Sel.Valid;
      if lastIngest != Some(mcs) {
        ticksAtMcs := 0;
      } else {
        ticksAtMcs := ticksAtMcs + 1;
      }
      lastIngest := Some(mcs);
      if g.snr.Some? && ticksAtMcs >= cfg.prior.settleTicks && g.loss < cfg.prior.viableLoss {
        learned.Observe(mcs, g.snr.value, true);
      }
    }

    method Prepare(g: Signals) returns (slope: Option<real>)
      requires Valid()
      modifies this, leading
      ensures View() == Prepared(cfg, old(View()), g) && slope == SlopeOf(cfg, old(View()), g)
      ensures Valid() && leading == old(leading) && learned == old(learned)
    {
      hide PredictStage, SnrStage, ProbeStage, Sel.Valid, SlopeOf;
      ghost var p := View();
      PreparedValid(cfg, p, g);
      CountedSlope(cfg, p, g);
      StagesValid(cfg, p, g);
      sinceDemote := sinceDemote + 1;
      var cooldownOk := sinceDemote >= cfg.sel.cooldownWindows;
      var start := leading.current;
      starvation := if g.starvedW then starvation + 1 else 0;
      slope := Predict(g, cooldownOk);
      DemoteOnSnr(g, cooldownOk, start);
      WatchProbe(g);
    }

    method Conclude(g: Signals, mcs: nat, start: nat, ghost q: Pol, ghost sel: Sel)
      requires Valid() && q.Valid(cfg) && sel.Valid(cfg.sel) && View() == q.(sel := sel) && mcs == leading.current
      modifies this, learned
      ensures View() == Concluded(cfg, q, sel, g, start)
      ensures Valid() && leading == old(leading) && learned == old(learned)
    {
      hide IngestStage, Taught, Sel.Valid;
      if mcs < start {
        sinceDemote := 0;
      }
      Teach(leading.note.lastFail);
      IngestValid(cfg, View(), g);
      Ingest(g, mcs);
    }

    method OnTick(g: Signals) returns (mcs: nat)
      requires Valid()
      modifies this, leading, learned
      ensures View() == Tick(cfg, old(View()), g) && mcs == leading.current
      ensures Valid() && leading == old(leading) && learned == old(learned)
    {
      hide Prepared, Concluded, Select, Sel.Valid, Confident, Unviable, SlopeOf, ProbeDirty, CooldownOk;
      ghost var p := View();
      var start := leading.current;
      var slope := Prepare(g);
      ghost var q := View();
      CooldownNow(cfg, q);
      var target := leading.current + 1;
      var blocked := false;
      if g.snr.Some? {
        blocked := learned.RungUnviable(target, g.snr.value, -cfg.sel.promoteMarginDb);
      }
      var confident := learned.RungConfident(target);
      var x := Inputs(g.snr, g.snrW, slope, g.loss >= cfg.sel.videoDemotePer, confident, blocked, g.fecWork,
                      starvation >= cfg.sel.starvationWindows,
                      sinceDemote >= cfg.sel.cooldownWindows && leading.current == start, g.ts,
                      ProbeDirty(g, target), probeTicks >= PROBE_CLEAN_RELEASE_TICKS);
      SelectSummary(cfg.sel, q.sel, x);
      var changed;
      mcs, changed := leading.Choose(x);
      Conclude(g, mcs, start, q, leading.View());
    }

    // Returns the new rung when a demote fired.
    method OnLoss(g: Signals) returns (fired: Option<nat>)
      requires Valid()
      modifies this, leading, learned
      ensures View() == LossEvent(cfg, old(View()), g)
      ensures fired == if leading.current < old(leading.current) then Some(leading.current) else None
      ensures Valid() && leading == old(leading) && learned == old(learned)
    {
      hide Taught, Select, Sel.Valid;
      if g.loss < cfg.sel.videoDemotePer {
        return None;
      }
      if sinceDemote < cfg.sel.cooldownWindows {
        return None;
      }
      SelectSummary(cfg.sel, leading.View(), LossInputs(g));
      var start := leading.current;
      var mcs, changed := leading.Choose(LossInputs(g));
      if !changed || mcs >= start {
        return None;
      }
      sinceDemote := 0;
      Teach(leading.note.lastFail);
      fired := Some(mcs);
    }
  }

  lemma CountedSlope(cfg: PolicyConfig, p: Pol, g: Signals)
    ensures SlopeOf(cfg, Counted(cfg, p, g), g) == SlopeOf(cfg, p, g)
  {
  }

  lemma StagesValid(cfg: PolicyConfig, p: Pol, g: Signals)
    requires p.Valid(cfg)
    ensures var p1 := PredictStage(cfg, Counted(cfg, p, g), g);
      p1.Valid(cfg) && p1.sinceDemote == p.sinceDemote + 1 && SnrStage(cfg, p1, g, p.sel.current).Valid(cfg)
  {
  }

  lemma BootValid(cfg: SelectorConfig)
    ensures Boot(cfg).Valid(cfg)
  {
  }

  lemma IngestValid(cfg: PolicyConfig, p: Pol, g: Signals)
    requires p.Valid(cfg)
    ensures IngestStage(cfg, p, g).Valid(cfg)
  {
  }

  lemma CooldownNow(cfg: PolicyConfig, p: Pol)
    ensures CooldownOk(cfg, p) == (p.sinceDemote >= cfg.sel.cooldownWindows)
  {
  }
}
