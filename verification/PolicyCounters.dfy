/** What the policy's debounce counters count, in every run: consecutive windows. */
module PolicyCounters {
  import opened Common
  import opened Knee
  import opened Selector
  import opened SelectorHistory
  import opened SelectorMoves
  import opened Policy
  import opened PolicyRuns
  import opened PolicyMoves

  /** One window, as an observer would log it: whether it was starved, its SNR, whether it
      foretold or showed a failure of the rung, the rung above and whether its probe was clean,
      and the rung it ended at. */
  datatype Mark = Mark(starved: bool, snr: Option<real>, foretells: bool, sinks: bool, target: nat, clean: bool, rung: nat)

  ghost function MarkOf(cfg: PolicyConfig, p: Pol, g: Signals): Mark
    requires p.Valid(cfg)
  {
    var target := (if Outside(cfg, p, g) then p.sel.current - 1 else p.sel.current) + 1;
    Mark(g.starvedW, g.snr, Forecast(cfg, p, g), Sunk(cfg, p, g, Judged(cfg, p, g)), target,
         FreshProbe(g, target) && g.probe[target].per.value <= 0.02, Tick(cfg, p, g).sel.current)
  }

  ghost function Log(cfg: PolicyConfig, p: Pol, es: seq<Event>): seq<Mark>
    requires p.Valid(cfg) && forall i :: 0 <= i < |es| ==> ValidEvent(es[i])
  {
    if es == [] then []
    else Log(cfg, p, es[..|es| - 1]) + MarksOf(cfg, RunPolicy(cfg, p, es[..|es| - 1]), es[|es| - 1])
  }

  ghost function MarksOf(cfg: PolicyConfig, p: Pol, e: Event): seq<Mark>
    requires p.Valid(cfg)
  {
    if e.Window? then [MarkOf(cfg, p, e.g)] else []
  }

  // ---- consecutive windows ------------------------------------------------------------------

  datatype Ask = Starves | Foretells | Sinks | CleanAt(target: nat) | At(rung: nat)

  predicate Says(m: Mark, a: Ask) {
    match a
    case Starves => m.starved
    case Foretells => m.foretells
    case Sinks => m.sinks
    case CleanAt(t) => m.target == t && m.clean
    case At(r) => m.rung == r
  }

  // How many windows in a row, up to the last, say so.
  function Tail(log: seq<Mark>, a: Ask): (k: nat)
    ensures k <= |log| && (forall i :: |log| - k <= i < |log| ==> Says(log[i], a)) && (k < |log| ==> !Says(log[|log| - k - 1], a))
  {
    if log == [] || !Says(log[|log| - 1], a) then 0 else Tail(log[..|log| - 1], a) + 1
  }

  lemma TailNext(log: seq<Mark>, m: Mark, a: Ask)
    ensures Tail(log + [m], a) == if Says(m, a) then Tail(log, a) + 1 else 0
  {
    assert (log + [m])[..|log|] == log;
  }

  lemma TailOther(log: seq<Mark>, a: Ask)
    ensures log != [] && !Says(log[|log| - 1], a) ==> Tail(log, a) == 0
  {
  }

  // The windows that brought an SNR, and their values.
  function Heard(log: seq<Mark>): seq<Mark> {
    if log == [] then [] else Heard(log[..|log| - 1]) + if log[|log| - 1].snr.Some? then [log[|log| - 1]] else []
  }

  function Values(log: seq<Mark>): seq<real> {
    if log == [] then [] else Values(log[..|log| - 1]) + if log[|log| - 1].snr.Some? then [log[|log| - 1].snr.value] else []
  }

  lemma HeardNext(log: seq<Mark>, m: Mark)
    ensures Heard(log + [m]) == if m.snr.Some? then Heard(log) + [m] else Heard(log)
    ensures Values(log + [m]) == if m.snr.Some? then Values(log) + [m.snr.value] else Values(log)
  {
    assert (log + [m])[..|log|] == log;
  }

  // ---- what the counters say ---------------------------------------------------------------------

  predicate Counts(cfg: PolicyConfig, p: Pol, log: seq<Mark>) {
    && p.starvation == Tail(log, Starves) && p.snrCount == Tail(log, Sinks) && p.predictCount == Tail(Heard(log), Foretells)
    && p.window == LastSamples(Values(log), cfg.prior.slopeWindow)
  }

  predicate Streaks(p: Pol, log: seq<Mark>) {
    if log == [] then p.probeRung == None && p.lastIngest == None
    else
      var m := log[|log| - 1];
      && p.probeRung == Some(m.target) && p.probeTicks == Tail(log, CleanAt(m.target))
      && p.lastIngest == Some(m.rung) && p.ticksAtMcs + 1 == Tail(log, At(m.rung))
  }

  lemma SamplesNext(w: seq<real>, v: real, max: nat)
    ensures LastSamples(LastSamples(w, max) + [v], max) == LastSamples(w + [v], max)
  {
  }

  lemma CountsStep(cfg: PolicyConfig, p: Pol, r: Pol, log: seq<Mark>, m: Mark)
    requires Counts(cfg, p, log)
    requires r.starvation == if m.starved then p.starvation + 1 else 0
    requires r.snrCount == if m.sinks then p.snrCount + 1 else 0
    requires r.predictCount == if m.snr.None? then p.predictCount else if m.foretells then p.predictCount + 1 else 0
    requires r.window == if m.snr.Some? then LastSamples(p.window + [m.snr.value], cfg.prior.slopeWindow) else p.window
    ensures Counts(cfg, r, log + [m])
  {
    hide Tail, Heard, Values, LastSamples;
    TailNext(log, m, Starves);
    TailNext(log, m, Sinks);
    TailNext(Heard(log), m, Foretells);
    HeardNext(log, m);
    if m.snr.Some? { SamplesNext(Values(log), m.snr.value, cfg.prior.slopeWindow); }
  }

  lemma StreaksStep(p: Pol, r: Pol, log: seq<Mark>, m: Mark)
    requires Streaks(p, log)
    requires r.probeRung == Some(m.target) && r.lastIngest == Some(m.rung)
    requires r.probeTicks == if m.clean then 1 + (if p.probeRung == Some(m.target) then p.probeTicks else 0) else 0
    requires r.ticksAtMcs == if p.lastIngest == Some(m.rung) then p.ticksAtMcs + 1 else 0
    ensures Streaks(r, log + [m])
  {
    hide Tail;
    TailNext(log, m, CleanAt(m.target));
    TailNext(log, m, At(m.rung));
    TailOther(log, CleanAt(m.target));
    TailOther(log, At(m.rung));
  }

  lemma TickCounts(cfg: PolicyConfig, p: Pol, g: Signals, log: seq<Mark>)
    requires p.Valid(cfg) && Counts(cfg, p, log) && Streaks(p, log)
    ensures Counts(cfg, Tick(cfg, p, g), log + [MarkOf(cfg, p, g)]) && Streaks(Tick(cfg, p, g), log + [MarkOf(cfg, p, g)])
  {
    hide Counts, Streaks, Tick, Prepared, Forecast, Sunk, Judged, Outside, Learn, LossTeaches, CleanTeaches, Sel.Valid;
    PreparedExactly(cfg, p, g);
    ProbeExactly(cfg, p, g);
    TickTeaches(cfg, p, g);
    TickCarries(cfg, p, g);
    CountsStep(cfg, p, Tick(cfg, p, g), log, MarkOf(cfg, p, g));
    StreaksStep(p, Tick(cfg, p, g), log, MarkOf(cfg, p, g));
  }

  // The selector and what follows it leave these counters alone.
  lemma TickCarries(cfg: PolicyConfig, p: Pol, g: Signals)
    requires p.Valid(cfg)
    ensures var q, r := Prepared(cfg, p, g), Tick(cfg, p, g);
      && r.starvation == q.starvation && r.snrCount == q.snrCount && r.predictCount == q.predictCount && r.window == q.window
      && r.probeRung == q.probeRung && r.probeTicks == q.probeTicks
  {
    hide Prepared, Select, Taught, Observed, Confident, Unviable, SlopeOf, ProbeDirty, CooldownOk, Sel.Valid;
  }

  lemma StepCounts(cfg: PolicyConfig, p: Pol, e: Event, log: seq<Mark>)
    requires p.Valid(cfg) && ValidEvent(e) && Counts(cfg, p, log) && Streaks(p, log)
    ensures Counts(cfg, Step(cfg, p, e), log + MarksOf(cfg, p, e)) && Streaks(Step(cfg, p, e), log + MarksOf(cfg, p, e))
  {
    hide Tick, LossEvent, MarkOf, Tail, Sel.Valid, Learn, LossTeaches;
    assert log + [] == log;
    match e
    case Window(g) => TickCounts(cfg, p, g, log);
    case Loss(g) => LossExactly(cfg, p, g);
    case Rebind(_) =>
  }

  /** In every run from a new session, whatever loss events and re-bound priors come between:
      the starvation and SNR counters are the number of consecutive windows that were starved
      or failed, the predictive one of consecutive windows with an SNR that foretold a failure,
      the probe's of consecutive clean windows at this target, the settle counter of those at
      this rung, and the slope is taken over the last SNR values. */
  lemma {:induction false} CountersCount(cfg: PolicyConfig, prior: Prior, es: seq<Event>)
    requires prior.Valid() && ValidRun(es)
    ensures Fresh(cfg, prior).Valid(cfg)
    ensures var p, log := RunPolicy(cfg, Fresh(cfg, prior), es), Log(cfg, Fresh(cfg, prior), es);
      Counts(cfg, p, log) && Streaks(p, log)
  {
    BootValid(cfg.sel);
    hide Step, MarksOf, Sel.Valid, Boot;
    var p := Fresh(cfg, prior);
    if es != [] {
      var n := |es| - 1;
      CountersCount(cfg, prior, es[..n]);
      StepCounts(cfg, RunPolicy(cfg, p, es[..n]), es[n], Log(cfg, p, es[..n]));
    }
  }

  // ---- starvation lowers the rung -------------------------------------------------------------------

  /** After starvationWindows starved windows in a row the rung goes down, once the cooldown is
      over and with a positive minimum time between changes. */
  lemma StarvationLowers(cfg: PolicyConfig, prior: Prior, es: seq<Event>, g: Signals)
    requires prior.Valid() && ValidRun(es) && Fresh(cfg, prior).Valid(cfg) && cfg.sel.minBetweenMs > 0
    requires var p := RunPolicy(cfg, Fresh(cfg, prior), es);
      p.sel.current > 0 && p.sinceDemote + 1 >= cfg.sel.cooldownWindows
    requires var log := Log(cfg, Fresh(cfg, prior), es);
      g.starvedW && |log| + 1 >= cfg.sel.starvationWindows
      && forall i :: |log| + 1 - cfg.sel.starvationWindows <= i < |log| && 0 <= i ==> log[i].starved
    ensures var p := RunPolicy(cfg, Fresh(cfg, prior), es); Tick(cfg, p, g).sel.current == p.sel.current - 1
  {
    hide Tick, Log, Streaks, Outside, Undone, Rises, Asked, Sel.Valid, Tail, Fresh;
    var p0 := Fresh(cfg, prior);
    var p, log := RunPolicy(cfg, p0, es), Log(cfg, p0, es);
    CountersCount(cfg, prior, es);
    TailAtLeast(log, Starves, cfg.sel.starvationWindows - 1);
    RecentBounded(cfg, prior, es);
    TickExactly(cfg, p, g);
  }

  /** After snrDebounce windows in a row with the SNR under the rung's knee, the rung goes down,
      under the same conditions. */
  lemma SinkingLowers(cfg: PolicyConfig, prior: Prior, es: seq<Event>, g: Signals)
    requires prior.Valid() && ValidRun(es) && Fresh(cfg, prior).Valid(cfg) && cfg.sel.minBetweenMs > 0
    requires var p := RunPolicy(cfg, Fresh(cfg, prior), es);
      p.sel.current > 0 && p.sinceDemote + 1 >= cfg.sel.cooldownWindows && Sunk(cfg, p, g, p.sel.current)
    requires var log := Log(cfg, Fresh(cfg, prior), es);
      |log| + 1 >= cfg.sel.snrDebounce && forall i :: |log| + 1 - cfg.sel.snrDebounce <= i < |log| && 0 <= i ==> log[i].sinks
    ensures var p := RunPolicy(cfg, Fresh(cfg, prior), es); Tick(cfg, p, g).sel.current == p.sel.current - 1
  {
    hide Tick, Log, Streaks, Undone, Rises, Asked, Sel.Valid, Tail, Fresh, Sunk, Forecast, Reacts;
    var p0 := Fresh(cfg, prior);
    var p, log := RunPolicy(cfg, p0, es), Log(cfg, p0, es);
    CountersCount(cfg, prior, es);
    TailAtLeast(log, Sinks, cfg.sel.snrDebounce - 1);
    RecentBounded(cfg, prior, es);
    TickExactly(cfg, p, g);
  }

  lemma TailAtLeast(log: seq<Mark>, a: Ask, k: int)
    requires k <= |log| && forall i :: |log| - k <= i < |log| && 0 <= i ==> Says(log[i], a)
    ensures Tail(log, a) >= k
  {
  }

  lemma RecentBounded(cfg: PolicyConfig, prior: Prior, es: seq<Event>)
    requires prior.Valid() && ValidRun(es) && Fresh(cfg, prior).Valid(cfg)
    ensures |RunPolicy(cfg, Fresh(cfg, prior), es).sel.recent| <= 20
  {
    hide AllOps, RunPolicy, Run, Sel.Valid, Fresh;
    RunIsSelectorRun(cfg, prior, es);
    RecentIsLatest(cfg.sel, AllOps(cfg, Fresh(cfg, prior), es));
  }
}
