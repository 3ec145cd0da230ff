/** Whole runs of the policy: ticks, fast loss events and re-bound priors in any
    order. */
module PolicyRuns {
  import opened Common
  import opened Knee
  import opened Selector
  import opened SelectorHistory
  import opened Policy

  datatype Event = Window(g: Signals) | Loss(g: Signals) | Rebind(prior: Prior)

  predicate ValidEvent(e: Event) {
    e.Rebind? ==> e.prior.Valid()
  }

  function Step(cfg: PolicyConfig, p: Pol, e: Event): (r: Pol)
    requires p.Valid(cfg) && ValidEvent(e)
    ensures r.Valid(cfg)
  {
    match e
    case Window(g) => Tick(cfg, p, g)
    case Loss(g) => LossEvent(cfg, p, g)
    case Rebind(prior) => p.(prior := prior)
  }

  function RunPolicy(cfg: PolicyConfig, p: Pol, es: seq<Event>): (r: Pol)
    requires p.Valid(cfg) && forall i :: 0 <= i < |es| ==> ValidEvent(es[i])
    ensures r.Valid(cfg)
  {
    if es == [] then p else Step(cfg, RunPolicy(cfg, p, es[..|es| - 1]), es[|es| - 1])
  }

  // ---- one tick ----------------------------------------------------------------------------

  // Before the selector runs, at most one of the two outside demotes has fired.
  lemma PreparedMoves(cfg: PolicyConfig, p: Pol, g: Signals)
    requires p.Valid(cfg)
    ensures var q, start := Prepared(cfg, p, g), p.sel.current;
      && q.Valid(cfg) && q.sinceDemote == p.sinceDemote + 1 && q.prior == p.prior
      && (q.sel == p.sel || (q.sel.current == start - 1 && q.sel.lastChange == g.ts && q.sel.cleanDwell == 0 && CooldownOk(cfg, q)))
  {
  }

  lemma SelectMoves(cfg: SelectorConfig, s: Sel, x: Inputs)
    requires s.Valid(cfg)
    ensures var t := Select(cfg, s, x);
      && s.current as int - 1 <= t.current <= s.current + 1
      && (t.current < s.current ==> x.canDemote)
      && (t.current > s.current ==> x.ts - s.lastChange >= cfg.minBetweenMs && x.snr.Some? && (x.targetConfident ==> !x.targetBlocked))
  {
    hide Charged, Damper, SnapTarget, Cleared, Confirmed, Windowed, DemoteNote;
    BookkeptKeeps(cfg, Entered(s, x), x);
  }

  // The selector climbs straight back out of a demote made earlier in the tick.
  predicate Rebounds(cfg: PolicyConfig, p: Pol, g: Signals)
    requires p.Valid(cfg)
  {
    PreparedValid(cfg, p, g);
    var q, x := Prepared(cfg, p, g).sel, TickChoice(cfg, p, g);
    var b := Bookkept(cfg.sel, Entered(q, x), x);
    && cfg.sel.minBetweenMs <= 0 && !Emergency(cfg.sel, x) && !x.probeVeto && x.snr.Some?
    && !Damper(cfg.sel, b.flaps, b.recent, q.current + 1, g.ts, x.probeRelease).suppressed
    && b.memory.Valid()
    && Route(cfg.sel, q.current, g.ts, 1, x, SnapTarget(cfg.sel, b.memory, x.snr.value, g.ts, cfg.sel.maxMcs)) != Stay
  }

  lemma SelectAfterLower(cfg: SelectorConfig, s: Sel, x: Inputs)
    requires s.Valid(cfg) && s.current < cfg.maxMcs && s.lastChange == x.ts && s.cleanDwell == 0 && !x.canDemote
    ensures var b := Bookkept(cfg, Entered(s, x), x);
      && b.memory.Valid()
      && Select(cfg, s, x).current == s.current +
        if && cfg.minBetweenMs <= 0 && !Emergency(cfg, x) && !x.probeVeto && x.snr.Some?
           && !Damper(cfg, b.flaps, b.recent, s.current + 1, x.ts, x.probeRelease).suppressed
           && Route(cfg, s.current, x.ts, 1, x, SnapTarget(cfg, b.memory, x.snr.value, x.ts, cfg.maxMcs)) != Stay
        then 1 else 0
  {
    hide Damper, SnapTarget, Cleared, Confirmed, Windowed, Route;
    BookkeptKeeps(cfg, Entered(s, x), x);
  }

  /** A demote made before the selector runs stands exactly when the selector does not climb
      straight back; with a positive minimum time between changes it always stands. */
  lemma DemoteStandsExactly(cfg: PolicyConfig, p: Pol, g: Signals)
    requires p.Valid(cfg) && Prepared(cfg, p, g).sel.current < p.sel.current
    ensures Tick(cfg, p, g).sel.current == if Rebounds(cfg, p, g) then p.sel.current else p.sel.current - 1
    ensures cfg.sel.minBetweenMs > 0 ==> !Rebounds(cfg, p, g)
  {
    hide Prepared, Select, Taught, Confident, Unviable, Observed, ProbeDirty, SlopeOf, Bookkept, Entered, Emergency, Damper, Route, SnapTarget;
    PreparedMoves(cfg, p, g);
    SelectAfterLower(cfg.sel, Prepared(cfg, p, g).sel, TickChoice(cfg, p, g));
  }

  /** A tick moves at most one rung, no demote fires inside the cooldown, and with a positive
      minimum time between changes none made before the selector runs is undone by it. */
  lemma TickMoves(cfg: PolicyConfig, p: Pol, g: Signals)
    requires p.Valid(cfg)
    ensures var start, r := p.sel.current, Tick(cfg, p, g);
      && start as int - 1 <= r.sel.current <= start + 1
      && (cfg.sel.minBetweenMs > 0 && Prepared(cfg, p, g).sel.current < start ==> r.sel.current == start - 1)
      && (r.sel.current < start ==> p.sinceDemote + 1 >= cfg.sel.cooldownWindows && r.sinceDemote == 0)
      && (r.sel.current >= start ==> r.sinceDemote == p.sinceDemote + 1)
  {
    hide Prepared, Select, Taught, Confident, Unviable, Observed, ProbeDirty, SlopeOf, Sel.Valid;
    PreparedMoves(cfg, p, g);
    SelectMoves(cfg.sel, Prepared(cfg, p, g).sel, TickChoice(cfg, p, g));
  }

  lemma LossMoves(cfg: PolicyConfig, p: Pol, g: Signals)
    requires p.Valid(cfg)
    ensures var r := LossEvent(cfg, p, g);
      && p.sel.current as int - 1 <= r.sel.current <= p.sel.current
      && (r.sel.current < p.sel.current ==> p.sinceDemote >= cfg.sel.cooldownWindows && r.sinceDemote == 0)
      && (r.sel.current == p.sel.current ==> r.sinceDemote == p.sinceDemote)
  {
  }

  // ---- the shared cooldown over a run ----------------------------------------------------------

  ghost predicate ValidRun(es: seq<Event>) {
    forall i :: 0 <= i < |es| ==> ValidEvent(es[i])
  }

  function Ticks(es: seq<Event>): nat {
    if es == [] then 0 else Ticks(es[..|es| - 1]) + if es[|es| - 1].Window? then 1 else 0
  }

  // Events that lower the rung, over all paths: predictive, SNR, loss, emergency and fast.
  function Demotes(cfg: PolicyConfig, p: Pol, es: seq<Event>): nat
    requires p.Valid(cfg) && forall i :: 0 <= i < |es| ==> ValidEvent(es[i])
  {
    if es == [] then 0
    else
      var q := RunPolicy(cfg, p, es[..|es| - 1]);
      Demotes(cfg, p, es[..|es| - 1]) + if Step(cfg, q, es[|es| - 1]).sel.current < q.sel.current then 1 else 0
  }

  // The ticks that d demotes must have waited for.
  function Owed(cooldown: nat, d: nat): int { (d - 1) * cooldown }

  lemma OwedNext(cooldown: nat, d: nat)
    ensures Owed(cooldown, d + 1) == Owed(cooldown, d) + cooldown && Owed(cooldown, 1) == 0
    ensures d == 0 ==> Owed(cooldown, d) <= 0
  {
  }

  lemma {:induction false} DemotesPaidFor(cfg: PolicyConfig, p: Pol, es: seq<Event>)
    requires p.Valid(cfg) && ValidRun(es)
    ensures var d := Demotes(cfg, p, es);
      d >= 1 ==> Ticks(es) >= Owed(cfg.sel.cooldownWindows, d) + RunPolicy(cfg, p, es).sinceDemote
  {
    hide Owed, Tick, LossEvent, Sel.Valid, Prior.Valid;
    if es != [] {
      var n := |es| - 1;
      DemotesPaidFor(cfg, p, es[..n]);
      EventMoves(cfg, RunPolicy(cfg, p, es[..n]), es[n]);
      OwedNext(cfg.sel.cooldownWindows, Demotes(cfg, p, es[..n]));
    }
  }

  // What one event does to the cooldown counter.
  lemma EventMoves(cfg: PolicyConfig, p: Pol, e: Event)
    requires p.Valid(cfg) && ValidEvent(e)
    ensures var r, tick := Step(cfg, p, e), if e.Window? then 1 else 0;
      if r.sel.current < p.sel.current
      then p.sinceDemote + tick >= cfg.sel.cooldownWindows && r.sinceDemote == 0
      else r.sinceDemote == p.sinceDemote + tick
  {
    hide Tick, LossEvent, Sel.Valid, Prior.Valid;
    match e
    case Window(g) => TickMoves(cfg, p, g);
    case Loss(g) => LossMoves(cfg, p, g);
    case Rebind(_) =>
  }

  /** However ticks and loss events interleave, D demotes need (D - 1) times the
      cooldown in ticks. */
  lemma CooldownHolds(cfg: PolicyConfig, p: Pol, es: seq<Event>)
    requires p.Valid(cfg) && ValidRun(es)
    ensures Ticks(es) >= (Demotes(cfg, p, es) - 1) * cfg.sel.cooldownWindows
  {
    hide Demotes, Ticks, RunPolicy, Sel.Valid, Prior.Valid;
    DemotesPaidFor(cfg, p, es);
    OwedNext(cfg.sel.cooldownWindows, Demotes(cfg, p, es));
  }

  // ---- a tick that climbs straight back -------------------------------------------------------------

  // The defaults but for the top rung, the two times, the dwell and the slope gate, all within
  // what the ground station's schema accepts.
  function Eager(): PolicyConfig {
    PolicyConfig(
      SelectorConfig(0.05, 0.80, 1, 0, 0, 5, 3, 2, 1.0, 1.5, 2000, 2.0, 10000, 30, 1, -10.0, 10000, 4.0, 3.0, 60000, 3.0, 60000),
      PriorConfig(5, 0.05, 0.25, 0.05, 8.0, 0.9995, 3, 10, 1.0, 3, 1.5))
  }

  // A stored knee of 10 dB at rung 1.
  function Learned(): Prior {
    Prior([None, Some(10.0), None, None, None, None, None, None], [0.0, 9.0, 0.0, 0.0, 0.0, 0.0, 0.0, 0.0])
  }

  function Quiet(snr: real, ts: int): Signals { Signals(Some(snr), None, 0.0, 0.0, false, ts, map[]) }

  lemma KneeAtOne()
    ensures Effective(Eager().prior, Learned(), 1) == Some(10.0) && Effective(Eager().prior, Learned(), 0) == None
  {
    assert Running(Eager().prior, Learned(), 1) == None;
  }

  // At the top rung after k clean windows.
  predicate Cruising(p: Pol, k: nat) {
    && p.Valid(Eager()) && p.sel.current == 1 && p.prior == Learned() && p.sel.flaps == Table(map[], map[], map[], map[])
    && p.starvation == 0 && p.sinceDemote >= 3 && |p.window| == k && p.ticksAtMcs <= k
  }

  // A window that does not demote yet only moves the counters on.
  lemma CruiseOn(p: Pol, k: nat, snr: real, ts: int, slope: real)
    requires Cruising(p, k) && k <= 3 && snr >= 11.0 && p.predictCount <= 1 && LsqSlope(p.window + [snr]) == slope
    ensures var r := Tick(Eager(), p, Quiet(snr, ts));
      && Cruising(r, k + 1) && r.window == p.window + [snr]
      && r.predictCount == if snr + slope * 3.0 < 8.5 && -slope * 3.0 >= 1.0 then p.predictCount + 1 else 0
  {
    hide LsqSlope, Confirmed, SnapTarget, Windowed, Effective;
    KneeAtOne();
  }

  lemma Snoc(s: seq<real>, v: real, meanX: real, meanY: real)
    ensures Sum(s + [v]) == Sum(s) + v
    ensures Covariance(s + [v], meanX, meanY) == Covariance(s, meanX, meanY) + (|s| as real - meanX) * (v - meanY)
    ensures Variance(|s| + 1, meanX) == Variance(|s|, meanX) + (|s| as real - meanX) * (|s| as real - meanX)
  {
    assert (s + [v])[..|s|] == s;
  }

  // The terms of up to four samples.
  lemma Terms(a: real, b: real, c: real, d: real, meanX: real, meanY: real)
    ensures Sum([a, b]) == a + b && Sum([a, b, c]) == a + b + c && Sum([a, b, c, d]) == a + b + c + d
    ensures var two := (0.0 - meanX) * (a - meanY) + (1.0 - meanX) * (b - meanY);
      var three := two + (2.0 - meanX) * (c - meanY);
      && Covariance([a, b], meanX, meanY) == two && Covariance([a, b, c], meanX, meanY) == three
      && Covariance([a, b, c, d], meanX, meanY) == three + (3.0 - meanX) * (d - meanY)
    ensures var two := (0.0 - meanX) * (0.0 - meanX) + (1.0 - meanX) * (1.0 - meanX);
      var three := two + (2.0 - meanX) * (2.0 - meanX);
      && Variance(2, meanX) == two && Variance(3, meanX) == three && Variance(4, meanX) == three + (3.0 - meanX) * (3.0 - meanX)
  {
    hide Sum, Covariance, Variance;
    Snoc([], a, meanX, meanY);
    Snoc([a], b, meanX, meanY);
    Snoc([a, b], c, meanX, meanY);
    Snoc([a, b, c], d, meanX, meanY);
    NoTerms(meanX, meanY);
    assert [] + [a] == [a] && [a] + [b] == [a, b] && [a, b] + [c] == [a, b, c] && [a, b, c] + [d] == [a, b, c, d];
  }

  lemma NoTerms(meanX: real, meanY: real)
    ensures Sum([]) == 0.0 && Covariance([], meanX, meanY) == 0.0 && Variance(0, meanX) == 0.0
  {
  }

  lemma Slopes()
    ensures LsqSlope([40.0]) == 0.0 && LsqSlope([40.0, 30.0]) == -10.0 && LsqSlope([40.0, 30.0, 20.0]) == -10.0
    ensures LsqSlope([40.0, 30.0, 20.0, 12.0]) == -9.4
  {
    hide Sum, Covariance, Variance;
    Terms(40.0, 30.0, 20.0, 12.0, 0.5, 35.0);
    Terms(40.0, 30.0, 20.0, 12.0, 1.0, 30.0);
    Terms(40.0, 30.0, 20.0, 12.0, 1.5, 25.5);
  }

  // The fourth window brings the count to the debounce.
  lemma CruiseEnds(p: Pol, ts: int)
    requires Cruising(p, 3) && p.predictCount == 2 && p.window == [40.0, 30.0, 20.0] && ts >= 0
    ensures Prepared(Eager(), p, Quiet(12.0, ts)).sel.current == 0 && Rebounds(Eager(), p, Quiet(12.0, ts))
  {
    hide LsqSlope, SnapTarget, Windowed, Effective;
    KneeAtOne();
    Slopes();
    assert [40.0, 30.0, 20.0] + [12.0] == [40.0, 30.0, 20.0, 12.0];
  }

  /** With no minimum time between changes a tick can undo its own predictive demote: from a
      new session, three windows of falling SNR and a fourth. */
  lemma EagerRebounds()
    ensures var es := [Window(Quiet(40.0, 100)), Window(Quiet(30.0, 200)), Window(Quiet(20.0, 300))];
      var p, g := RunPolicy(Eager(), Fresh(Eager(), Learned()), es), Quiet(12.0, 400);
      && p.sel.current == 1 && Prepared(Eager(), p, g).sel.current == 0 && Tick(Eager(), p, g).sel.current == 1
  {
    hide LsqSlope, Tick, Prepared, Rebounds;
    var p0 := Fresh(Eager(), Learned());
    Slopes();
    assert [] + [40.0] == [40.0] && [40.0] + [30.0] == [40.0, 30.0] && [40.0, 30.0] + [20.0] == [40.0, 30.0, 20.0];
    CruiseOn(p0, 0, 40.0, 100, 0.0);
    var p1 := Tick(Eager(), p0, Quiet(40.0, 100));
    CruiseOn(p1, 1, 30.0, 200, -10.0);
    var p2 := Tick(Eager(), p1, Quiet(30.0, 200));
    CruiseOn(p2, 2, 20.0, 300, -10.0);
    var p3 := Tick(Eager(), p2, Quiet(20.0, 300));
    CruiseEnds(p3, 400);
    DemoteStandsExactly(Eager(), p3, Quiet(12.0, 400));
    ThreeWindows(Eager(), p0, Quiet(40.0, 100), Quiet(30.0, 200), Quiet(20.0, 300));
  }

  lemma ThreeWindows(cfg: PolicyConfig, p: Pol, a: Signals, b: Signals, c: Signals)
    requires p.Valid(cfg)
    ensures RunPolicy(cfg, p, [Window(a), Window(b), Window(c)]) == Tick(cfg, Tick(cfg, Tick(cfg, p, a), b), c)
  {
    hide Tick, RunPolicy, Sel.Valid, Prior.Valid;
    var x, y, z := Window(a), Window(b), Window(c);
    assert [] + [x] == [x] && [x] + [y] == [x, y] && [x, y] + [z] == [x, y, z];
    RunSnoc(cfg, p, [], x);
    RunSnoc(cfg, p, [x], y);
    RunSnoc(cfg, p, [x, y], z);
    RunNone(cfg, p);
  }

  lemma RunNone(cfg: PolicyConfig, p: Pol)
    requires p.Valid(cfg)
    ensures RunPolicy(cfg, p, []) == p
  {
  }

  lemma RunSnoc(cfg: PolicyConfig, p: Pol, es: seq<Event>, e: Event)
    requires p.Valid(cfg) && ValidRun(es) && ValidEvent(e)
    ensures ValidRun(es + [e]) && RunPolicy(cfg, p, es + [e]) == Step(cfg, RunPolicy(cfg, p, es), e)
  {
    hide Step, Sel.Valid, Prior.Valid;
    assert (es + [e])[..|es|] == es;
  }

  // ---- knee headroom ------------------------------------------------------------------------------

  /** No promote enters a rung whose confident knee the SNR does not clear by
      promoteMarginDb. */
  lemma PromoteHeadroom(cfg: PolicyConfig, p: Pol, g: Signals)
    requires p.Valid(cfg) && Tick(cfg, p, g).sel.current > p.sel.current
    ensures var r := Tick(cfg, p, g).sel.current;
      && g.snr.Some?
      && (r <= MAX_MCS && Effective(cfg.prior, p.prior, r).Some? ==>
            g.snr.value >= Effective(cfg.prior, p.prior, r).value + cfg.sel.promoteMarginDb)
  {
    hide Prepared, Select, Taught, Observed, ProbeDirty, SlopeOf, Sel.Valid, Effective, CooldownOk;
    PreparedMoves(cfg, p, g);
    SelectMoves(cfg.sel, Prepared(cfg, p, g).sel, TickChoice(cfg, p, g));
  }

  // ---- policy runs are selector runs ------------------------------------------------------------------

  function LowerIf(b: bool, ts: int): seq<Op> { if b then [Lower(ts)] else [] }

  function OpsOf(cfg: PolicyConfig, p: Pol, e: Event): seq<Op>
    requires p.Valid(cfg) && ValidEvent(e)
  {
    match e
    case Window(g) =>
      var c := Counted(cfg, p, g);
      StagesValid(cfg, p, g);
      LowerIf(PredictLowers(cfg, c, g), g.ts) + LowerIf(SnrLowers(cfg, PredictStage(cfg, c, g), g, p.sel.current), g.ts)
        + [Choose(TickChoice(cfg, p, g))]
    case Loss(g) => if LossGate(cfg, p, g) then [Choose(LossInputs(g))] else []
    case Rebind(_) => []
  }

  function AllOps(cfg: PolicyConfig, p: Pol, es: seq<Event>): seq<Op>
    requires p.Valid(cfg) && forall i :: 0 <= i < |es| ==> ValidEvent(es[i])
  {
    if es == [] then []
    else AllOps(cfg, p, es[..|es| - 1]) + OpsOf(cfg, RunPolicy(cfg, p, es[..|es| - 1]), es[|es| - 1])
  }

  lemma {:induction false} RunFromConcat(cfg: SelectorConfig, h: Hist, a: seq<Op>, b: seq<Op>)
    requires h.sel.Valid(cfg)
    ensures RunFrom(cfg, h, a + b) == RunFrom(cfg, RunFrom(cfg, h, a), b)
  {
    hide Extend, Sel.Valid;
    if b == [] {
      assert a + b == a;
    } else {
      var n := |b| - 1;
      RunFromConcat(cfg, h, a, b[..n]);
      assert (a + b)[..|a| + n] == a + b[..n];
    }
  }

  lemma RunFromOne(cfg: SelectorConfig, h: Hist, o: Op)
    requires h.sel.Valid(cfg)
    ensures RunFrom(cfg, h, [o]) == Extend(cfg, h, o)
  {
  }

  lemma RunFromLower(cfg: SelectorConfig, h: Hist, b: bool, ts: int)
    requires h.sel.Valid(cfg)
    ensures RunFrom(cfg, h, LowerIf(b, ts)) == Hist(if b then LowerOne(cfg, h.sel, ts) else h.sel, h.recs)
  {
  }

  // One event does to the selector what its operations do.
  lemma StepIsOps(cfg: PolicyConfig, p: Pol, e: Event, recs: seq<Rec>)
    requires p.Valid(cfg) && ValidEvent(e)
    ensures RunFrom(cfg.sel, Hist(p.sel, recs), OpsOf(cfg, p, e)).sel == Step(cfg, p, e).sel
  {
    hide Sel.Valid, RunFrom;
    match e
    case Window(g) => TickIsOps(cfg, p, g, recs);
    case Loss(g) =>
      if LossGate(cfg, p, g) { RunFromOne(cfg.sel, Hist(p.sel, recs), Choose(LossInputs(g))); } else { RunFromNone(cfg.sel, Hist(p.sel, recs)); }
    case Rebind(_) => RunFromNone(cfg.sel, Hist(p.sel, recs));
  }

  lemma RunFromNone(cfg: SelectorConfig, h: Hist)
    requires h.sel.Valid(cfg)
    ensures RunFrom(cfg, h, []) == h
  {
  }

  lemma TickIsOps(cfg: PolicyConfig, p: Pol, g: Signals, recs: seq<Rec>)
    requires p.Valid(cfg)
    ensures RunFrom(cfg.sel, Hist(p.sel, recs), OpsOf(cfg, p, Window(g))).sel == Tick(cfg, p, g).sel
  {
    hide Sel.Valid, RunFrom, PredictLowers, SnrLowers, LowerOne, Select, RecOf, LowerIf, ProbeClean, Predicts, SnrFails, Pushed;
    var c, start := Counted(cfg, p, g), p.sel.current;
    StagesValid(cfg, p, g);
    PreparedValid(cfg, p, g);
    var p1 := PredictStage(cfg, c, g);
    var b1, b2 := PredictLowers(cfg, c, g), SnrLowers(cfg, p1, g, start);
    var h0 := Hist(p.sel, recs);
    var a1, a2, a3 := LowerIf(b1, g.ts), LowerIf(b2, g.ts), [Choose(TickChoice(cfg, p, g))];
    RunFromConcat(cfg.sel, h0, a1 + a2, a3);
    RunFromConcat(cfg.sel, h0, a1, a2);
    RunFromLower(cfg.sel, h0, b1, g.ts);
    RunFromLower(cfg.sel, Hist(p1.sel, recs), b2, g.ts);
    RunFromOne(cfg.sel, Hist(Prepared(cfg, p, g).sel, recs), Choose(TickChoice(cfg, p, g)));
  }

  // ---- every policy run is justified ----------------------------------------------------------------------

  function TimeOf(e: Event): int
    requires !e.Rebind?
  {
    e.g.ts
  }

  ghost predicate ClockedEvents(es: seq<Event>) {
    forall i, j :: 0 <= i < j < |es| && !es[i].Rebind? && !es[j].Rebind? ==> TimeOf(es[i]) <= TimeOf(es[j])
  }

  // The operations carry the times of the events they come from.
  ghost predicate TimesFrom(ops: seq<Op>, es: seq<Event>) {
    forall k :: 0 <= k < |ops| ==> TimeAmong(es, TsOf(ops[k]))
  }

  ghost predicate TimeAmong(es: seq<Event>, t: int) {
    exists i :: 0 <= i < |es| && !es[i].Rebind? && TimeOf(es[i]) == t
  }

  ghost predicate AllAt(ops: seq<Op>, e: Event) {
    forall k :: 0 <= k < |ops| ==> !e.Rebind? && TsOf(ops[k]) == TimeOf(e)
  }

  lemma OpsTimes(cfg: PolicyConfig, p: Pol, e: Event)
    requires p.Valid(cfg) && ValidEvent(e)
    ensures AllAt(OpsOf(cfg, p, e), e)
  {
    hide PredictLowers, SnrLowers, Prepared, Sel.Valid, Prior.Valid, PredictStage, Confident, Unviable, SlopeOf, ProbeDirty,
         CooldownOk, LowerIf, AllAt, LossGate;
    NoOpsTimes(e);
    match e
    case Window(g) =>
      var c := Counted(cfg, p, g);
      StagesValid(cfg, p, g);
      TickOpsTimes(PredictLowers(cfg, c, g), SnrLowers(cfg, PredictStage(cfg, c, g), g, p.sel.current), TickChoice(cfg, p, g), g);
    case Loss(g) => TickOpsTimes(false, false, LossInputs(g), g);
    case Rebind(_) =>
  }

  lemma NoOpsTimes(e: Event)
    ensures AllAt([], e)
  {
  }

  lemma TickOpsTimes(b1: bool, b2: bool, x: Inputs, g: Signals)
    requires x.ts == g.ts
    ensures AllAt(LowerIf(b1, g.ts) + LowerIf(b2, g.ts) + [Choose(x)], Window(g)) && AllAt([Choose(x)], Loss(g))
  {
  }

  lemma {:induction false} AllOpsClocked(cfg: PolicyConfig, p: Pol, es: seq<Event>)
    requires p.Valid(cfg) && ValidRun(es) && ClockedEvents(es)
    ensures Clocked(AllOps(cfg, p, es)) && TimesFrom(AllOps(cfg, p, es), es)
  {
    hide OpsOf, Step, Sel.Valid, TsOf, Clocked, TimesFrom, AllAt;
    if es != [] {
      var n := |es| - 1;
      var q := RunPolicy(cfg, p, es[..n]);
      AllOpsClocked(cfg, p, es[..n]);
      OpsTimes(cfg, q, es[n]);
      ClockedExtends(AllOps(cfg, p, es[..n]), OpsOf(cfg, q, es[n]), es);
    } else {
      ClockedNone();
    }
  }

  lemma ClockedNone()
    ensures Clocked([]) && TimesFrom([], [])
  {
  }

  lemma ClockedExtends(a: seq<Op>, b: seq<Op>, es: seq<Event>)
    requires es != [] && ClockedEvents(es) && Clocked(a) && TimesFrom(a, es[..|es| - 1])
    requires AllAt(b, es[|es| - 1])
    ensures Clocked(a + b) && TimesFrom(a + b, es)
  {
  }

  lemma {:induction false} RunIsSelectorRun(cfg: PolicyConfig, prior: Prior, es: seq<Event>)
    requires prior.Valid() && Fresh(cfg, prior).Valid(cfg) && ValidRun(es)
    ensures Run(cfg.sel, AllOps(cfg, Fresh(cfg, prior), es)).sel == RunPolicy(cfg, Fresh(cfg, prior), es).sel
  {
    hide OpsOf, Step, Sel.Valid, Extend;
    var p := Fresh(cfg, prior);
    if es != [] {
      var n := |es| - 1;
      RunIsSelectorRun(cfg, prior, es[..n]);
      var q := RunPolicy(cfg, p, es[..n]);
      var h := Run(cfg.sel, AllOps(cfg, p, es[..n]));
      RunFromConcat(cfg.sel, Hist(Boot(cfg.sel), []), AllOps(cfg, p, es[..n]), OpsOf(cfg, q, es[n]));
      StepIsOps(cfg, q, es[n], h.recs);
    }
  }

  /** Every run of the policy, whatever interleaving of ticks, loss events and re-bound
      priors: its selector log is sound, so every promote is justified by history and
      every pair of flap charges is spaced by the damper. */
  lemma PolicyRunSound(cfg: PolicyConfig, prior: Prior, es: seq<Event>)
    requires prior.Valid() && Fresh(cfg, prior).Valid(cfg) && ValidRun(es) && ClockedEvents(es)
    ensures var ops := AllOps(cfg, Fresh(cfg, prior), es);
      && Run(cfg.sel, ops).sel == RunPolicy(cfg, Fresh(cfg, prior), es).sel
      && Clocked(ops)
      && Sound(cfg.sel, Run(cfg.sel, ops), if ops == [] then 0 else TsOf(ops[|ops| - 1]))
  {
    hide AllOps, RunPolicy, Run, Sound, Sel.Valid, Fresh;
    RunIsSelectorRun(cfg, prior, es);
    AllOpsClocked(cfg, Fresh(cfg, prior), es);
    var ops := AllOps(cfg, Fresh(cfg, prior), es);
    RunSound(cfg.sel, ops, if ops == [] then 0 else TsOf(ops[|ops| - 1]));
  }
}
