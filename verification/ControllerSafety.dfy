/** The encoder never outruns the radio: what every step of the apply loop keeps,
    over every sequence of datagrams, ticks, gap expirations and reloads. */
module ControllerSafety {
  import opened Common
  import opened Wire
  import opened Rate
  import opened Backends
  import opened Controller
  import Watchdog
  import Channel

  // ---- the invariant -----------------------------------------------------------------

  // The encoder cache tells the truth about the encoder.
  predicate EncKnown(w: World) {
    w.ctl.enc.lastValid ==> w.dev.encBitrate == w.ctl.enc.lastBitrate
  }

  // Both backends hold the same decision d.
  predicate Settled(w: World, d: Decision) {
    w.dev.tunedFor == Some(d) && w.dev.encBitrate == d.bitrateKbps
  }

  predicate PhaseFacts(w: World) {
    var c, dev := w.ctl, w.dev;
    match c.phase
    case Idle =>
      if Baseline(c.lastTx) then c.lastEnc == c.lastTx && Settled(w, c.lastTx)
      else !Baseline(c.lastEnc) && (dev.tunedFor.Some? ==> Settled(w, dev.tunedFor.value))
    case UpGap =>
      && Baseline(c.lastTx) && Baseline(c.lastEnc)
      && c.pending == c.lastTx && dev.tunedFor == Some(c.lastTx)
      && dev.encBitrate == c.lastEnc.bitrateKbps < c.pending.bitrateKbps
    case DownGap =>
      && Baseline(c.lastTx) && Baseline(c.lastEnc)
      && c.pending == c.lastEnc && dev.tunedFor == Some(c.lastTx)
      && dev.encBitrate == c.pending.bitrateKbps < c.lastTx.bitrateKbps
  }

  /** What holds between steps: the encoder is told at most the bitrate of the
      decision the radio is set up for; when idle the two hold the same decision, or
      both baselines are blank and the two hold the same failsafe. */
  predicate Ordered(w: World) {
    w.ctl.Valid() && EncKnown(w) && PhaseFacts(w) && !w.dev.Overdriven()
      && (w.ctl.phase != Idle ==> w.ctl.pending.bitrateKbps > 0 && w.ctl.pending.fps > 0)
  }

  // ---- one dispatch, one encoder push ----------------------------------------------------

  // Writes other than the encoder's and the tuning mark do not touch the comparison.
  lemma SendNeutral(dev: Device, go: bool, x: Write)
    requires !x.SetEncoder? && !x.Tuned?
    ensures var e := dev.SendIf(go, x);
      && e.encBitrate == dev.encBitrate && e.tunedFor == dev.tunedFor
      && e.overrun == (dev.overrun || (go && dev.Overdriven()))
  {
  }

  lemma DispatchEffect(lazy: bool, w: World, d: Decision)
    requires !w.dev.Overdriven()
    ensures var e := DispatchTx(lazy, w, d).dev;
      && e.encBitrate == w.dev.encBitrate && e.tunedFor == Some(d)
      && e.overrun == (w.dev.overrun || w.dev.encBitrate > d.bitrateKbps)
  {
    hide Device.SendIf, FixedSends, AutoSends, ProbeSends, FecSends, RadioSends;
    var c := ReconcileProbe(w.ctl);
    var x, y := SetFec(d.k, d.n), SetRadio(Phy(c.cfg.stbc, c.cfg.ldpc, d.bandwidth, d.mcs));
    var d1 := w.dev.SendIf(FecSends(lazy, c, d), x);
    SendNeutral(w.dev, FecSends(lazy, c, d), x);
    var d2 := d1.SendIf(RadioSends(lazy, c, d), y);
    SendNeutral(d1, RadioSends(lazy, c, d), y);
    var w3 := ProbeStep(lazy, World(c, d2), d);
    SendNeutral(d2, ProbeSends(lazy, c, d), SetProbe(ProbePhy(c.cfg, d)));
    var t := w3.ctl.tx;
    SendNeutral(w3.dev, FixedSends(lazy, t, d.txPowerDbm), SetTxPower(t.iface, Fixed(d.txPowerDbm)));
    SendNeutral(w3.dev, AutoSends(lazy, t), SetTxPower(t.iface, Auto));
  }

  lemma SafeEffect(w: World)
    requires !w.dev.Overdriven()
    ensures var e := DispatchSafe(true, w).dev;
      && e.encBitrate == w.dev.encBitrate && e.tunedFor == Some(Failsafe(w.ctl.cfg))
      && e.overrun == (w.dev.overrun || w.dev.encBitrate > Failsafe(w.ctl.cfg).bitrateKbps)
  {
    hide Device.SendIf, FixedSends, AutoSends, ProbeSends, Failsafe;
    var c := ReconcileProbe(w.ctl);
    var d := Failsafe(c.cfg);
    var d2 := w.dev.Send(SetFec(d.k, d.n)).Send(SetRadio(Phy(c.cfg.stbc, c.cfg.ldpc, d.bandwidth, d.mcs)));
    var w3 := ProbeStep(false, World(c, d2), d);
    SendNeutral(d2, ProbeSends(false, c, d), SetProbe(ProbePhy(c.cfg, d)));
    var t := w3.ctl.tx;
    var lazy := !c.cfg.txPowerControl;
    SendNeutral(w3.dev, FixedSends(lazy, t, d.txPowerDbm), SetTxPower(t.iface, Fixed(d.txPowerDbm)));
    SendNeutral(w3.dev, AutoSends(lazy, t), SetTxPower(t.iface, Auto));
  }

  // A push, sent or suppressed, leaves the encoder at the decision's bitrate.
  lemma EncEffect(w: World, d: Decision)
    requires w.ctl.Valid() && EncKnown(w) && d.bitrateKbps > 0
    ensures var w' := EncStep(true, w, d);
      && w'.dev.encBitrate == d.bitrateKbps && w'.dev.tunedFor == w.dev.tunedFor && EncKnown(w')
      && ((w.dev.tunedFor.Some? ==> d.bitrateKbps <= w.dev.tunedFor.value.bitrateKbps) ==> w'.dev.overrun == w.dev.overrun)
      && w'.ctl == w.ctl.(enc := w'.ctl.enc, lastEnc := d) && w'.ctl.enc.roi == w.ctl.enc.roi
  {
  }

  // ---- every step keeps the invariant -----------------------------------------------------

  // Whether a decision that moves the bitrate is applied in two phases.
  predicate Stages(c: Ctl) { CanStagger(c) && Baseline(c.lastEnc) }

  lemma ApplyKeeps(w: World, d: Decision)
    requires Ordered(w) && Baseline(d) && d.bitrateKbps > 0 && d.fps > 0
    ensures Ordered(ApplyDecision(true, w, d))
    ensures ApplyDecision(true, w, d).dev.overrun <==> w.dev.overrun || (!Stages(w.ctl) && w.dev.encBitrate > d.bitrateKbps)
    ensures !Stages(w.ctl) ==> var r := ApplyDecision(true, w, d); r.ctl.phase == Idle && r.ctl.lastTx == d && Settled(r, d)
  {
    hide DispatchTx, EncStep, Config.Valid, RoiQp;
    var w0 := World(w.ctl.(phase := Idle), w.dev);
    ApplyValid(true, w, d);
    DispatchFrame(true, w0, d);
    DispatchEffect(true, w0, d);
    EncEffect(w0, d);
    var w1 := DispatchTx(true, w0, d);
    EncEffect(w1, d);
  }

  lemma DerivedBaseline(cfg: Config, d: Decision)
    requires cfg.Valid()
    ensures Derive(cfg, d).magic == d.magic && Derive(cfg, d).bitrateKbps > 0 && Derive(cfg, d).fps > 0 && Derive(cfg, d).mcs == d.mcs
    ensures Derive(cfg, d).bitrateKbps == RateAt(cfg, d.mcs)
  {
  }

  predicate Accepts(w: World, e: Event) {
    e.Datagram? && Channel.Front(w.ctl.dedup, e.bytes).got.Accepted?
  }

  predicate Trips(w: World, e: Event) {
    e.Tick? && Watchdog.Trips(w.ctl.wd, e.nowMs)
  }

  // The decision an accepted datagram puts to the backends.
  function Applied(w: World, e: Event): Decision
    requires Accepts(w, e)
  {
    Derive(w.ctl.cfg, Channel.Front(w.ctl.dedup, e.bytes).got.d)
  }

  lemma DatagramKeeps(w: World, e: Event)
    requires Ordered(w) && Accepts(w, e)
    ensures Ordered(Step(true, w, e))
    ensures Step(true, w, e).dev.overrun <==>
      w.dev.overrun || (!Stages(w.ctl) && w.dev.encBitrate > Applied(w, e).bitrateKbps)
    ensures !Stages(w.ctl) ==>
      var r := Step(true, w, e); r.ctl.phase == Idle && r.ctl.lastTx == Applied(w, e) && Settled(r, Applied(w, e))
  {
    hide Channel.Front, Derive, ApplyDecision, Config.Valid, RoiQp;
    var f := Channel.Front(w.ctl.dedup, e.bytes);
    DerivedBaseline(w.ctl.cfg, f.got.d);
    var w0 := World(w.ctl.(dedup := f.state), w.dev);
    ApplyKeeps(w0, Derive(w.ctl.cfg, f.got.d));
  }

  lemma TripKeeps(w: World, e: Event)
    requires Ordered(w) && Trips(w, e)
    ensures Ordered(Step(true, w, e))
    ensures var w' := Step(true, w, e);
      && Settled(w', Failsafe(w.ctl.cfg)) && w'.ctl.phase == Idle && !Baseline(w'.ctl.lastTx) && w'.ctl.cfg == w.ctl.cfg
      && w'.dev.overrun == (w.dev.overrun || w.dev.encBitrate > Failsafe(w.ctl.cfg).bitrateKbps)
  {
    hide DispatchSafe, Failsafe, Config.Valid, RoiQp;
    var w0 := World(w.ctl.(phase := Idle, wd := w.ctl.wd.(tripped := true)), w.dev);
    SafeFrame(true, w0);
    SafeEffect(w0);
  }

  lemma GapKeeps(w: World)
    requires Ordered(w)
    ensures Ordered(OnGap(true, w))
    ensures OnGap(true, w).dev.overrun == w.dev.overrun
  {
    hide DispatchTx, EncStep, Config.Valid, RoiQp;
    match w.ctl.phase
    case UpGap =>
      EncEffect(w, w.ctl.pending);
    case DownGap =>
      DispatchFrame(true, w, w.ctl.pending);
      DispatchEffect(true, w, w.ctl.pending);
    case Idle =>
  }

  lemma ReloadKeeps(w: World, cfg: Config)
    requires Ordered(w) && ValidEvent(Reload(cfg))
    ensures Ordered(OnReload(true, w, cfg))
    ensures OnReload(true, w, cfg).dev.overrun == w.dev.overrun
  {
  }

  /** Every event keeps the order, whatever phase it finds: a stale gap expiration
      that lands in a freshly armed gap included. */
  lemma StepKeeps(w: World, e: Event)
    requires Ordered(w) && ValidEvent(e)
    ensures Ordered(Step(true, w, e))
  {
    hide OnDatagram, OnTick, OnGap, OnReload, Ordered, Accepts, Trips;
    match e
    case Datagram(bytes, now) =>
      if Accepts(w, e) { DatagramKeeps(w, e); } else { QuietStep(w, e); }
    case Tick(now) =>
      if Trips(w, e) { TripKeeps(w, e); } else { QuietStep(w, e); }
    case Gap => GapKeeps(w);
    case Reload(cfg) => ReloadKeeps(w, cfg);
  }

  lemma QuietStep(w: World, e: Event)
    requires Ordered(w)
    requires (e.Datagram? && !Accepts(w, e)) || (e.Tick? && !Trips(w, e))
    ensures Step(true, w, e) == w
  {
  }

  // Untuned hardware: nothing is known of it until the first decision.
  predicate Boot(w: World) {
    w.ctl == Initial(w.ctl.cfg, w.ctl.gapTimer) && w.ctl.Valid() && w.dev.tunedFor == None
  }

  predicate ValidRun(es: seq<Event>) {
    forall i :: 0 <= i < |es| ==> ValidEvent(es[i])
  }

  lemma {:induction false} RunOrdered(w: World, es: seq<Event>)
    requires Boot(w) && ValidRun(es)
    ensures Ordered(Run(true, w, es))
  {
    hide Step, Config.Valid;
    if es != [] {
      RunOrdered(w, es[..|es| - 1]);
      StepKeeps(Run(true, w, es[..|es| - 1]), es[|es| - 1]);
    }
  }

  /** In every run: the encoder's bitrate is at most that of the decision last sent
      to the radio, and an idle controller holds one decision in both backends or
      has invalidated both baselines. */
  lemma EncoderNeverAhead(w: World, es: seq<Event>)
    requires Boot(w) && ValidRun(es)
    ensures var r := Run(true, w, es);
      && (r.dev.tunedFor.Some? ==> r.dev.encBitrate <= r.dev.tunedFor.value.bitrateKbps)
      && (r.ctl.phase == Idle ==>
            || (r.ctl.lastTx == r.ctl.lastEnc && Baseline(r.ctl.lastTx) && Settled(r, r.ctl.lastTx))
            || (!Baseline(r.ctl.lastTx) && !Baseline(r.ctl.lastEnc)))
  {
    RunOrdered(w, es);
    hide Run, Config.Valid;
  }

  // ---- between the writes of a step -----------------------------------------------------

  // The radio is narrowed while the encoder is still above what it will carry.
  predicate Ahead(w: World, e: Event) {
    || (Trips(w, e) && w.dev.encBitrate > RateAt(w.ctl.cfg, FAILSAFE_MCS))
    || (Accepts(w, e) && !Stages(w.ctl) && w.dev.encBitrate > Applied(w, e).bitrateKbps)
  }

  /** Exactly when some single write of a step leaves the encoder above the radio's
      decision: a trip, or a decision applied in one shot, that lowers the bitrate. */
  lemma OverrunsExactly(w: World, e: Event)
    requires Ordered(w) && ValidEvent(e)
    ensures Step(true, w, e).dev.overrun <==> w.dev.overrun || Ahead(w, e)
  {
    hide OnDatagram, OnTick, OnGap, OnReload, Ordered, Accepts, Trips, Stages, RateAt, Failsafe, Applied;
    match e
    case Datagram(bytes, now) =>
      KindsApart(w, e);
      if Accepts(w, e) { DatagramKeeps(w, e); } else { QuietStep(w, e); }
    case Tick(now) =>
      KindsApart(w, e);
      FailsafeRate(w.ctl.cfg);
      if Trips(w, e) { TripKeeps(w, e); } else { QuietStep(w, e); }
    case Gap =>
      KindsApart(w, e);
      GapKeeps(w);
    case Reload(cfg) =>
      KindsApart(w, e);
      ReloadKeeps(w, cfg);
  }

  lemma KindsApart(w: World, e: Event)
    ensures Accepts(w, e) ==> e.Datagram?
    ensures Trips(w, e) ==> e.Tick?
  {
  }

  ghost predicate AheadAt(w: World, es: seq<Event>, i: nat)
    requires w.ctl.Valid() && ValidRun(es) && i < |es|
  {
    Ahead(Run(true, w, es[..i]), es[i])
  }

  /** So in a run: some write put the encoder ahead exactly when some event did. */
  lemma {:induction false} RunOverrunsExactly(w: World, es: seq<Event>)
    requires Boot(w) && ValidRun(es)
    ensures Run(true, w, es).dev.overrun <==> w.dev.overrun || exists i :: 0 <= i < |es| && AheadAt(w, es, i)
  {
    hide Step, Config.Valid, Ahead, Ordered;
    if es != [] {
      var n := |es| - 1;
      var front := es[..n];
      RunOverrunsExactly(w, front);
      RunOrdered(w, front);
      OverrunsExactly(Run(true, w, front), es[n]);
      forall i | 0 <= i < n ensures AheadAt(w, front, i) == AheadAt(w, es, i) {
        assert front[..i] == es[..i];
      }
      assert AheadAt(w, es, n) == Ahead(Run(true, w, front), es[n]);
    }
  }

  /** A decision that is staged never puts the encoder ahead, whichever way it moves. */
  lemma StagedNeverOverruns(w: World, e: Event)
    requires Ordered(w) && Accepts(w, e)
    ensures Stages(w.ctl) ==> Step(true, w, e).dev.overrun == w.dev.overrun
  {
    KindsApart(w, e);
    OverrunsExactly(w, e);
    hide Step, Ordered, Accepts, Trips, Stages, RateAt, Applied;
  }

  /** A trip narrows the radio before it throttles the encoder, so it overruns
      exactly when the encoder was above the failsafe rate. */
  lemma TripOverrunsExactly(w: World, e: Event)
    requires Ordered(w) && Trips(w, e) && !w.dev.overrun
    ensures Step(true, w, e).dev.overrun <==> w.dev.encBitrate > RateAt(w.ctl.cfg, FAILSAFE_MCS)
  {
    KindsApart(w, e);
    OverrunsExactly(w, e);
    hide Step, Ordered, Accepts, Trips, Stages, RateAt, Applied;
  }

  lemma FailsafeRate(cfg: Config)
    ensures Failsafe(cfg).bitrateKbps == RateAt(cfg, FAILSAFE_MCS)
  {
  }
}
