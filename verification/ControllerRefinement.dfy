/** Diff-suppressed writes refine always-send: a controller that holds back every
    write its caches consider redundant leaves the hardware exactly as one that sends
    everything. */
module ControllerRefinement {
  import opened Common
  import opened Wire
  import opened Rate
  import opened Backends
  import opened Controller
  import opened ControllerSafety
  import Channel
  import Watchdog

  // ---- the caches tell the truth ------------------------------------------------------------

  predicate RadioTrue(last: Decision, dev: Device) {
    Baseline(last) ==> dev.fecK == last.k && dev.fecN == last.n && dev.radio.mcs == last.mcs && dev.radio.bandwidth == last.bandwidth
  }

  predicate ProbeTrue(last: int, dev: Device) {
    last != -1 ==> dev.probe.mcs == last
  }

  predicate TxTrue(t: Tx, dev: Device) {
    && (t.auto ==> t.current == None && t.iface in dev.txMode && dev.txMode[t.iface] == Auto)
    && (t.current.Some? ==> t.iface in dev.txMode && dev.txMode[t.iface] == Fixed(t.current.value))
  }

  predicate EncTrue(e: Enc, dev: Device) {
    e.lastValid ==> dev.encBitrate == e.lastBitrate && dev.roiQp == e.lastRoiQp && (e.lastFps != 0 ==> dev.encFps == e.lastFps)
  }

  predicate CachesTrue(w: World) {
    w.ctl.Valid() && RadioTrue(w.ctl.lastTx, w.dev) && ProbeTrue(w.ctl.lastProbe, w.dev) && TxTrue(w.ctl.tx, w.dev) && EncTrue(w.ctl.enc, w.dev)
  }

  /** The two controllers are in the same state and their devices hold the same
      settings. */
  predicate Agree(a: World, b: World) {
    a.ctl == b.ctl && SameSettings(a.dev, b.dev)
  }

  // ---- the parts of a dispatch ---------------------------------------------------------------

  predicate SameRadio(a: Device, b: Device) {
    a.fecK == b.fecK && a.fecN == b.fecN && a.radio == b.radio
  }

  predicate SameEncoder(a: Device, b: Device) {
    a.encBitrate == b.encBitrate && a.roiQp == b.roiQp && a.encFps == b.encFps
  }

  function RadioWrites(lazy: bool, dev: Device, c: Ctl, d: Decision): Device {
    dev.SendIf(FecSends(lazy, c, d), SetFec(d.k, d.n))
       .SendIf(RadioSends(lazy, c, d), SetRadio(Phy(c.cfg.stbc, c.cfg.ldpc, d.bandwidth, d.mcs)))
  }

  lemma RadioAgrees(a: Device, b: Device, c: Ctl, d: Decision)
    requires SameSettings(a, b) && RadioTrue(c.lastTx, a)
    ensures SameSettings(RadioWrites(true, a, c, d), RadioWrites(false, b, c, d))
    ensures var e := RadioWrites(true, a, c, d);
      RadioTrue(d, e) && e.probe == a.probe && e.txMode == a.txMode && SameEncoder(e, a)
  {
  }

  lemma ProbeAgrees(a: World, b: World, d: Decision)
    requires Agree(a, b) && ProbeTrue(a.ctl.lastProbe, a.dev) && a.ctl.cfg.probeMcsCeiling >= 0
    ensures Agree(ProbeStep(true, a, d), ProbeStep(false, b, d))
    ensures var w := ProbeStep(true, a, d);
      && ProbeTrue(w.ctl.lastProbe, w.dev) && w.ctl == a.ctl.(lastProbe := w.ctl.lastProbe)
      && SameRadio(w.dev, a.dev) && SameEncoder(w.dev, a.dev) && w.dev.txMode == a.dev.txMode
  {
  }

  lemma PowerAgrees(a: World, b: World, dBm: int)
    requires Agree(a, b) && TxTrue(a.ctl.tx, a.dev)
    ensures Agree(PowerStep(true, a, dBm), PowerStep(false, b, dBm))
    ensures var w := PowerStep(true, a, dBm);
      && TxTrue(w.ctl.tx, w.dev) && w.ctl == a.ctl.(tx := w.ctl.tx)
      && SameRadio(w.dev, a.dev) && SameEncoder(w.dev, a.dev) && w.dev.probe == a.dev.probe
  {
    var t := a.ctl.tx;
    if a.ctl.cfg.txPowerControl {
      if !FixedSends(true, t, dBm) {
        assert a.dev.txMode[t.iface := Fixed(dBm)] == a.dev.txMode;
      }
    } else if !AutoSends(true, t) {
      assert a.dev.txMode[t.iface := Auto] == a.dev.txMode;
    }
  }

  lemma TunedAgrees(a: Device, b: Device, d: Decision)
    requires SameSettings(a, b)
    ensures SameSettings(a.Send(Tuned(d)), b.Send(Tuned(d)))
    ensures var e := a.Send(Tuned(d)); SameRadio(e, a) && SameEncoder(e, a) && e.probe == a.probe && e.txMode == a.txMode
  {
  }

  lemma DispatchParts(lazy: bool, w: World, d: Decision)
    ensures var c := ReconcileProbe(w.ctl);
      var w' := PowerStep(lazy, ProbeStep(lazy, World(c, RadioWrites(lazy, w.dev, c, d)), d), d.txPowerDbm);
      DispatchTx(lazy, w, d) == World(w'.ctl.(lastTx := d), w'.dev.Send(Tuned(d)))
  {
  }

  lemma DispatchAgrees(a: World, b: World, d: Decision)
    requires Agree(a, b) && CachesTrue(a) && Baseline(d)
    ensures Agree(DispatchTx(true, a, d), DispatchTx(false, b, d))
    ensures CachesTrue(DispatchTx(true, a, d))
  {
    hide Config.Valid, RoiQp, DispatchTx, ProbeStep, PowerStep, RadioWrites, Device.Send, SameSettings;
    var c := ReconcileProbe(a.ctl);
    DispatchParts(true, a, d);
    DispatchParts(false, b, d);
    RadioAgrees(a.dev, b.dev, c, d);
    var a2, b2 := World(c, RadioWrites(true, a.dev, c, d)), World(c, RadioWrites(false, b.dev, c, d));
    ProbeAgrees(a2, b2, d);
    var a3, b3 := ProbeStep(true, a2, d), ProbeStep(false, b2, d);
    PowerAgrees(a3, b3, d.txPowerDbm);
    TunedAgrees(PowerStep(true, a3, d.txPowerDbm).dev, PowerStep(false, b3, d.txPowerDbm).dev, d);
  }

  lemma EncAgrees(a: World, b: World, d: Decision)
    requires Agree(a, b) && CachesTrue(a)
    ensures Agree(EncStep(true, a, d), EncStep(false, b, d))
    ensures CachesTrue(EncStep(true, a, d))
  {
  }

  lemma ApplyAgrees(a: World, b: World, d: Decision)
    requires Agree(a, b) && CachesTrue(a) && Baseline(d)
    ensures Agree(ApplyDecision(true, a, d), ApplyDecision(false, b, d))
    ensures CachesTrue(ApplyDecision(true, a, d))
  {
    hide Config.Valid, RoiQp, DispatchTx, EncStep, SameSettings, EncTrue, TxTrue, ProbeTrue;
    var a0, b0 := World(a.ctl.(phase := Idle), a.dev), World(b.ctl.(phase := Idle), b.dev);
    DispatchAgrees(a0, b0, d);
    EncAgrees(a0, b0, d);
    EncAgrees(DispatchTx(true, a0, d), DispatchTx(false, b0, d), d);
  }

  // ---- every step -----------------------------------------------------------------------------

  lemma SafeAgrees(a: World, b: World)
    requires Agree(a, b) && CachesTrue(a)
    ensures Agree(DispatchSafe(true, a), DispatchSafe(false, b))
    ensures var w := DispatchSafe(true, a); ProbeTrue(w.ctl.lastProbe, w.dev) && TxTrue(w.ctl.tx, w.dev)
  {
    hide Config.Valid, RoiQp, FixedSends, AutoSends, ProbeSends, Failsafe, ProbeStep, PowerStep;
    var c := ReconcileProbe(a.ctl);
    var d := Failsafe(c.cfg);
    var x, y := SetFec(d.k, d.n), SetRadio(Phy(c.cfg.stbc, c.cfg.ldpc, d.bandwidth, d.mcs));
    var a2, b2 := a.dev.Send(x).Send(y), b.dev.Send(x).Send(y);
    SafeProbe(World(c, a2), World(c, b2), d);
    var a3, b3 := ProbeStep(false, World(c, a2), d), ProbeStep(false, World(c, b2), d);
    SafePower(a3, b3, d.txPowerDbm);
  }

  lemma SafeProbe(a: World, b: World, d: Decision)
    requires Agree(a, b) && ProbeTrue(a.ctl.lastProbe, a.dev)
    ensures Agree(ProbeStep(false, a, d), ProbeStep(false, b, d))
    ensures var w := ProbeStep(false, a, d);
      ProbeTrue(w.ctl.lastProbe, w.dev) && w.ctl == a.ctl.(lastProbe := w.ctl.lastProbe) && w.dev.txMode == a.dev.txMode
  {
  }

  lemma SafePower(a: World, b: World, dBm: int)
    requires Agree(a, b) && TxTrue(a.ctl.tx, a.dev) && ProbeTrue(a.ctl.lastProbe, a.dev)
    ensures Agree(PowerStep(!a.ctl.cfg.txPowerControl, a, dBm), PowerStep(false, b, dBm))
    ensures var w := PowerStep(!a.ctl.cfg.txPowerControl, a, dBm);
      TxTrue(w.ctl.tx, w.dev) && ProbeTrue(w.ctl.lastProbe, w.dev) && w.ctl == a.ctl.(tx := w.ctl.tx)
  {
  }

  lemma DatagramAgrees(a: World, b: World, e: Event)
    requires Agree(a, b) && CachesTrue(a) && e.Datagram?
    ensures Agree(Step(true, a, e), Step(false, b, e)) && CachesTrue(Step(true, a, e))
  {
    hide Config.Valid, RoiQp, Channel.Front, ApplyDecision, Derive, SameSettings, EncTrue, TxTrue, ProbeTrue, RadioTrue;
    var f := Channel.Front(a.ctl.dedup, e.bytes);
    if f.got.Accepted? {
      var d := Derive(a.ctl.cfg, f.got.d);
      DerivedBaseline(a.ctl.cfg, f.got.d);
      ApplyAgrees(World(a.ctl.(dedup := f.state), a.dev), World(b.ctl.(dedup := f.state), b.dev), d);
    }
  }

  lemma TickAgrees(a: World, b: World, e: Event)
    requires Agree(a, b) && CachesTrue(a) && e.Tick?
    ensures Agree(Step(true, a, e), Step(false, b, e)) && CachesTrue(Step(true, a, e))
  {
    hide Config.Valid, RoiQp, DispatchSafe, Failsafe;
    var a0 := World(a.ctl.(phase := Idle, wd := a.ctl.wd.(tripped := true)), a.dev);
    var b0 := World(b.ctl.(phase := Idle, wd := b.ctl.wd.(tripped := true)), b.dev);
    SafeAgrees(a0, b0);
    SafeFrame(true, a0);
  }

  lemma GapAgrees(a: World, b: World)
    requires Agree(a, b) && CachesTrue(a) && (a.ctl.phase == DownGap ==> Baseline(a.ctl.pending))
    ensures Agree(OnGap(true, a), OnGap(false, b)) && CachesTrue(OnGap(true, a))
  {
    hide Config.Valid, RoiQp, DispatchTx, EncStep, SameSettings, EncTrue, TxTrue, ProbeTrue, RadioTrue;
    match a.ctl.phase
    case UpGap => EncAgrees(a, b, a.ctl.pending);
    case DownGap => DispatchAgrees(a, b, a.ctl.pending);
    case Idle =>
  }

  lemma ReloadAgrees(a: World, b: World, cfg: Config)
    requires Agree(a, b) && CachesTrue(a) && ValidEvent(Reload(cfg))
    ensures Agree(OnReload(true, a, cfg), OnReload(false, b, cfg)) && CachesTrue(OnReload(true, a, cfg))
  {
    hide Config.Valid, RoiQp;
  }

  lemma StepAgrees(a: World, b: World, e: Event)
    requires Agree(a, b) && CachesTrue(a) && ValidEvent(e) && (a.ctl.phase == DownGap ==> Baseline(a.ctl.pending))
    ensures Agree(Step(true, a, e), Step(false, b, e)) && CachesTrue(Step(true, a, e))
  {
    hide OnGap, OnReload, OnTick, OnDatagram, CachesTrue, Agree;
    match e
    case Datagram(_, _) => DatagramAgrees(a, b, e);
    case Tick(_) => TickAgrees(a, b, e);
    case Gap => GapAgrees(a, b);
    case Reload(cfg) => ReloadAgrees(a, b, cfg);
  }

  /** After every run the radio's FEC, rung and bandwidth, the probe's rung, the
      transmit-power mode of every interface, and the encoder's bitrate, ROI-QP and
      frame rate are those of a controller that re-sends everything. */
  lemma {:induction false} SuppressionRefines(w: World, es: seq<Event>)
    requires Boot(w) && ValidRun(es)
    ensures Agree(Run(true, w, es), Run(false, w, es))
    ensures CachesTrue(Run(true, w, es))
  {
    hide Step, Config.Valid, SameSettings;
    if es == [] {
      SettingsReflexive(w.dev);
    } else {
      var front := es[..|es| - 1];
      SuppressionRefines(w, front);
      RunOrdered(w, front);
      StepAgrees(Run(true, w, front), Run(false, w, front), es[|es| - 1]);
    }
  }

  lemma SettingsReflexive(d: Device)
    ensures SameSettings(d, d)
  {
  }

  // ---- what a step does to the radio and the probe ---------------------------------------------

  // The decision a step dispatches to the radio, if any.
  function Tunes(w: World, e: Event): Option<Decision> {
    if Accepts(w, e) then
      (if CanStagger(w.ctl) && DirectionOf(w.ctl, Applied(w, e)) == Down then None else Some(Applied(w, e)))
    else if e.Gap? && w.ctl.phase == DownGap then Some(w.ctl.pending)
    else None
  }

  function VideoPhy(cfg: Config, d: Decision): Phy { Phy(cfg.stbc, cfg.ldpc, d.bandwidth, d.mcs) }

  function RadioAfter(lazy: bool, w: World, e: Event): Phy {
    var c := w.ctl;
    if Trips(w, e) then VideoPhy(c.cfg, Failsafe(c.cfg))
    else match Tunes(w, e)
      case Some(d) => if RadioSends(lazy, c, d) then VideoPhy(c.cfg, d) else w.dev.radio
      case None => if e.Reload? && Restates(lazy, c, e.cfg) then VideoPhy(e.cfg, c.lastTx) else w.dev.radio
  }

  function ProbeAfter(lazy: bool, w: World, e: Event): Phy {
    var c := ReconcileProbe(w.ctl);
    if Trips(w, e) then (if c.probePort != 0 then ProbePhy(c.cfg, Failsafe(c.cfg)) else w.dev.probe)
    else match Tunes(w, e)
      case Some(d) => if ProbeSends(lazy, c, d) then ProbePhy(c.cfg, d) else w.dev.probe
      case None => w.dev.probe
  }

  lemma SendPhys(dev: Device, go: bool, x: Write)
    ensures dev.SendIf(go, x).radio == if go && x.SetRadio? then x.phy else dev.radio
    ensures dev.SendIf(go, x).probe == if go && x.SetProbe? then x.phy else dev.probe
    ensures dev.Send(x) == dev.SendIf(true, x)
  {
  }

  lemma DispatchPhys(lazy: bool, w: World, d: Decision)
    ensures var r, c := DispatchTx(lazy, w, d).dev, ReconcileProbe(w.ctl);
      && r.radio == (if RadioSends(lazy, w.ctl, d) then VideoPhy(w.ctl.cfg, d) else w.dev.radio)
      && r.probe == (if ProbeSends(lazy, c, d) then ProbePhy(c.cfg, d) else w.dev.probe)
  {
    hide Device.SendIf, Device.Send, FixedSends, AutoSends, ProbeSends, FecSends;
    var c := ReconcileProbe(w.ctl);
    var x, y := SetFec(d.k, d.n), SetRadio(Phy(c.cfg.stbc, c.cfg.ldpc, d.bandwidth, d.mcs));
    var d1 := w.dev.SendIf(FecSends(lazy, c, d), x);
    SendPhys(w.dev, FecSends(lazy, c, d), x);
    var d2 := d1.SendIf(RadioSends(lazy, c, d), y);
    SendPhys(d1, RadioSends(lazy, c, d), y);
    var w3 := ProbeStep(lazy, World(c, d2), d);
    SendPhys(d2, ProbeSends(lazy, c, d), SetProbe(ProbePhy(c.cfg, d)));
    var w4 := PowerStep(lazy, w3, d.txPowerDbm);
    PowerPhys(lazy, w3, d.txPowerDbm);
    SendPhys(w4.dev, true, Tuned(d));
  }

  lemma PowerPhys(lazy: bool, w: World, dBm: int)
    ensures var r := PowerStep(lazy, w, dBm).dev; r.radio == w.dev.radio && r.probe == w.dev.probe
  {
    hide Device.SendIf, Device.Send, FixedSends, AutoSends;
    var t := w.ctl.tx;
    SendPhys(w.dev, FixedSends(lazy, t, dBm), SetTxPower(t.iface, Fixed(dBm)));
    SendPhys(w.dev, AutoSends(lazy, t), SetTxPower(t.iface, Auto));
  }

  lemma SafePhys(lazy: bool, w: World)
    ensures var r, c, d := DispatchSafe(lazy, w).dev, ReconcileProbe(w.ctl), Failsafe(w.ctl.cfg);
      && r.radio == VideoPhy(w.ctl.cfg, d)
      && r.probe == if c.probePort != 0 then ProbePhy(c.cfg, d) else w.dev.probe
  {
    hide Device.SendIf, Device.Send, FixedSends, AutoSends, Failsafe;
    var c := ReconcileProbe(w.ctl);
    var d := Failsafe(c.cfg);
    var x, y := SetFec(d.k, d.n), SetRadio(Phy(c.cfg.stbc, c.cfg.ldpc, d.bandwidth, d.mcs));
    SendPhys(w.dev, true, x);
    var d1 := w.dev.Send(x);
    SendPhys(d1, true, y);
    var d2 := d1.Send(y);
    SendPhys(d2, ProbeSends(false, c, d), SetProbe(ProbePhy(c.cfg, d)));
    var w3 := ProbeStep(false, World(c, d2), d);
    PowerPhys(lazy && !c.cfg.txPowerControl, w3, d.txPowerDbm);
    var w4 := PowerStep(lazy && !c.cfg.txPowerControl, w3, d.txPowerDbm);
    SendPhys(w4.dev, true, Tuned(d));
  }

  lemma EncPhys(lazy: bool, w: World, d: Decision)
    requires w.ctl.Valid()
    ensures var r := EncStep(lazy, w, d).dev; r.radio == w.dev.radio && r.probe == w.dev.probe
  {
  }

  lemma ApplyPhys(lazy: bool, w: World, d: Decision)
    requires w.ctl.Valid()
    ensures var r, c := ApplyDecision(lazy, w, d).dev, ReconcileProbe(w.ctl);
      if CanStagger(w.ctl) && DirectionOf(w.ctl, d) == Down then r.radio == w.dev.radio && r.probe == w.dev.probe
      else && r.radio == (if RadioSends(lazy, w.ctl, d) then VideoPhy(w.ctl.cfg, d) else w.dev.radio)
           && r.probe == (if ProbeSends(lazy, c, d) then ProbePhy(c.cfg, d) else w.dev.probe)
  {
    hide DispatchTx, EncStep, RoiQp, Config.Valid;
    var w0 := World(w.ctl.(phase := Idle), w.dev);
    DispatchPhys(lazy, w0, d);
    DispatchFrame(lazy, w0, d);
    EncPhys(lazy, w0, d);
    EncPhys(lazy, DispatchTx(lazy, w0, d), d);
  }

  lemma StepPhys(lazy: bool, w: World, e: Event)
    requires w.ctl.Valid()
    ensures Step(lazy, w, e).dev.radio == RadioAfter(lazy, w, e) && Step(lazy, w, e).dev.probe == ProbeAfter(lazy, w, e)
  {
    hide DispatchTx, EncStep, RoiQp, Config.Valid, Channel.Front, ApplyDecision, Derive, DispatchSafe, Failsafe, Device.Send, Device.SendIf;
    match e
    case Datagram(bytes, now) =>
      var f := Channel.Front(w.ctl.dedup, bytes);
      if f.got.Accepted? {
        ApplyPhys(lazy, World(w.ctl.(dedup := f.state), w.dev), Derive(w.ctl.cfg, f.got.d));
      }
    case Tick(now) =>
      var w0 := World(w.ctl.(phase := Idle, wd := w.ctl.wd.(tripped := true)), w.dev);
      SafePhys(lazy, w0);
      SafeFrame(lazy, w0);
      var r, sf := DispatchSafe(lazy, w0), Failsafe(w.ctl.cfg);
      CurveValid(w.ctl);
      SendPhys(r.dev, true, EncSettings(r.ctl.enc, sf.bitrateKbps, 0));
    case Gap =>
      DispatchPhys(lazy, w, w.ctl.pending);
      EncPhys(lazy, w, w.ctl.pending);
    case Reload(cfg) =>
      SendPhys(w.dev, Restates(lazy, w.ctl, cfg), SetRadio(Phy(cfg.stbc, cfg.ldpc, w.ctl.lastTx.bandwidth, w.ctl.lastTx.mcs)));
  }

  // ---- the radiotap flags ------------------------------------------------------------------------

  predicate FlagsAre(dev: Device, cfg: Config) {
    dev.radio.stbc == cfg.stbc && dev.radio.ldpc == cfg.ldpc
  }

  // The always-send controller writes the radio ...
  predicate RestatesRadio(w: World, e: Event) {
    Trips(w, e) || Tunes(w, e).Some? || (e.Reload? && Restates(false, w.ctl, e.cfg))
  }

  // ... and the program does not.
  predicate WithholdsRadio(w: World, e: Event) {
    !Trips(w, e) && match Tunes(w, e)
      case Some(d) => !RadioSends(true, w.ctl, d)
      case None => e.Reload? && Restates(false, w.ctl, e.cfg) && !Restates(true, w.ctl, e.cfg)
  }

  /** One step, exactly: the flags agree after a write of the always-send controller if the
      program writes too or its radio already has the configured flags; otherwise they agree
      if they did. */
  lemma FlagsStep(a: World, b: World, e: Event)
    requires a.ctl.Valid() && a.ctl == b.ctl
    ensures SameFlags(Step(true, a, e).dev.radio, Step(false, b, e).dev.radio) <==>
      if RestatesRadio(a, e) then WithholdsRadio(a, e) ==> FlagsAre(a.dev, a.ctl.cfg)
      else SameFlags(a.dev.radio, b.dev.radio)
  {
    hide Step, Channel.Front, Derive, Failsafe, Config.Valid, Watchdog.Trips;
    StepPhys(true, a, e);
    StepPhys(false, b, e);
  }

  // The last time the always-send controller wrote the radio, the program held its write
  // back although its radio had other flags.
  ghost predicate FlagsStuck(w: World, es: seq<Event>)
    requires w.ctl.Valid() && ValidRun(es)
  {
    if es == [] then false
    else
      var front, e := es[..|es| - 1], es[|es| - 1];
      var a := Run(true, w, front);
      if RestatesRadio(a, e) then WithholdsRadio(a, e) && !FlagsAre(a.dev, a.ctl.cfg) else FlagsStuck(w, front)
  }

  /** Over every run, exactly when the flags on the air are those of the always-send
      controller. */
  lemma {:induction false} FlagsExactly(w: World, es: seq<Event>)
    requires Boot(w) && ValidRun(es)
    ensures SameFlags(Run(true, w, es).dev.radio, Run(false, w, es).dev.radio) <==> !FlagsStuck(w, es)
  {
    hide Step, Config.Valid, RestatesRadio, WithholdsRadio, FlagsAre, SameSettings, CachesTrue;
    if es != [] {
      var front := es[..|es| - 1];
      FlagsExactly(w, front);
      SuppressionRefines(w, front);
      FlagsStep(Run(true, w, front), Run(false, w, front), es[|es| - 1]);
    }
  }

  predicate FlagsFresh(w: World) {
    Baseline(w.ctl.lastTx) ==> FlagsAre(w.dev, w.ctl.cfg)
  }

  // A reload that changes stbc or ldpc while a second phase is pending.
  predicate FlagsMidGap(c: Ctl, e: Event) {
    e.Reload? && FlagsChange(c.cfg, e.cfg) && c.phase != Idle && Baseline(c.lastTx)
  }

  /** Fresh flags go stale through a flag change in mid-gap and through nothing else. */
  lemma FreshStep(w: World, e: Event)
    requires Ordered(w) && ValidEvent(e) && FlagsFresh(w)
    ensures FlagsFresh(Step(true, w, e)) <==> !FlagsMidGap(w.ctl, e)
  {
    hide Channel.Front, Derive, Failsafe, Config.Valid, Watchdog.Trips, ApplyDecision, DispatchTx, DispatchSafe, EncStep, RoiQp, Device.Send, Device.SendIf;
    StepPhys(true, w, e);
    TxAfter(w, e);
  }

  // What a step leaves as the radio's baseline.
  lemma TxAfter(w: World, e: Event)
    requires w.ctl.Valid()
    ensures var c := Step(true, w, e).ctl;
      && c.cfg == (if e.Reload? then e.cfg else w.ctl.cfg)
      && c.lastTx == if Trips(w, e) then BLANK else match Tunes(w, e) case Some(d) => d case None => w.ctl.lastTx
  {
    hide Channel.Front, Derive, Failsafe, Config.Valid, Watchdog.Trips, ApplyDecision, DispatchTx, DispatchSafe, EncStep, RoiQp, Device.Send, Device.SendIf;
    match e
    case Datagram(bytes, now) =>
      var f := Channel.Front(w.ctl.dedup, bytes);
      if f.got.Accepted? {
        ApplyTx(World(w.ctl.(dedup := f.state), w.dev), Derive(w.ctl.cfg, f.got.d));
      }
    case Tick(now) => SafeFrame(true, World(w.ctl.(phase := Idle, wd := w.ctl.wd.(tripped := true)), w.dev));
    case Gap =>
      DispatchFrame(true, w, w.ctl.pending);
      EncFrames(true, w, w.ctl.pending);
    case Reload(_) =>
  }

  lemma ApplyTx(w: World, d: Decision)
    requires w.ctl.Valid()
    ensures var c := ApplyDecision(true, w, d).ctl;
      c.cfg == w.ctl.cfg && c.lastTx == if CanStagger(w.ctl) && DirectionOf(w.ctl, d) == Down then w.ctl.lastTx else d
  {
    hide DispatchTx, EncStep, RoiQp, Config.Valid;
    var w0 := World(w.ctl.(phase := Idle), w.dev);
    DispatchFrame(true, w0, d);
    EncFrames(true, w0, d);
    EncFrames(true, DispatchTx(true, w0, d), d);
  }

  lemma EncFrames(lazy: bool, w: World, d: Decision)
    requires w.ctl.Valid()
    ensures var c := EncStep(lazy, w, d).ctl; c.lastTx == w.ctl.lastTx && c.cfg == w.ctl.cfg
  {
  }

  lemma FreshNeverStuck(w: World, e: Event)
    requires FlagsFresh(w) && WithholdsRadio(w, e)
    ensures FlagsAre(w.dev, w.ctl.cfg)
  {
    hide Tunes, Trips;
  }

  /** So without a flag change in mid-gap the flags on the air are those of the always-send
      controller. */
  lemma {:induction false} FlagsRefine(w: World, es: seq<Event>)
    requires Boot(w) && ValidRun(es)
    requires forall i :: 0 <= i < |es| ==> !FlagsMidGap(Run(true, w, es[..i]).ctl, es[i])
    ensures SameFlags(Run(true, w, es).dev.radio, Run(false, w, es).dev.radio)
    ensures FlagsFresh(Run(true, w, es))
  {
    hide Step, Config.Valid, FlagsFresh, RestatesRadio, WithholdsRadio, FlagsMidGap, Ordered, SameSettings, CachesTrue, FlagsAre;
    if es == [] {
      BootFresh(w);
    } else {
      var n := |es| - 1;
      var front := es[..n];
      forall i | 0 <= i < n ensures !FlagsMidGap(Run(true, w, front[..i]).ctl, front[i]) {
        assert front[..i] == es[..i];
        assert !FlagsMidGap(Run(true, w, es[..i]).ctl, es[i]);
      }
      FlagsRefine(w, front);
      SuppressionRefines(w, front);
      RunOrdered(w, front);
      var a := Run(true, w, front);
      assert !FlagsMidGap(Run(true, w, es[..n]).ctl, es[n]);
      FreshStep(a, es[n]);
      FlagsStep(a, Run(false, w, front), es[n]);
      if WithholdsRadio(a, es[n]) { FreshNeverStuck(a, es[n]); }
    }
  }

  lemma BootFresh(w: World)
    requires Boot(w)
    ensures FlagsFresh(w)
  {
  }

  // ---- the probe's flags and bandwidth --------------------------------------------------------------

  predicate SameProbe(a: Phy, b: Phy) { SameFlags(a, b) && a.bandwidth == b.bandwidth }

  predicate RestatesProbe(w: World, e: Event) {
    w.ctl.cfg.probeCtlPort != 0 && (Trips(w, e) || Tunes(w, e).Some?)
  }

  predicate WithholdsProbe(w: World, e: Event) {
    w.ctl.cfg.probeCtlPort != 0 && !Trips(w, e) && Tunes(w, e).Some?
    && !ProbeSends(true, ReconcileProbe(w.ctl), Tunes(w, e).value)
  }

  // The probe already has the flags and bandwidth the step would give it.
  predicate ProbeHas(w: World, e: Event)
    requires Tunes(w, e).Some?
  {
    SameProbe(w.dev.probe, ProbePhy(w.ctl.cfg, Tunes(w, e).value))
  }

  lemma ProbeFlagsStep(a: World, b: World, e: Event)
    requires a.ctl.Valid() && a.ctl == b.ctl
    ensures SameProbe(Step(true, a, e).dev.probe, Step(false, b, e).dev.probe) <==>
      if RestatesProbe(a, e) then WithholdsProbe(a, e) ==> ProbeHas(a, e)
      else SameProbe(a.dev.probe, b.dev.probe)
  {
    hide Step, Channel.Front, Derive, Failsafe, Config.Valid, Watchdog.Trips;
    StepPhys(true, a, e);
    StepPhys(false, b, e);
  }

  // The last time the always-send controller wrote the probe, the program held its write
  // back, the rung being unchanged, although flags or bandwidth were not.
  ghost predicate ProbeStuck(w: World, es: seq<Event>)
    requires w.ctl.Valid() && ValidRun(es)
  {
    if es == [] then false
    else
      var front, e := es[..|es| - 1], es[|es| - 1];
      var a := Run(true, w, front);
      if RestatesProbe(a, e) then WithholdsProbe(a, e) && !ProbeHas(a, e) else ProbeStuck(w, front)
  }

  /** Over every run, exactly when the probe's flags and bandwidth are those of the
      always-send controller. */
  lemma {:induction false} ProbeExactly(w: World, es: seq<Event>)
    requires Boot(w) && ValidRun(es)
    ensures SameProbe(Run(true, w, es).dev.probe, Run(false, w, es).dev.probe) <==> !ProbeStuck(w, es)
  {
    hide Step, Config.Valid, RestatesProbe, ProbeHas, SameSettings, CachesTrue;
    if es != [] {
      var front := es[..|es| - 1];
      ProbeExactly(w, front);
      SuppressionRefines(w, front);
      ProbeFlagsStep(Run(true, w, front), Run(false, w, front), es[|es| - 1]);
    }
  }

  // The configuration keeps the flags and modulation width of cfg.
  predicate SamePhy(cfg: Config, other: Config) {
    !FlagsChange(cfg, other) && ModulationWidth(cfg.linkWidthMhz) == ModulationWidth(other.linkWidthMhz)
  }

  predicate ProbePinned(cfg: Config, w: World) {
    var c, width := w.ctl, ModulationWidth(cfg.linkWidthMhz);
    && SamePhy(cfg, c.cfg) && (c.phase == DownGap ==> c.pending.bandwidth == width)
    && (c.lastProbe != -1 ==> SameProbe(w.dev.probe, Phy(cfg.stbc, cfg.ldpc, width, w.dev.probe.mcs)))
  }

  // What a step leaves of the probe's cache and of a pending second phase.
  lemma ProbeCacheAfter(w: World, e: Event)
    requires w.ctl.Valid()
    ensures var c, r := ReconcileProbe(w.ctl), Step(true, w, e).ctl;
      && r.lastProbe == (if Trips(w, e) then (if c.probePort != 0 then ProbeRung(FAILSAFE_MCS, c.cfg.probeMcsCeiling) else c.lastProbe)
                         else match Tunes(w, e)
                           case Some(d) => (if c.probePort != 0 then ProbeRung(d.mcs, c.cfg.probeMcsCeiling) else c.lastProbe)
                           case None => w.ctl.lastProbe)
      && (r.phase == DownGap ==> if Accepts(w, e) then r.pending == Applied(w, e) else r.pending == w.ctl.pending && w.ctl.phase == DownGap)
  {
    hide Channel.Front, Derive, Config.Valid, Watchdog.Trips, DispatchTx, DispatchSafe, RoiQp, Device.Send, Device.SendIf;
    match e
    case Datagram(bytes, now) =>
      var f := Channel.Front(w.ctl.dedup, bytes);
      if f.got.Accepted? {
        DispatchCache(World(w.ctl.(dedup := f.state, phase := Idle), w.dev), Derive(w.ctl.cfg, f.got.d));
      }
    case Tick(now) => SafeCache(World(w.ctl.(phase := Idle, wd := w.ctl.wd.(tripped := true)), w.dev));
    case Gap => DispatchCache(w, w.ctl.pending);
    case Reload(_) =>
  }

  lemma DispatchCache(w: World, d: Decision)
    ensures var c, r := ReconcileProbe(w.ctl), DispatchTx(true, w, d).ctl;
      && r.lastProbe == (if c.probePort != 0 then ProbeRung(d.mcs, c.cfg.probeMcsCeiling) else c.lastProbe)
      && r == w.ctl.(probePort := r.probePort, lastProbe := r.lastProbe, tx := r.tx, lastTx := d)
  {
    hide Device.SendIf, Device.Send, FixedSends, AutoSends;
  }

  lemma SafeCache(w: World)
    ensures var c, r := ReconcileProbe(w.ctl), DispatchSafe(true, w).ctl;
      && r.lastProbe == (if c.probePort != 0 then ProbeRung(FAILSAFE_MCS, c.cfg.probeMcsCeiling) else c.lastProbe)
      && r.phase == w.ctl.phase
  {
    hide Device.SendIf, Device.Send, FixedSends, AutoSends;
  }

  lemma AppliedWidth(w: World, e: Event)
    ensures Accepts(w, e) ==> Applied(w, e).bandwidth == ModulationWidth(w.ctl.cfg.linkWidthMhz)
    ensures Failsafe(w.ctl.cfg).bandwidth == ModulationWidth(w.ctl.cfg.linkWidthMhz)
  {
    hide Channel.Front;
  }

  lemma PinnedStep(cfg: Config, w: World, e: Event)
    requires w.ctl.Valid() && ProbePinned(cfg, w) && (e.Reload? ==> SamePhy(cfg, e.cfg))
    ensures ProbePinned(cfg, Step(true, w, e))
    ensures WithholdsProbe(w, e) ==> ProbeHas(w, e)
  {
    hide Step, Accepts, Applied, Failsafe, Config.Valid, Trips, ModulationWidth;
    StepPhys(true, w, e);
    ProbeCacheAfter(w, e);
    TxAfter(w, e);
    AppliedWidth(w, e);
    KindsApart(w, e);
  }

  /** So the probe agrees in full in every run whose reloads leave flags and modulation width
      alone. */
  lemma {:induction false} ProbeRefine(w: World, es: seq<Event>)
    requires Boot(w) && ValidRun(es) && forall i :: 0 <= i < |es| && es[i].Reload? ==> SamePhy(w.ctl.cfg, es[i].cfg)
    ensures SameProbe(Run(true, w, es).dev.probe, Run(false, w, es).dev.probe) && ProbePinned(w.ctl.cfg, Run(true, w, es))
  {
    hide Step, Config.Valid, ProbePinned, WithholdsProbe, RestatesProbe, SameSettings, CachesTrue;
    if es == [] {
      BootPinned(w);
    } else {
      var front := es[..|es| - 1];
      ProbeRefine(w, front);
      SuppressionRefines(w, front);
      PinnedStep(w.ctl.cfg, Run(true, w, front), es[|es| - 1]);
      ProbeFlagsStep(Run(true, w, front), Run(false, w, front), es[|es| - 1]);
    }
  }

  lemma BootPinned(w: World)
    requires Boot(w)
    ensures ProbePinned(w.ctl.cfg, w)
  {
  }
}
