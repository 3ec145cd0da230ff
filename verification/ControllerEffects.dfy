/** What every event leaves on the hardware, read off the device alone. */
module ControllerEffects {
  import opened Common
  import opened Crc
  import opened Wire
  import opened Rate
  import opened Backends
  import opened Controller
  import opened ControllerSafety
  import opened ControllerRefinement
  import Watchdog
  import Channel

  // The radio side carries out decision d under a configuration, on an interface.
  predicate RadioHolds(dev: Device, cfg: Config, iface: string, d: Decision) {
    && dev.fecK == d.k && dev.fecN == d.n && dev.radio.mcs == d.mcs && dev.radio.bandwidth == d.bandwidth
    && iface in dev.txMode && dev.txMode[iface] == (if cfg.txPowerControl then Fixed(d.txPowerDbm) else Auto)
    && (cfg.probeCtlPort != 0 ==>
          dev.probe.mcs == if d.mcs as int + 1 < cfg.probeMcsCeiling then d.mcs as int + 1 else cfg.probeMcsCeiling)
  }

  predicate EncoderHolds(dev: Device, cfg: Config, d: Decision)
    requires cfg.roiQp.Valid()
  {
    dev.encBitrate == d.bitrateKbps && dev.roiQp == RoiQp(d.bitrateKbps, cfg.roiQp) && dev.encFps == d.fps
  }

  predicate SameEncoderSide(a: Device, b: Device) {
    a.encBitrate == b.encBitrate && a.roiQp == b.roiQp && a.encFps == b.encFps
  }

  predicate SameRadioSide(a: Device, b: Device) {
    a.fecK == b.fecK && a.fecN == b.fecN && a.radio == b.radio && a.probe == b.probe && a.txMode == b.txMode
  }

  lemma DispatchLeaves(w: World, d: Decision)
    requires CachesTrue(w) && Baseline(d)
    ensures var r := DispatchTx(true, w, d);
      RadioHolds(r.dev, w.ctl.cfg, w.ctl.tx.iface, d) && SameEncoderSide(r.dev, w.dev) && CachesTrue(r)
  {
    hide Config.Valid, DispatchTx, EncTrue, SameSettings;
    SameAsSelf(w);
    DispatchAgrees(w, w, d);
    DispatchCache(w, d);
    DispatchTxCache(w, d);
    DispatchEnc(w, d);
  }

  lemma SameAsSelf(w: World)
    ensures Agree(w, w)
  {
  }

  lemma DispatchTxCache(w: World, d: Decision)
    requires TxTrue(w.ctl.tx, w.dev)
    ensures var t := DispatchTx(true, w, d).ctl.tx;
      t.iface == w.ctl.tx.iface && if w.ctl.cfg.txPowerControl then t.current == Some(d.txPowerDbm) else t.auto
  {
    hide Device.SendIf, Device.Send, ProbeSends;
  }

  lemma SendEnc(dev: Device, go: bool, x: Write)
    requires !x.SetEncoder?
    ensures SameEncoderSide(dev.SendIf(go, x), dev) && SameEncoderSide(dev.Send(x), dev)
  {
  }

  lemma DispatchEnc(w: World, d: Decision)
    ensures SameEncoderSide(DispatchTx(true, w, d).dev, w.dev)
  {
    hide Device.SendIf, Device.Send, FixedSends, AutoSends, ProbeSends, FecSends, RadioSends;
    var c := ReconcileProbe(w.ctl);
    var x, y := SetFec(d.k, d.n), SetRadio(Phy(c.cfg.stbc, c.cfg.ldpc, d.bandwidth, d.mcs));
    SendEnc(w.dev, FecSends(true, c, d), x);
    var d1 := w.dev.SendIf(FecSends(true, c, d), x);
    SendEnc(d1, RadioSends(true, c, d), y);
    var d2 := d1.SendIf(RadioSends(true, c, d), y);
    SendEnc(d2, ProbeSends(true, c, d), SetProbe(ProbePhy(c.cfg, d)));
    var w3 := ProbeStep(true, World(c, d2), d);
    PowerEnc(true, w3, d.txPowerDbm);
    SendEnc(PowerStep(true, w3, d.txPowerDbm).dev, true, Tuned(d));
  }

  lemma PowerEnc(lazy: bool, w: World, dBm: int)
    ensures SameEncoderSide(PowerStep(lazy, w, dBm).dev, w.dev)
  {
    hide Device.SendIf, Device.Send, FixedSends, AutoSends;
    var t := w.ctl.tx;
    SendEnc(w.dev, FixedSends(lazy, t, dBm), SetTxPower(t.iface, Fixed(dBm)));
    SendEnc(w.dev, AutoSends(lazy, t), SetTxPower(t.iface, Auto));
  }

  lemma PushLeaves(w: World, d: Decision)
    requires CachesTrue(w) && d.bitrateKbps > 0 && d.fps > 0
    ensures var r := EncStep(true, w, d);
      w.ctl.cfg.roiQp.Valid() && EncoderHolds(r.dev, w.ctl.cfg, d) && SameRadioSide(r.dev, w.dev)
  {
    hide RoiQp;
  }

  /** An accepted decision, exactly: in one shot both sides hold it; on the way up the radio
      side holds it and the encoder waits; on the way down the encoder holds it and the radio
      side waits. */
  lemma DecisionLeaves(w: World, e: Event)
    requires CachesTrue(w) && Accepts(w, e)
    ensures var r, c, d := Step(true, w, e), w.ctl, Applied(w, e);
      && c.cfg.roiQp.Valid()
      && if c.cfg.applyStaggerMs == 0 || !c.gapTimer || c.lastEnc.magic != MAGIC || d.bitrateKbps == c.lastEnc.bitrateKbps
         then r.ctl.phase == Idle && RadioHolds(r.dev, c.cfg, c.tx.iface, d) && EncoderHolds(r.dev, c.cfg, d)
         else if d.bitrateKbps > c.lastEnc.bitrateKbps
         then && r.ctl.phase == UpGap && r.ctl.pending == d
              && RadioHolds(r.dev, c.cfg, c.tx.iface, d) && SameEncoderSide(r.dev, w.dev)
         else && r.ctl.phase == DownGap && r.ctl.pending == d
              && EncoderHolds(r.dev, c.cfg, d) && SameRadioSide(r.dev, w.dev)
  {
    hide Channel.Front, Derive, Config.Valid, RoiQp, DispatchTx, EncStep, RadioHolds, EncoderHolds, SameRadioSide, SameEncoderSide;
    var f := Channel.Front(w.ctl.dedup, e.bytes);
    var d := Derive(w.ctl.cfg, f.got.d);
    DerivedBaseline(w.ctl.cfg, f.got.d);
    var w0 := World(w.ctl.(dedup := f.state, phase := Idle), w.dev);
    DispatchLeaves(w0, d);
    PushLeaves(w0, d);
    var w1 := DispatchTx(true, w0, d);
    DispatchFrame(true, w0, d);
    PushLeaves(w1, d);
    PushFrame(w1, d);
    SidesCarry(w1, EncStep(true, w1, d), w.ctl.cfg, w.ctl.tx.iface, d);
  }

  lemma PushFrame(w: World, d: Decision)
    requires w.ctl.Valid()
    ensures EncStep(true, w, d).ctl.phase == w.ctl.phase
  {
  }

  lemma SidesCarry(a: World, b: World, cfg: Config, iface: string, d: Decision)
    requires RadioHolds(a.dev, cfg, iface, d) && SameRadioSide(b.dev, a.dev)
    ensures RadioHolds(b.dev, cfg, iface, d)
  {
  }

  /** A gap expiration completes the waiting side, and only that; a stale one changes nothing. */
  lemma GapLeaves(w: World)
    requires CachesTrue(w) && Ordered(w)
    ensures var r, c := Step(true, w, Gap), w.ctl;
      && r.ctl.phase == Idle && c.cfg.roiQp.Valid()
      && match c.phase
         case UpGap => EncoderHolds(r.dev, c.cfg, c.pending) && SameRadioSide(r.dev, w.dev)
         case DownGap => RadioHolds(r.dev, c.cfg, c.tx.iface, c.pending) && SameEncoderSide(r.dev, w.dev)
         case Idle => r.dev == w.dev
  {
    hide Config.Valid, RoiQp, DispatchTx, EncStep, RadioHolds, EncoderHolds, SameRadioSide, SameEncoderSide;
    CurveValid(w.ctl);
    match w.ctl.phase
    case UpGap => PushLeaves(w, w.ctl.pending);
    case DownGap => DispatchLeaves(w, w.ctl.pending);
    case Idle =>
  }

  /** A trip puts both sides on rung 0 of the configuration in force, flags included, and leaves
      the frame rate as it was. */
  lemma TripLeaves(w: World, e: Event)
    requires CachesTrue(w) && Trips(w, e)
    ensures var r, c := Step(true, w, e), w.ctl;
      var d := LocalCompute(c.cfg, BLANK.(bandwidth := ModulationWidth(c.cfg.linkWidthMhz)));
      && d.mcs == 0 && c.cfg.roiQp.Valid()
      && RadioHolds(r.dev, c.cfg, c.tx.iface, d) && r.dev.radio == Phy(c.cfg.stbc, c.cfg.ldpc, d.bandwidth, 0)
      && r.dev.encBitrate == d.bitrateKbps && r.dev.roiQp == RoiQp(d.bitrateKbps, c.cfg.roiQp) && r.dev.encFps == w.dev.encFps
      && r.ctl.tx == FreshTx(c.cfg.iface)
  {
    hide Config.Valid, RoiQp, DispatchSafe, LocalCompute, Device.Send;
    CurveValid(w.ctl);
    var w0 := World(w.ctl.(phase := Idle, wd := w.ctl.wd.(tripped := true)), w.dev);
    SafeLeaves(w0);
    SafeFrame(true, w0);
    FailsafeParts(w.ctl.cfg);
    var s, d := DispatchSafe(true, w0), Failsafe(w.ctl.cfg);
    LastPush(s.dev, EncSettings(s.ctl.enc, d.bitrateKbps, 0));
  }

  lemma FailsafeParts(cfg: Config)
    ensures Failsafe(cfg) == LocalCompute(cfg, BLANK.(bandwidth := ModulationWidth(cfg.linkWidthMhz))) && Failsafe(cfg).mcs == 0
  {
  }

  lemma LastPush(dev: Device, x: Write)
    requires x.SetEncoder? && x.fps == 0
    ensures var r := dev.Send(x);
      SameRadioSide(r, dev) && r.encBitrate == x.bitrateKbps && r.roiQp == x.roiQp && r.encFps == dev.encFps
  {
  }

  lemma SafeLeaves(w: World)
    requires CachesTrue(w)
    ensures var r, d := DispatchSafe(true, w).dev, Failsafe(w.ctl.cfg);
      RadioHolds(r, w.ctl.cfg, w.ctl.tx.iface, d) && SameEncoderSide(r, w.dev)
      && r.radio == Phy(w.ctl.cfg.stbc, w.ctl.cfg.ldpc, d.bandwidth, d.mcs)
  {
    hide Config.Valid, Failsafe, EncTrue, ProbeTrue, RadioTrue, Device.Overdriven;
    var c := ReconcileProbe(w.ctl);
    var d := Failsafe(c.cfg);
    var d2 := w.dev.Send(SetFec(d.k, d.n)).Send(SetRadio(Phy(c.cfg.stbc, c.cfg.ldpc, d.bandwidth, d.mcs)));
    var w3 := ProbeStep(false, World(c, d2), d);
    PowerLeaves(!c.cfg.txPowerControl, w3, d.txPowerDbm);
  }

  lemma PowerLeaves(lazy: bool, w: World, dBm: int)
    requires TxTrue(w.ctl.tx, w.dev)
    ensures var r := PowerStep(lazy, w, dBm).dev;
      && w.ctl.tx.iface in r.txMode && r.txMode[w.ctl.tx.iface] == (if w.ctl.cfg.txPowerControl then Fixed(dBm) else Auto)
      && r.fecK == w.dev.fecK && r.fecN == w.dev.fecN && r.radio == w.dev.radio && r.probe == w.dev.probe && SameEncoderSide(r, w.dev)
  {
  }

  /** A reload adopts the whole configuration; the only thing it may write is the radio word. */
  lemma ReloadLeaves(w: World, cfg: Config)
    requires w.ctl.Valid() && ValidEvent(Reload(cfg))
    ensures var r, c := Step(true, w, Reload(cfg)), w.ctl;
      && r.ctl == c.(cfg := cfg, enc := c.enc.(roi := cfg.roiQp), wd := c.wd.(timeoutMs := cfg.healthTimeoutMs))
      && SameEncoderSide(r.dev, w.dev) && r.dev.fecK == w.dev.fecK && r.dev.fecN == w.dev.fecN
      && r.dev.probe == w.dev.probe && r.dev.txMode == w.dev.txMode
      && r.dev.radio == if (cfg.stbc != c.cfg.stbc || cfg.ldpc != c.cfg.ldpc) && c.lastTx.magic == MAGIC && c.phase == Idle
                        then Phy(cfg.stbc, cfg.ldpc, c.lastTx.bandwidth, c.lastTx.mcs) else w.dev.radio
  {
    hide Config.Valid;
  }

  // ---- the decision that is applied --------------------------------------------------------------

  /** A 5 or 10 MHz channel is modulated as 20 MHz; wider ones are modulated as they are. */
  lemma Widths(width: int)
    ensures ModulationWidth(width) == if width == 5 then 20 else if width == 10 then 20 else width
  {
  }

  /** A datagram is accepted exactly when it is a whole packet with a good checksum, and its
      number is 1 to 2^31 - 1 ahead of the last accepted one or the filter is empty; what is
      applied is its rung at the configured width, with the settings derived for that rung. */
  lemma AcceptsExactly(w: World, e: Event)
    ensures Accepts(w, e) <==>
      && e.Datagram? && |e.bytes| >= 15 && WordAt(e.bytes, 0) == 0x444C4B31 && e.bytes[4] == 3
      && WordAt(e.bytes, 11) == Value(Checksum(e.bytes[..11]))
      && (w.ctl.dedup.ever ==> 0 < (WordAt(e.bytes, 6) - w.ctl.dedup.lastSeq) % 0x1_0000_0000 < 0x8000_0000)
    ensures Accepts(w, e) ==>
      var d, width := Applied(w, e), w.ctl.cfg.linkWidthMhz;
      && d == LocalCompute(w.ctl.cfg, d) && d.mcs == e.bytes[10] && d.sequence == WordAt(e.bytes, 6)
      && d.bandwidth == (if width == 5 || width == 10 then 20 else width)
  {
    hide Checksum, GetBytes;
    if e.Datagram? { VerdictExactly(e.bytes); }
  }
}
