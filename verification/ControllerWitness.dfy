/** Runs from boot that reach what the exact conditions describe: the encoder ahead of
    the radio, and settings that a suppressed write leaves stale. */
module ControllerWitness {
  import opened Common
  import opened Wire
  import opened Rate
  import opened Backends
  import opened Controller
  import opened ControllerSafety
  import opened ControllerRefinement
  import Watchdog
  import Dedup
  import Channel

  // ---- packets ---------------------------------------------------------------------------------

  function Message(seqno: U32, mcs: Byte): Decision {
    BLANK.(magic := MAGIC, version := VERSION, sequence := seqno, mcs := mcs)
  }

  function Arrival(seqno: U32, mcs: Byte, nowMs: nat): Event { Datagram(Packet(0, seqno, mcs), nowMs) }

  lemma Takes(s: Dedup.State, seqno: U32, mcs: Byte)
    requires !Dedup.Drops(s, seqno)
    ensures Channel.Front(s, Packet(0, seqno, mcs)) == Channel.Fronted(Dedup.State(true, seqno), Channel.Accepted(Message(seqno, mcs)))
  {
    hide Dedup.Drops;
    RoundTrip(0, seqno, mcs, []);
    assert Packet(0, seqno, mcs) + [] == Packet(0, seqno, mcs);
  }

  lemma NextTaken(s: Dedup.State, seqno: U32)
    requires 0 < seqno < 10 && (s.ever ==> s.lastSeq == seqno - 1)
    ensures !Dedup.Drops(s, seqno)
  {
  }

  // The state a step of packet number seqno leaves behind, caches apart.
  lemma PacketStep(w: World, seqno: U32, mcs: Byte, nowMs: nat)
    requires Ordered(w) && 0 < seqno < 10 && (w.ctl.dedup.ever ==> w.ctl.dedup.lastSeq == seqno - 1)
    ensures var e := Arrival(seqno, mcs, nowMs);
      && Accepts(w, e) && Applied(w, e) == Derive(w.ctl.cfg, Message(seqno, mcs))
      && Applied(w, e).bitrateKbps == RateAt(w.ctl.cfg, mcs) && Applied(w, e).mcs == mcs && Baseline(Applied(w, e))
      && Ordered(Step(true, w, e))
      && var c := Step(true, w, e).ctl;
        && c.dedup == Dedup.State(true, seqno) && c.gapTimer == w.ctl.gapTimer && c.cfg == w.ctl.cfg
        && c.wd == Watchdog.State(nowMs, w.ctl.wd.timeoutMs, true, false)
  {
    hide Ordered, Derive, Packet, Config.Valid, ApplyDecision, Dedup.Drops, RateAt;
    NextTaken(w.ctl.dedup, seqno);
    Takes(w.ctl.dedup, seqno, mcs);
    var e := Arrival(seqno, mcs, nowMs);
    StepKeeps(w, e);
    OrderedValid(w);
    DerivedBaseline(w.ctl.cfg, Message(seqno, mcs));
    ApplyGapTimer(World(w.ctl.(dedup := Dedup.State(true, seqno)), w.dev), Derive(w.ctl.cfg, Message(seqno, mcs)));
  }

  lemma OrderedValid(w: World)
    requires Ordered(w)
    ensures w.ctl.Valid() && w.ctl.cfg.Valid()
  {
  }

  lemma ApplyGapTimer(w: World, d: Decision)
    requires w.ctl.Valid()
    ensures var c := ApplyDecision(true, w, d).ctl; c.gapTimer == w.ctl.gapTimer && c.dedup == w.ctl.dedup && c.cfg == w.ctl.cfg
  {
    hide DispatchTx, Config.Valid, RoiQp, Device.SendIf, EncSends;
    ApplyValid(true, w, d);
    DispatchFrame(true, World(w.ctl.(phase := Idle), w.dev), d);
  }

  lemma BootOrdered(w: World)
    requires Boot(w)
    ensures Ordered(w) && !Stages(w.ctl) && !w.ctl.dedup.ever && w.ctl.phase == Idle && !Baseline(w.ctl.lastTx)
  {
  }

  // ---- the encoder ahead of the radio ------------------------------------------------------------

  /** With staggering off, two packets whose rate falls put the encoder ahead. */
  lemma UnstaggeredFallOverruns(w: World, high: Byte, low: Byte)
    requires Boot(w) && !CanStagger(w.ctl) && RateAt(w.ctl.cfg, high) > RateAt(w.ctl.cfg, low)
    ensures var es := [Arrival(1, high, 0), Arrival(2, low, 0)]; ValidRun(es) && Run(true, w, es).dev.overrun
  {
    hide Ordered, RateAt, Packet, Step, Boot, Accepts, Applied, Config.Valid;
    var es := [Arrival(1, high, 0), Arrival(2, low, 0)];
    BootOrdered(w);
    PacketStep(w, 1, high, 0);
    DatagramKeeps(w, es[0]);
    var r := Step(true, w, es[0]);
    PacketStep(r, 2, low, 0);
    RunOne(w, es);
    assert AheadAt(w, es, 1);
    RunOverrunsExactly(w, es);
  }

  lemma RunOne(w: World, es: seq<Event>)
    requires w.ctl.Valid() && ValidRun(es) && |es| >= 1
    ensures Run(true, w, es[..1]) == Step(true, w, es[0])
  {
    hide Step, Config.Valid;
    assert es[..1][..0] == [];
  }

  /** A packet, and silence until the timeout: the trip puts the encoder ahead whenever the
      rung was faster than the failsafe. */
  lemma SilenceOverruns(w: World, high: Byte)
    requires Boot(w) && RateAt(w.ctl.cfg, high) > RateAt(w.ctl.cfg, FAILSAFE_MCS)
    ensures var es := [Arrival(1, high, 0), Tick(w.ctl.cfg.healthTimeoutMs)]; ValidRun(es) && Run(true, w, es).dev.overrun
  {
    hide Ordered, RateAt, Packet, Step, Accepts, Applied, Config.Valid;
    var es := [Arrival(1, high, 0), Tick(w.ctl.cfg.healthTimeoutMs)];
    BootOrdered(w);
    PacketStep(w, 1, high, 0);
    DatagramKeeps(w, es[0]);
    RunOne(w, es);
    assert AheadAt(w, es, 1);
    RunOverrunsExactly(w, es);
  }

  // ---- stale flags ---------------------------------------------------------------------------------

  // The same configuration with the other stbc setting.
  function Flipped(cfg: Config): Config { cfg.(stbc := !cfg.stbc) }

  lemma RunLast(lazy: bool, w: World, es: seq<Event>, e: Event)
    requires w.ctl.Valid() && ValidRun(es + [e])
    ensures ValidRun(es) && Run(lazy, w, es + [e]) == Step(lazy, Run(lazy, w, es), e)
  {
    hide Step, Config.Valid;
    var all := es + [e];
    assert all[..|all| - 1] == es;
    forall i | 0 <= i < |es| ensures ValidEvent(es[i]) { assert all[i] == es[i]; }
  }

  lemma DerivedBandwidth(cfg: Config, d: Decision)
    ensures Derive(cfg, d).bandwidth == ModulationWidth(cfg.linkWidthMhz)
  {
  }

  // Idle, settled at rung mcs by packet seqno, radio and baseline in step.
  predicate At(w: World, cfg: Config, gapTimer: bool, seqno: U32, mcs: Byte) {
    var d, c := Derive(cfg, Message(seqno, mcs)), w.ctl;
    && Ordered(w) && c.cfg == cfg && c.gapTimer == gapTimer && c.dedup == Dedup.State(true, seqno)
    && c.phase == Idle && c.lastTx == d && c.lastEnc == d
    && w.dev.radio == VideoPhy(cfg, d)
  }

  lemma FirstAt(w: World, mcs: Byte)
    requires Boot(w)
    ensures var r := Step(true, w, Arrival(1, mcs, 0));
      && At(r, w.ctl.cfg, w.ctl.gapTimer, 1, mcs)
      && (w.ctl.cfg.probeCtlPort != 0 ==>
            && r.ctl.probePort == w.ctl.cfg.probeCtlPort && r.ctl.lastProbe == ProbeRung(mcs, w.ctl.cfg.probeMcsCeiling)
            && r.dev.probe == ProbePhy(w.ctl.cfg, Derive(w.ctl.cfg, Message(1, mcs))))
  {
    hide Step, Derive, Packet, RateAt, Config.Valid, Accepts, Applied, Ordered, Boot, RadioAfter, ProbeAfter;
    var e := Arrival(1, mcs, 0);
    BootOrdered(w);
    PacketStep(w, 1, mcs, 0);
    DatagramKeeps(w, e);
    StepPhys(true, w, e);
    FirstPhys(w, e);
    if w.ctl.cfg.probeCtlPort != 0 { FirstProbe(w, e); }
    OneShotEnc(Step(true, w, e));
  }

  lemma FirstPhys(w: World, e: Event)
    requires Boot(w) && Accepts(w, e)
    ensures RadioAfter(true, w, e) == VideoPhy(w.ctl.cfg, Applied(w, e))
    ensures w.ctl.cfg.probeCtlPort != 0 ==> ProbeAfter(true, w, e) == ProbePhy(w.ctl.cfg, Applied(w, e))
  {
    hide Channel.Front, Derive, Config.Valid;
  }

  lemma OneShotEnc(w: World)
    requires Ordered(w) && w.ctl.phase == Idle && Baseline(w.ctl.lastTx)
    ensures w.ctl.lastEnc == w.ctl.lastTx
  {
  }

  // A first decision opens the probe's client and tunes it.
  lemma FirstProbe(w: World, e: Event)
    requires Boot(w) && Accepts(w, e) && w.ctl.cfg.probeCtlPort != 0
    ensures var c := Step(true, w, e).ctl;
      c.probePort == w.ctl.cfg.probeCtlPort && c.lastProbe == ProbeRung(Applied(w, e).mcs, w.ctl.cfg.probeMcsCeiling)
  {
    hide Channel.Front, Derive, Device.SendIf, Device.Send, RoiQp, EncSends, FixedSends, AutoSends, FecSends, RadioSends;
  }

  lemma UpStep(w: World, e: Event)
    requires w.ctl.Valid() && Accepts(w, e) && Stages(w.ctl) && Applied(w, e).bitrateKbps > w.ctl.lastEnc.bitrateKbps
    ensures var c := Step(true, w, e).ctl; c.phase == UpGap && c.lastTx == Applied(w, e) && c.lastEnc == w.ctl.lastEnc
  {
    hide Channel.Front, Derive, Config.Valid, RoiQp, DispatchTx, EncStep, Device.SendIf;
    var f := Channel.Front(w.ctl.dedup, e.bytes);
    DispatchFrame(true, World(w.ctl.(dedup := f.state, phase := Idle), w.dev), Applied(w, e));
  }

  lemma ReloadStep(w: World, cfg: Config)
    requires Ordered(w) && ValidEvent(Reload(cfg))
    ensures var r := Step(true, w, Reload(cfg));
      && Ordered(r) && r.ctl == w.ctl.(cfg := cfg, enc := r.ctl.enc, wd := r.ctl.wd) && r.dev.probe == w.dev.probe
      && (w.ctl.phase != Idle ==> r.dev == w.dev)
  {
    hide Config.Valid, Device.Overdriven;
    ReloadKeeps(w, cfg);
  }

  lemma FlipRate(cfg: Config, mcs: Byte)
    ensures RateAt(Flipped(cfg), mcs) == RateAt(cfg, mcs)
  {
  }

  lemma FlipValid(w: World)
    requires Ordered(w)
    ensures ValidEvent(Reload(Flipped(w.ctl.cfg)))
  {
  }

  /** Flags changed while idle reach the video radio at once; a next decision at the same
      rung leaves the probe with the old ones. */
  lemma IdleFlipMissesProbe(w: World, mcs: Byte)
    requires Boot(w) && w.ctl.cfg.probeCtlPort != 0
    ensures var es := [Arrival(1, mcs, 0), Reload(Flipped(w.ctl.cfg)), Arrival(2, mcs, 0)];
      ValidRun(es) && !SameProbe(Run(true, w, es).dev.probe, Run(false, w, es).dev.probe)
  {
    hide Step, Derive, Packet, RateAt, Config.Valid, Accepts, Applied, Ordered, Boot, Message;
    var e0, e1, e2 := Arrival(1, mcs, 0), Reload(Flipped(w.ctl.cfg)), Arrival(2, mcs, 0);
    BootOrdered(w);
    FlipValid(w);
    FirstAt(w, mcs);
    var r1 := Step(true, w, e0);
    ReloadStep(r1, Flipped(w.ctl.cfg));
    OrderedValid(r1);
    var r2 := Step(true, r1, e1);
    PacketStep(w, 1, mcs, 0);
    PacketStep(r2, 2, mcs, 0);
    FlipRate(w.ctl.cfg, mcs);
    DerivedBaseline(w.ctl.cfg, Message(1, mcs));
    OrderedValid(w);
    ProbeWithheld(r2, e2, w.ctl.cfg);
    var es := [e0, e1, e2];
    Three(w, e0, e1, e2);
    assert ProbeStuck(w, es);
    ProbeExactly(w, es);
  }

  lemma Three(w: World, e0: Event, e1: Event, e2: Event)
    requires w.ctl.Valid() && ValidEvent(e0) && ValidEvent(e1) && ValidEvent(e2)
    ensures ValidRun([e0, e1, e2]) && [e0, e1, e2][..2] == [e0, e1]
    ensures Step(true, w, e0).ctl.Valid() && Run(true, w, [e0, e1]) == Step(true, Step(true, w, e0), e1)
  {
    hide Step, Config.Valid;
    assert [] + [e0] == [e0] && [e0] + [e1] == [e0, e1];
    RunLast(true, w, [], e0);
    RunLast(true, w, [e0], e1);
    StepValid(true, w, e0);
  }

  lemma ProbeWithheld(r2: World, e: Event, cfg: Config)
    requires Accepts(r2, e) && r2.ctl.cfg == Flipped(cfg) && r2.ctl.probePort == cfg.probeCtlPort != 0
    requires r2.ctl.lastProbe == ProbeRung(Applied(r2, e).mcs, cfg.probeMcsCeiling) && r2.dev.probe.stbc == cfg.stbc
    requires r2.ctl.lastEnc.bitrateKbps == Applied(r2, e).bitrateKbps
    ensures RestatesProbe(r2, e) && WithholdsProbe(r2, e) && !ProbeHas(r2, e)
  {
    hide Channel.Front, Derive, Config.Valid;
  }

  /** Flags changed in mid-gap do not reach the video radio, and a next decision at the same
      rung does not bring them. */
  lemma MidGapFlipMissesRadio(w: World, low: Byte, high: Byte)
    requires Boot(w) && CanStagger(w.ctl) && RateAt(w.ctl.cfg, low) < RateAt(w.ctl.cfg, high)
    ensures var es := [Arrival(1, low, 0), Arrival(2, high, 0), Reload(Flipped(w.ctl.cfg)), Arrival(3, high, 0)];
      ValidRun(es) && !SameFlags(Run(true, w, es).dev.radio, Run(false, w, es).dev.radio)
  {
    hide Step, Derive, Packet, RateAt, Config.Valid, Accepts, Applied, Ordered, Boot, Message;
    var e0, e1, e2, e3 := Arrival(1, low, 0), Arrival(2, high, 0), Reload(Flipped(w.ctl.cfg)), Arrival(3, high, 0);
    BootOrdered(w);
    FlipValid(w);
    OrderedValid(w);
    FirstAt(w, low);
    PacketStep(w, 1, low, 0);
    var r1 := Step(true, w, e0);
    PacketStep(r1, 2, high, 0);
    OrderedValid(r1);
    DerivedBaseline(w.ctl.cfg, Message(1, low));
    UpStep(r1, e1);
    StepPhys(true, r1, e1);
    var r2 := Step(true, r1, e1);
    ReloadStep(r2, Flipped(w.ctl.cfg));
    OrderedValid(r2);
    var r3 := Step(true, r2, e2);
    PacketStep(r3, 3, high, 0);
    FlipRate(w.ctl.cfg, high);
    DerivedBandwidth(w.ctl.cfg, Message(2, high));
    DerivedBandwidth(Flipped(w.ctl.cfg), Message(3, high));
    FlagsWithheld(r1, e1, r3, e3, w.ctl.cfg);
    Three(w, e0, e1, e2);
    var es := [e0, e1, e2, e3];
    assert [e0, e1] + [e2] == [e0, e1, e2] == es[..3];
    RunLast(true, w, [e0, e1], e2);
    assert FlagsStuck(w, es);
    FlagsExactly(w, es);
  }

  lemma FlagsWithheld(r1: World, e1: Event, r3: World, e3: Event, cfg: Config)
    requires Accepts(r1, e1) && Accepts(r3, e3) && r1.ctl.cfg == cfg && r3.ctl.cfg == Flipped(cfg)
    requires Applied(r1, e1).bitrateKbps > r1.ctl.lastEnc.bitrateKbps && Applied(r1, e1).mcs != r1.ctl.lastTx.mcs
    requires r3.dev.radio == RadioAfter(true, r1, e1) && r3.ctl.lastTx == Applied(r1, e1) && Baseline(r3.ctl.lastTx)
    requires Applied(r3, e3).mcs == Applied(r1, e1).mcs && Applied(r3, e3).bandwidth == Applied(r1, e1).bandwidth
    requires Applied(r3, e3).bitrateKbps > r3.ctl.lastEnc.bitrateKbps
    ensures RestatesRadio(r3, e3) && WithholdsRadio(r3, e3) && !FlagsAre(r3.dev, r3.ctl.cfg)
  {
    hide Channel.Front, Derive, Config.Valid;
  }

  // ---- a configuration in which all of these happen -------------------------------------------------------

  function Demo(staggerMs: nat): Config {
    Config(1000, staggerMs, true, 0, 50, RoiCurve(10000, 2000, -20, 1),
           BitrateConfig(0.5, 1.0, 1, 32, 1000, 60000, 1400, 60), false, true, 20, true, 8001, 7, true, "wlan0")
  }

  function Powered(staggerMs: nat): World {
    World(Initial(Demo(staggerMs), true),
          Device(0, 0, Phy(false, false, 20, 0), Phy(false, false, 20, 0), map[], 0, 0, 0, None, false, []))
  }

  lemma DemoRates(staggerMs: nat)
    ensures RateAt(Demo(staggerMs), 0) == 4181 && RateAt(Demo(staggerMs), 7) == 36386
  {
    DemoRate(staggerMs, 0, 6500.0 * (2.0 / 3.0 - 280.0 / 12000.0), 4181);
    DemoRate(staggerMs, 7, 55000.0 * (2.0 / 3.0 - 280.0 / 55000.0), 36386);
  }

  lemma DemoRate(staggerMs: nat, mcs: Byte, target: real, rate: int)
    requires Target(Demo(staggerMs), mcs) == target && rate as real <= target < (rate + 1) as real && 1000 <= rate <= 60000
    ensures RateAt(Demo(staggerMs), mcs) == rate
  {
    hide Target;
    assert target * 100.0 / 100.0 == target;
  }

  /** Concretely: a validated configuration at 20 MHz with the probe on. */
  lemma DemoRuns()
    ensures Boot(Powered(0)) && Boot(Powered(20))
    ensures var es := [Arrival(1, 7, 0), Arrival(2, 0, 0)]; ValidRun(es) && Run(true, Powered(0), es).dev.overrun
    ensures var es := [Arrival(1, 7, 0), Tick(1000)]; ValidRun(es) && Run(true, Powered(20), es).dev.overrun
    ensures var es := [Arrival(1, 7, 0), Reload(Flipped(Demo(20))), Arrival(2, 7, 0)];
      ValidRun(es) && !SameProbe(Run(true, Powered(20), es).dev.probe, Run(false, Powered(20), es).dev.probe)
    ensures var es := [Arrival(1, 0, 0), Arrival(2, 7, 0), Reload(Flipped(Demo(20))), Arrival(3, 7, 0)];
      ValidRun(es) && !SameFlags(Run(true, Powered(20), es).dev.radio, Run(false, Powered(20), es).dev.radio)
  {
    hide Run, Packet, RateAt, ValidRun, Arrival;
    DemoRates(0);
    DemoRates(20);
    UnstaggeredFallOverruns(Powered(0), 7, 0);
    SilenceOverruns(Powered(20), 7);
    IdleFlipMissesProbe(Powered(20), 7);
    MidGapFlipMissesRadio(Powered(20), 0, 7);
  }
}
