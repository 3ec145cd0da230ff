/** The drone's apply loop (drone/src/dynlink/controller.cpp): an event-driven
    machine that applies a decision in two staggered phases so that the encoder
    never outruns the radio.  Threads, sockets and timers are reduced to the events
    they deliver, in any order. */
module Controller {
  import opened Common
  import opened Wire
  import opened Rate
  import opened Backends
  import Dedup
  import Watchdog
  import Channel

  datatype Phase = Idle | UpGap | DownGap

  datatype Direction = Equal | Up | Down

  // Which way the bitrate moves; the first decision is applied in one shot.
  function ApplyDirection(prev: int, next: int, first: bool): Direction {
    if first then Equal else if next > prev then Up else if next < prev then Down else Equal
  }

  /** gapTimer: whether the gap timer could be created.  A lastTx or lastEnc whose
      magic is not MAGIC means "nothing applied yet, or invalidated by a trip". */
  datatype Ctl = Ctl(
    cfg: Config, gapTimer: bool,
    phase: Phase, pending: Decision, lastTx: Decision, lastEnc: Decision,
    probePort: int, lastProbe: int,
    enc: Enc, tx: Tx, wd: Watchdog.State, dedup: Dedup.State)
  {
    predicate Valid() {
      cfg.Valid() && cfg.probeMcsCeiling >= 0 && enc.roi == cfg.roiQp
    }
  }

  datatype World = World(ctl: Ctl, dev: Device)

  datatype Event =
    | Datagram(bytes: seq<Byte>, nowMs: nat)
    | Tick(nowMs: nat)
    | Gap
    | Reload(cfg: Config)

  predicate ValidEvent(e: Event) {
    e.Reload? ==> e.cfg.Valid() && e.cfg.probeMcsCeiling >= 0
  }

  const FAILSAFE_MCS := 0

  // The radio keeps 20 MHz modulation on 5 and 10 MHz channels.
  function ModulationWidth(width: int): int {
    if width == 5 || width == 10 then 20 else width
  }

  function ProbeRung(mcs: int, ceiling: int): int {
    if mcs + 1 < ceiling then mcs + 1 else ceiling
  }

  // The probe mirrors the video's flags and bandwidth one rung up.
  function ProbePhy(cfg: Config, d: Decision): Phy {
    Phy(cfg.stbc, cfg.ldpc, d.bandwidth, ProbeRung(d.mcs, cfg.probeMcsCeiling))
  }

  predicate Baseline(d: Decision) { d.magic == MAGIC }

  function Initial(cfg: Config, gapTimer: bool): Ctl {
    Ctl(cfg, gapTimer, Idle, BLANK, BLANK, BLANK, 0, -1,
        FreshEnc(cfg.roiQp), FreshTx(cfg.iface), Watchdog.State(0, cfg.healthTimeoutMs, false, false), Dedup.State(false, 0))
  }

  // ---- dispatch --------------------------------------------------------------------

  // A probe knob that flipped since the last dispatch forgets the probe's rung.
  function ReconcileProbe(c: Ctl): Ctl {
    if c.cfg.probeCtlPort == c.probePort then c else c.(probePort := c.cfg.probeCtlPort, lastProbe := -1)
  }

  predicate FecSends(lazy: bool, c: Ctl, d: Decision) {
    !(lazy && Baseline(c.lastTx) && c.lastTx.k == d.k && c.lastTx.n == d.n)
  }

  predicate RadioSends(lazy: bool, c: Ctl, d: Decision) {
    !(lazy && Baseline(c.lastTx) && c.lastTx.mcs == d.mcs && c.lastTx.bandwidth == d.bandwidth)
  }

  predicate ProbeSends(lazy: bool, c: Ctl, d: Decision) {
    c.probePort != 0 && !(lazy && ProbeRung(d.mcs, c.cfg.probeMcsCeiling) == c.lastProbe)
  }

  // The tx-power step of a dispatch: the per-rung curve, or the driver's own table.
  function PowerStep(lazy: bool, w: World, dBm: int): World {
    var t := w.ctl.tx;
    if w.ctl.cfg.txPowerControl then
      World(w.ctl.(tx := Tx(t.iface, Some(dBm), false)), w.dev.SendIf(FixedSends(lazy, t, dBm), SetTxPower(t.iface, Fixed(dBm))))
    else
      World(w.ctl.(tx := if AutoSends(lazy, t) then Tx(t.iface, None, true) else t),
            w.dev.SendIf(AutoSends(lazy, t), SetTxPower(t.iface, Auto)))
  }

  function ProbeStep(lazy: bool, w: World, d: Decision): World {
    var rung := ProbeRung(d.mcs, w.ctl.cfg.probeMcsCeiling);
    World(w.ctl.(lastProbe := if w.ctl.probePort != 0 then rung else w.ctl.lastProbe),
          w.dev.SendIf(ProbeSends(lazy, w.ctl, d), SetProbe(ProbePhy(w.ctl.cfg, d))))
  }

  function DispatchTx(lazy: bool, w: World, d: Decision): World {
    var c := ReconcileProbe(w.ctl);
    var dev := w.dev
      .SendIf(FecSends(lazy, c, d), SetFec(d.k, d.n))
      .SendIf(RadioSends(lazy, c, d), SetRadio(Phy(c.cfg.stbc, c.cfg.ldpc, d.bandwidth, d.mcs)));
    var w' := PowerStep(lazy, ProbeStep(lazy, World(c, dev), d), d.txPowerDbm);
    World(w'.ctl.(lastTx := d), w'.dev.Send(Tuned(d)))
  }

  // The decision a trip falls back to: rung 0 through the ordinary derivation.
  function Failsafe(cfg: Config): Decision {
    LocalCompute(cfg, BLANK.(mcs := FAILSAFE_MCS, bandwidth := ModulationWidth(cfg.linkWidthMhz)))
  }

  function DispatchSafe(lazy: bool, w: World): World {
    var c := ReconcileProbe(w.ctl);
    var d := Failsafe(c.cfg);
    var dev := w.dev.Send(SetFec(d.k, d.n)).Send(SetRadio(Phy(c.cfg.stbc, c.cfg.ldpc, d.bandwidth, d.mcs)));
    // Here the probe is retuned, and a fixed power written, unconditionally.
    var w' := ProbeStep(false, World(c, dev), d);
    var w'' := PowerStep(lazy && !c.cfg.txPowerControl, w', d.txPowerDbm);
    World(w''.ctl, w''.dev.Send(Tuned(d)))
  }

  function EncStep(lazy: bool, w: World, d: Decision): World
    requires w.ctl.Valid()
  {
    World(w.ctl.(enc := EncApplied(w.ctl.enc, d.bitrateKbps, d.fps), lastEnc := d),
          w.dev.SendIf(EncSends(lazy, w.ctl.enc, d.bitrateKbps, d.fps), EncSettings(w.ctl.enc, d.bitrateKbps, d.fps)))
  }

  // ---- events ---------------------------------------------------------------------------

  // What the drone makes of an accepted packet under the current configuration.
  function Derive(cfg: Config, d: Decision): Decision {
    LocalCompute(cfg, d.(bandwidth := ModulationWidth(cfg.linkWidthMhz)))
  }

  predicate CanStagger(c: Ctl) { c.cfg.applyStaggerMs != 0 && c.gapTimer }

  // The direction test of an accepted decision, against what the encoder was told.
  function DirectionOf(c: Ctl, d: Decision): Direction {
    ApplyDirection(c.lastEnc.bitrateKbps, d.bitrateKbps, !Baseline(c.lastEnc))
  }

  function ApplyDecision(lazy: bool, w: World, d: Decision): World
    requires w.ctl.Valid()
  {
    var w0 := World(w.ctl.(phase := Idle), w.dev);
    var dir := DirectionOf(w.ctl, d);
    if !CanStagger(w.ctl) || dir == Equal then EncStep(lazy, DispatchTx(lazy, w0, d), d)
    else if dir == Up then
      var w' := DispatchTx(lazy, w0, d);
      World(w'.ctl.(pending := d, phase := UpGap), w'.dev)
    else
      var w' := EncStep(lazy, w0, d);
      World(w'.ctl.(pending := d, phase := DownGap), w'.dev)
  }

  function OnDatagram(lazy: bool, w: World, bytes: seq<Byte>, nowMs: nat): World
    requires w.ctl.Valid()
  {
    var f := Channel.Front(w.ctl.dedup, bytes);
    match f.got
    case Dropped => w
    case Accepted(d) =>
      var w' := ApplyDecision(lazy, World(w.ctl.(dedup := f.state), w.dev), Derive(w.ctl.cfg, d));
      World(w'.ctl.(wd := Watchdog.State(nowMs, w.ctl.wd.timeoutMs, true, false)), w'.dev)
  }

  function OnTick(lazy: bool, w: World, nowMs: nat): World
    requires w.ctl.Valid()
  {
    if !Watchdog.Trips(w.ctl.wd, nowMs) then w
    else
      var w0 := World(w.ctl.(phase := Idle, wd := w.ctl.wd.(tripped := true)), w.dev);
      var sf := Failsafe(w.ctl.cfg);
      var w' := DispatchSafe(lazy, w0);
      var e := w'.ctl.enc;
      World(w'.ctl.(enc := Enc(e.roi, true, sf.bitrateKbps, RoiQp(sf.bitrateKbps, e.roi), 0),
                    lastTx := BLANK, lastEnc := BLANK, tx := FreshTx(w.ctl.cfg.iface),
                    dedup := w.ctl.dedup.(ever := false)),
            w'.dev.Send(EncSettings(e, sf.bitrateKbps, 0)))
  }

  function OnGap(lazy: bool, w: World): World
    requires w.ctl.Valid()
  {
    var w' := match w.ctl.phase
      case UpGap => EncStep(lazy, w, w.ctl.pending)
      case DownGap => DispatchTx(lazy, w, w.ctl.pending)
      case Idle => w;
    World(w'.ctl.(phase := Idle), w'.dev)
  }

  predicate FlagsChange(a: Config, b: Config) {
    a.stbc != b.stbc || a.ldpc != b.ldpc
  }

  predicate Restates(lazy: bool, c: Ctl, cfg: Config) {
    !(lazy && !FlagsChange(c.cfg, cfg)) && Baseline(c.lastTx) && c.phase == Idle
  }

  function OnReload(lazy: bool, w: World, cfg: Config): World {
    World(w.ctl.(cfg := cfg, enc := w.ctl.enc.(roi := cfg.roiQp), wd := w.ctl.wd.(timeoutMs := cfg.healthTimeoutMs)),
          w.dev.SendIf(Restates(lazy, w.ctl, cfg), SetRadio(Phy(cfg.stbc, cfg.ldpc, w.ctl.lastTx.bandwidth, w.ctl.lastTx.mcs))))
  }

  function Step(lazy: bool, w: World, e: Event): World
    requires w.ctl.Valid()
  {
    match e
    case Datagram(bytes, now) => OnDatagram(lazy, w, bytes, now)
    case Tick(now) => OnTick(lazy, w, now)
    case Gap => OnGap(lazy, w)
    case Reload(cfg) => OnReload(lazy, w, cfg)
  }

  // What a dispatch leaves alone.
  lemma DispatchFrame(lazy: bool, w: World, d: Decision)
    ensures var c := DispatchTx(lazy, w, d).ctl;
      c == w.ctl.(probePort := c.probePort, lastProbe := c.lastProbe, tx := c.tx, lastTx := d)
  {
    hide Device.SendIf, Device.Send, FixedSends, AutoSends;
  }

  lemma SafeFrame(lazy: bool, w: World)
    ensures var c := DispatchSafe(lazy, w).ctl;
      c == w.ctl.(probePort := c.probePort, lastProbe := c.lastProbe, tx := c.tx)
  {
    hide Device.SendIf, Device.Send, FixedSends, AutoSends, Failsafe;
  }

  lemma ApplyValid(lazy: bool, w: World, d: Decision)
    requires w.ctl.Valid()
    ensures ApplyDecision(lazy, w, d).ctl.Valid()
    ensures var c := ApplyDecision(lazy, w, d).ctl; c.wd == w.ctl.wd && c.dedup == w.ctl.dedup && c.cfg == w.ctl.cfg
  {
    var w0 := World(w.ctl.(phase := Idle), w.dev);
    DispatchFrame(lazy, w0, d);
    hide DispatchTx, Config.Valid, RoiQp, Device.SendIf, EncSends;
  }

  lemma StepValid(lazy: bool, w: World, e: Event)
    requires w.ctl.Valid() && ValidEvent(e)
    ensures Step(lazy, w, e).ctl.Valid()
  {
    hide LocalCompute, RoiQp, Config.Valid, Channel.Front, ApplyDecision, DispatchTx, DispatchSafe, Device.SendIf, Device.Send, Failsafe, Derive;
    match e
    case Datagram(bytes, now) =>
      var f := Channel.Front(w.ctl.dedup, bytes);
      if f.got.Accepted? {
        ApplyValid(lazy, World(w.ctl.(dedup := f.state), w.dev), Derive(w.ctl.cfg, f.got.d));
      }
    case Tick(now) =>
      SafeFrame(lazy, World(w.ctl.(phase := Idle, wd := w.ctl.wd.(tripped := true)), w.dev));
    case Gap =>
      DispatchFrame(lazy, w, w.ctl.pending);
    case Reload(_) =>
  }

  // A whole run; events arrive in order.
  function Run(lazy: bool, w: World, es: seq<Event>): (r: World)
    requires w.ctl.Valid() && forall i :: 0 <= i < |es| ==> ValidEvent(es[i])
    ensures r.ctl.Valid()
  {
    if es == [] then w
    else
      var w' := Run(lazy, w, es[..|es| - 1]);
      StepValid(lazy, w', es[|es| - 1]);
      Step(lazy, w', es[|es| - 1])
  }

  // ---- the imperative loop -----------------------------------------------------------------

  class DynamicLinkController {
    const plant: Plant
    const enc: EncoderClient
    const radio: RadioTxpower
    const watchdog: Watchdog.Timer
    const dedup: Dedup.Filter
    const gapTimer: bool
    var cfg: Config
    var phase: Phase
    var pending: Decision
    var lastTx: Decision
    var lastEnc: Decision
    var probePort: int
    var lastProbe: int

    ghost predicate Wired() reads this {
      enc.client == plant && radio.client == plant
    }

    function View(): Ctl
      reads this, enc, radio, watchdog, dedup
    {
      Ctl(cfg, gapTimer, phase, pending, lastTx, lastEnc, probePort, lastProbe,
          enc.View(), radio.View(), watchdog.View(), dedup.View())
    }

    function State(): World
      reads this, plant, enc, radio, watchdog, dedup
    {
      World(View(), plant.dev)
    }

    constructor (cfg: Config, gapTimer: bool, plant: Plant)
      ensures Wired() && this.plant == plant && fresh(enc) && fresh(radio) && fresh(watchdog) && fresh(dedup)
      ensures View() == Initial(cfg, gapTimer) && plant.dev == old(plant.dev)
    {
      this.plant, this.gapTimer, this.cfg := plant, gapTimer, cfg;
      enc := new EncoderClient(plant, cfg.roiQp);
      radio := new RadioTxpower(plant, cfg.iface);
      watchdog := new Watchdog.Timer(cfg.healthTimeoutMs);
      dedup := new Dedup.Filter();
      phase, pending := Idle, BLANK;
      lastTx, lastEnc := BLANK, BLANK;
      probePort, lastProbe := 0, -1;
    }

    method ReconcileProbeClient()
      modifies this
      ensures View() == ReconcileProbe(old(View()))
    {
      if cfg.probeCtlPort == probePort {
        return;
      }
      probePort := cfg.probeCtlPort;
      lastProbe := -1;
    }

    method DispatchTxApply(d: Decision)
      requires Wired()
      modifies this, plant, radio
      ensures State() == DispatchTx(true, old(State()), d)
    {
      hide LocalCompute, RoiQp, Config.Valid, Device.Send, ProbeStep, PowerStep;
      ReconcileProbeClient();
      var first := lastTx.magic != MAGIC;
      if first || lastTx.k != d.k || lastTx.n != d.n {
        plant.Send(SetFec(d.k, d.n));
      }
      if first || lastTx.mcs != d.mcs || lastTx.bandwidth != d.bandwidth {
        plant.Send(SetRadio(Phy(cfg.stbc, cfg.ldpc, d.bandwidth, d.mcs)));
      }
      RetuneProbe(d);
      StepPower(d.txPowerDbm);
      lastTx := d;
      plant.Send(Tuned(d));
    }

    // The probe rides one rung above the video, clamped.
    method RetuneProbe(d: Decision)
      modifies this`lastProbe, plant
      ensures State() == ProbeStep(true, old(State()), d)
    {
      if probePort != 0 {
        var rung := ProbeRung(d.mcs, cfg.probeMcsCeiling);
        if rung != lastProbe {
          plant.Send(SetProbe(ProbePhy(cfg, d)));
          lastProbe := rung;
        }
      }
    }

    method StepPower(dBm: int)
      requires Wired()
      modifies plant, radio
      ensures State() == PowerStep(true, old(State()), dBm)
    {
      if cfg.txPowerControl {
        radio.Apply(dBm);
      } else {
        radio.ApplyAuto();
      }
    }

    method DispatchTxSafe() returns (d: Decision)
      requires Wired()
      modifies this, plant, radio
      ensures d == Failsafe(old(cfg))
      ensures State() == DispatchSafe(true, old(State()))
    {
      hide LocalCompute, RoiQp, Config.Valid, Device.Send;
      ReconcileProbeClient();
      d := BLANK.(mcs := FAILSAFE_MCS, bandwidth := ModulationWidth(cfg.linkWidthMhz));
      d := LocalCompute(cfg, d);
      plant.Send(SetFec(d.k, d.n));
      plant.Send(SetRadio(Phy(cfg.stbc, cfg.ldpc, d.bandwidth, d.mcs)));
      if probePort != 0 {
        var rung := ProbeRung(d.mcs, cfg.probeMcsCeiling);
        plant.Send(SetProbe(ProbePhy(cfg, d)));
        lastProbe := rung;
      }
      if cfg.txPowerControl {
        radio.ApplySafe(d.txPowerDbm);
      } else {
        radio.ApplyAuto();
      }
      plant.Send(Tuned(d));
    }

    // Encoder push with the baseline update that always accompanies it.
    method ApplyEncoder(d: Decision)
      requires Wired() && View().Valid()
      modifies this, plant, enc
      ensures State() == EncStep(true, old(State()), d)
    {
      hide LocalCompute, RoiQp, Config.Valid;
      CurveValid(View());
      enc.Apply(d.bitrateKbps, d.fps);
      lastEnc := d;
    }

    method ReadDatagram(bytes: seq<Byte>, nowMs: nat)
      requires Wired() && View().Valid()
      modifies this, plant, enc, radio, watchdog, dedup
      ensures State() == OnDatagram(true, old(State()), bytes, nowMs)
    {
      hide LocalCompute, RoiQp, Config.Valid, Decoded, Packet, Dedup.Drops, ApplyDecision, CrcWord, GetU32, Verdict;
      if !IsDecisionKind(bytes) {
        return;
      }
      var result, d := DecodeDecision(bytes);
      if result != Ok {
        return;
      }
      var drop := dedup.Check(d.sequence);
      if drop {
        return;
      }
      d := d.(bandwidth := ModulationWidth(cfg.linkWidthMhz));
      d := LocalCompute(cfg, d);
      ApplyValid(true, State(), d);
      ApplyAccepted(d);
      watchdog.NotifyDecision(nowMs);
    }

    // A new decision supersedes any pending second phase.
    method ApplyAccepted(d: Decision)
      requires Wired() && View().Valid()
      modifies this, plant, enc, radio
      ensures State() == ApplyDecision(true, old(State()), d)
    {
      hide LocalCompute, RoiQp, Config.Valid, DispatchTx, EncSends, EncSettings, Device.SendIf;
      if phase != Idle {
        phase := Idle;
      }
      DispatchFrame(true, State(), d);
      var first := lastEnc.magic != MAGIC;
      var dir := ApplyDirection(lastEnc.bitrateKbps, d.bitrateKbps, first);
      var canStagger := cfg.applyStaggerMs != 0 && gapTimer;
      if !canStagger || dir == Equal {
        DispatchTxApply(d);
        ApplyEncoder(d);
      } else if dir == Up {
        DispatchTxApply(d);
        pending := d;
        phase := UpGap;
      } else {
        ApplyEncoder(d);
        pending := d;
        phase := DownGap;
      }
    }

    method ReadTick(nowMs: nat)
      requires Wired() && View().Valid()
      modifies this, plant, enc, radio, watchdog, dedup
      ensures State() == OnTick(true, old(State()), nowMs)
    {
      hide LocalCompute, RoiQp, Config.Valid, DispatchSafe, Failsafe, Device.Send;
      SafeFrame(true, World(View().(phase := Idle, wd := View().wd.(tripped := true)), plant.dev));
      var fired := watchdog.Tick(nowMs);
      if fired {
        if phase != Idle {
          phase := Idle;
        }
        CurveValid(View());
        var sf := DispatchTxSafe();
        enc.ApplySafe(sf.bitrateKbps);
        lastTx := BLANK;
        lastEnc := BLANK;
        radio.SetIface(cfg.iface);
        dedup.Reset();
      }
    }

    method ReadGap()
      requires Wired() && View().Valid()
      modifies this, plant, enc, radio
      ensures State() == OnGap(true, old(State()))
    {
      hide LocalCompute, RoiQp, Config.Valid;
      if phase == UpGap {
        ApplyEncoder(pending);
      } else if phase == DownGap {
        DispatchTxApply(pending);
      }
      phase := Idle;
    }

    method ReadReload(newCfg: Config)
      requires Wired() && View().Valid()
      modifies this`cfg, plant, enc`roi, watchdog`timeoutMs
      ensures State() == OnReload(true, old(State()), newCfg)
    {
      hide LocalCompute, RoiQp, Config.Valid, Device.Send;
      var flagsChanged := newCfg.stbc != cfg.stbc || newCfg.ldpc != cfg.ldpc;
      Adopt(newCfg);
      if flagsChanged && lastTx.magic == MAGIC && phase == Idle {
        plant.Send(SetRadio(Phy(cfg.stbc, cfg.ldpc, lastTx.bandwidth, lastTx.mcs)));
      }
    }

    // The parts that hold their own copy of a setting get the new one.
    method Adopt(newCfg: Config)
      modifies this`cfg, enc`roi, watchdog`timeoutMs
      ensures cfg == newCfg && enc.roi == newCfg.roiQp && watchdog.timeoutMs == newCfg.healthTimeoutMs
    {
      watchdog.SetTimeout(newCfg.healthTimeoutMs);
      enc.SetRoiCurve(newCfg.roiQp);
      cfg := newCfg;
    }
  }

  lemma CurveValid(c: Ctl)
    requires c.Valid()
    ensures c.enc.roi.Valid()
  {
  }
}
