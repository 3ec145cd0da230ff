/** What the controller drives: the radio, the transmit power, the observe-only
    probe and the video encoder, with the caches that suppress repeated writes
    (drone/src/dynlink/encoder_client.cpp and radio_txpower.cpp).  Every write is
    taken to succeed. */
module Backends {
  import opened Common
  import opened Wire
  import opened Rate

  datatype TxMode = Auto | Fixed(dBm: int)

  // The whole radiotap word: one command sets all of it.
  datatype Phy = Phy(stbc: bool, ldpc: bool, bandwidth: int, mcs: int)

  datatype Write =
    | SetFec(k: int, n: int)
    | SetRadio(phy: Phy)
    | SetProbe(phy: Phy)
    | SetTxPower(iface: string, mode: TxMode)
    | SetEncoder(bitrateKbps: int, roiQp: int, fps: int)  // fps 0: left as it is
    | Tuned(d: Decision)                                   // the radio is now set up for d

  /** The hardware, as the sum of the writes it has received.  `overrun` records
      whether the encoder was ever told, at any single write, to produce more than
      the decision the radio was set up for. */
  datatype Device = Device(
    fecK: int, fecN: int, radio: Phy, probe: Phy, txMode: map<string, TxMode>,
    encBitrate: int, roiQp: int, encFps: int,
    tunedFor: Option<Decision>, overrun: bool, log: seq<Write>)
  {
    predicate Overdriven() {
      tunedFor.Some? && encBitrate > tunedFor.value.bitrateKbps
    }

    function Set(w: Write): Device {
      match w
      case SetFec(k, n) => this.(fecK := k, fecN := n)
      case SetRadio(p) => this.(radio := p)
      case SetProbe(p) => this.(probe := p)
      case SetTxPower(i, m) => this.(txMode := txMode[i := m])
      case SetEncoder(b, q, f) => this.(encBitrate := b, roiQp := q, encFps := if f != 0 then f else encFps)
      case Tuned(d) => this.(tunedFor := Some(d))
    }

    function Send(w: Write): Device {
      var after := Set(w);
      after.(overrun := overrun || after.Overdriven(), log := log + [w])
    }

    // A write that a cache may hold back.
    function SendIf(go: bool, w: Write): Device {
      if go then Send(w) else this
    }
  }

  // Commanded settings agree, the flags of the radio and the probe's flags and
  // bandwidth apart; the histories need not.
  predicate SameSettings(a: Device, b: Device) {
    && a.fecK == b.fecK && a.fecN == b.fecN && a.radio.bandwidth == b.radio.bandwidth && a.radio.mcs == b.radio.mcs
    && a.probe.mcs == b.probe.mcs && a.txMode == b.txMode
    && a.encBitrate == b.encBitrate && a.roiQp == b.roiQp && a.encFps == b.encFps
    && a.tunedFor == b.tunedFor
  }

  predicate SameFlags(a: Phy, b: Phy) {
    a.stbc == b.stbc && a.ldpc == b.ldpc
  }

  class Plant {
    var dev: Device

    constructor (d: Device)
      ensures dev == d
    {
      dev := d;
    }

    method Send(w: Write)
      modifies this
      ensures dev == old(dev).Send(w)
    {
      dev := dev.Send(w);
    }
  }

  // ---- encoder ------------------------------------------------------------------
  // In every function below, `lazy` says whether the cache may suppress a write:
  // true is the program, false the controller that always sends.

  datatype Enc = Enc(roi: RoiCurve, lastValid: bool, lastBitrate: int, lastRoiQp: int, lastFps: int)

  function FreshEnc(roi: RoiCurve): Enc { Enc(roi, false, 0, 0, 0) }

  predicate EncSends(lazy: bool, e: Enc, bitrate: int, fps: int)
    requires e.roi.Valid()
  {
    && bitrate != 0
    && !(lazy && e.lastValid && e.lastBitrate == bitrate && e.lastRoiQp == RoiQp(bitrate, e.roi) && e.lastFps == fps)
  }

  function EncApplied(e: Enc, bitrate: int, fps: int): Enc
    requires e.roi.Valid()
  {
    if bitrate == 0 then e else Enc(e.roi, true, bitrate, RoiQp(bitrate, e.roi), fps)
  }

  function EncSettings(e: Enc, bitrate: int, fps: int): Write
    requires e.roi.Valid()
  {
    SetEncoder(bitrate, RoiQp(bitrate, e.roi), fps)
  }

  class EncoderClient {
    const client: Plant
    var roi: RoiCurve
    var lastValid: bool
    var lastBitrate: int
    var lastRoiQp: int
    var lastFps: int

    function View(): Enc reads this { Enc(roi, lastValid, lastBitrate, lastRoiQp, lastFps) }

    constructor (client: Plant, roi: RoiCurve)
      ensures this.client == client && View() == FreshEnc(roi)
    {
      this.client := client;
      this.roi := roi;
      lastValid, lastBitrate, lastRoiQp, lastFps := false, 0, 0, 0;
    }

    method Apply(bitrate: int, fps: int)
      requires roi.Valid()
      modifies this, client
      ensures View() == EncApplied(old(View()), bitrate, fps)
      ensures client.dev == old(client.dev).SendIf(EncSends(true, old(View()), bitrate, fps), EncSettings(old(View()), bitrate, fps))
    {
      if bitrate == 0 {
        return;
      }
      var roiQp := RoiQp(bitrate, roi);
      if lastValid && lastBitrate == bitrate && lastRoiQp == roiQp && lastFps == fps {
        return;
      }
      client.Send(SetEncoder(bitrate, roiQp, fps));
      lastBitrate := bitrate;
      lastRoiQp := roiQp;
      lastFps := fps;
      lastValid := true;
    }

    // Unconditional; the frame rate is left as it is.
    method ApplySafe(bitrate: int)
      requires roi.Valid()
      modifies this, client
      ensures View() == Enc(old(roi), true, bitrate, RoiQp(bitrate, old(roi)), 0)
      ensures client.dev == old(client.dev).Send(EncSettings(old(View()), bitrate, 0))
    {
      var roiQp := RoiQp(bitrate, roi);
      client.Send(SetEncoder(bitrate, roiQp, 0));
      lastBitrate := bitrate;
      lastRoiQp := roiQp;
      lastFps := 0;
      lastValid := true;
    }

    method SetRoiCurve(curve: RoiCurve)
      modifies this`roi
      ensures roi == curve
    {
      roi := curve;
    }
  }

  // ---- transmit power ---------------------------------------------------------------

  datatype Tx = Tx(iface: string, current: Option<int>, auto: bool)

  function FreshTx(iface: string): Tx { Tx(iface, None, false) }

  predicate FixedSends(lazy: bool, t: Tx, dBm: int) {
    !(lazy && !t.auto && t.current == Some(dBm))
  }

  predicate AutoSends(lazy: bool, t: Tx) {
    !(lazy && t.auto)
  }

  class RadioTxpower {
    const client: Plant
    var iface: string
    var current: Option<int>
    var auto: bool

    function View(): Tx reads this { Tx(iface, current, auto) }

    constructor (client: Plant, iface: string)
      ensures this.client == client && View() == FreshTx(iface)
    {
      this.client := client;
      this.iface := iface;
      current, auto := None, false;
    }

    method SetIface(name: string)
      modifies this
      ensures View() == FreshTx(name)
    {
      iface := name;
      current := None;
      auto := false;
    }

    method ApplyAuto()
      modifies this, client
      ensures View() == if AutoSends(true, old(View())) then Tx(old(iface), None, true) else old(View())
      ensures client.dev == old(client.dev).SendIf(AutoSends(true, old(View())), SetTxPower(old(iface), Auto))
    {
      if auto {
        return;
      }
      client.Send(SetTxPower(iface, Auto));
      auto := true;
      current := None;
    }

    method Apply(dBm: int)
      modifies this, client
      ensures View() == Tx(old(iface), Some(dBm), false)
      ensures client.dev == old(client.dev).SendIf(FixedSends(true, old(View()), dBm), SetTxPower(old(iface), Fixed(dBm)))
    {
      if !auto && current == Some(dBm) {
        return;
      }
      client.Send(SetTxPower(iface, Fixed(dBm)));
      current := Some(dBm);
      auto := false;
    }

    method ApplySafe(dBm: int)
      modifies this, client
      ensures View() == Tx(old(iface), Some(dBm), false)
      ensures client.dev == old(client.dev).Send(SetTxPower(old(iface), Fixed(dBm)))
    {
      client.Send(SetTxPower(iface, Fixed(dBm)));
      current := Some(dBm);
      auto := false;
    }
  }
}

/** One-shot health timer (drone/src/dynlink/watchdog.cpp). */
module Watchdog {

  datatype State = State(lastDecisionMs: nat, timeoutMs: nat, everSeen: bool, tripped: bool)

  predicate Due(s: State, nowMs: nat) {
    nowMs >= s.lastDecisionMs && nowMs - s.lastDecisionMs >= s.timeoutMs
  }

  predicate Trips(s: State, nowMs: nat) {
    s.everSeen && !s.tripped && Due(s, nowMs)
  }

  class Timer {
    var lastDecisionMs: nat
    var timeoutMs: nat
    var everSeen: bool
    var tripped: bool

    function View(): State reads this { State(lastDecisionMs, timeoutMs, everSeen, tripped) }

    constructor (timeout: nat)
      ensures View() == State(0, timeout, false, false)
    {
      lastDecisionMs, timeoutMs, everSeen, tripped := 0, timeout, false, false;
    }

    method SetTimeout(timeout: nat)
      modifies this`timeoutMs
      ensures View() == old(View()).(timeoutMs := timeout)
    {
      timeoutMs := timeout;
    }

    method NotifyDecision(nowMs: nat)
      modifies this
      ensures View() == State(nowMs, old(timeoutMs), true, false)
    {
      lastDecisionMs := nowMs;
      everSeen := true;
      tripped := false;
    }

    method Tick(nowMs: nat) returns (fired: bool)
      modifies this
      ensures fired == Trips(old(View()), nowMs)
      ensures View() == if fired then old(View()).(tripped := true) else old(View())
    {
      if !everSeen {
        return false;
      }
      if tripped {
        return false;
      }
      if nowMs >= lastDecisionMs && nowMs - lastDecisionMs >= timeoutMs {
        tripped := true;
        return true;
      }
      return false;
    }
  }
}
