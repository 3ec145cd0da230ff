/** Rate arithmetic of the drone: effective-rate table, wire target, block size,
    parity and bitrate (drone/src/dynlink/bitrate.cpp, fec.cpp, local_compute.cpp,
    roi_qp.cpp).  Doubles are exact reals here. */
module Rate {
  import opened Common
  import opened Wire

  // ---- configuration -----------------------------------------------------------

  datatype RoiCurve = RoiCurve(thresholdKbps: int, lowAnchorKbps: int, floor: int, step: int) {
    predicate Valid() {
      thresholdKbps > lowAnchorKbps > 0 && floor <= 0 && step >= 1
    }
  }

  datatype BitrateConfig = BitrateConfig(
    baseRedundancyRatio: real, blocksPerFrame: real, kMin: int, kMax: int,
    minBitrateKbps: int, maxBitrateKbps: int, mtuBytes: int, fps: int)
  {
    // What validation demands of these fields; the mtu is not constrained.
    predicate Valid() {
      && baseRedundancyRatio > 0.0 && blocksPerFrame > 0.0
      && 1 <= kMin <= kMax && 0 < minBitrateKbps < maxBitrateKbps && 0 < fps <= 120
    }
  }

  datatype Config = Config(
    healthTimeoutMs: nat, applyStaggerMs: nat,
    swfec: bool, swfecOverheadPct: int, swfecDeadlineMs: int,
    roiQp: RoiCurve, bitrate: BitrateConfig,
    stbc: bool, ldpc: bool, linkWidthMhz: int,
    probeEnabled: bool, probeCtlPort: int, probeMcsCeiling: int,
    txPowerControl: bool, iface: string)
  {
    predicate Valid() {
      && bitrate.Valid() && roiQp.Valid()
      && 0 <= swfecOverheadPct <= 255 && 1 <= swfecDeadlineMs <= 255
    }
  }

  // ---- rounding ------------------------------------------------------------------

  function Ceil(x: real): (c: int)
    ensures (c - 1) as real < x <= c as real
  {
    -((-x).Floor)
  }

  function Clamp(x: int, lo: int, hi: int): int {
    if (if x < lo then lo else x) > hi then hi else if x < lo then lo else x
  }

  function Sat8(x: int): int { if x < 0 then 0 else if x > 255 then 255 else x }

  function Sat16(x: int): int { if x < 0 then 0 else if x > 65535 then 65535 else x }

  // ---- bitrate.cpp -----------------------------------------------------------------

  function Table(width: int): seq<nat> {
    if width == 10 then [3250, 6000, 7750, 10000, 12500, 21000, 23750, 27500]
    else if width == 20 then [6500, 12000, 15500, 20000, 25000, 42000, 47500, 55000]
    else if width == 40 then [9800, 18600, 30400, 40200, 55800, 80400, 90200, 97000]
    else []
  }

  function BaseRate(width: int, mcs: int): nat {
    if 0 <= mcs < |Table(width)| then Table(width)[mcs] else 0
  }

  // The share of airtime the probe takes at its own rung.
  function ProbeUtil(width: int, mcs: int, ceiling: int, probeKbps: real): real {
    var probeBase := BaseRate(width, if mcs + 1 > ceiling then ceiling else mcs + 1);
    if probeBase > 0 then probeKbps / probeBase as real else 0.0
  }

  function Util(width: int, mcs: int, ceiling: int, probeKbps: real): real {
    var u := 2.0 / 3.0 - ProbeUtil(width, mcs, ceiling, probeKbps);
    if u < 0.0 then 0.0 else u
  }

  function WireTarget(width: int, mcs: int, ceiling: int, probeKbps: real): real {
    var base := BaseRate(width, mcs);
    if base == 0 then 0.0 else base as real * Util(width, mcs, ceiling, probeKbps)
  }

  function Bitrate(wireTarget: real, k: int, n: int, minKbps: int, maxKbps: int): int {
    if k <= 0 || n <= 0 then Sat16(minKbps)
    else Sat16(Clamp(Trunc(wireTarget * k as real / n as real), minKbps, maxKbps))
  }

  function BitrateSwfec(wireTarget: real, overheadPct: int, minKbps: int, maxKbps: int): int {
    Bitrate(wireTarget, 100, 100 + (if overheadPct < 0 then 0 else overheadPct), minKbps, maxKbps)
  }

  // ---- fec.cpp ------------------------------------------------------------------------

  // Bits per frame slot and packet, so that kbps * 1000 / this is packets per frame.
  function BitsPerKbps(b: BitrateConfig): real {
    b.fps as real * b.mtuBytes as real * 8.0
  }

  function PacketsPerBlock(wireTarget: real, expansion: real, bits: real, blocksPerFrame: real): real
    requires expansion > 0.0 && bits > 0.0 && blocksPerFrame > 0.0
  {
    var anchorKbps := wireTarget / expansion;
    var packetsPerFrame := anchorKbps * 1000.0 / bits;
    packetsPerFrame / blocksPerFrame
  }

  function ComputeK(wireTarget: real, b: BitrateConfig): int {
    if wireTarget <= 0.0 || b.mtuBytes <= 0 || b.fps <= 0 || b.blocksPerFrame <= 0.0 || b.baseRedundancyRatio <= -1.0
    then b.kMin
    else
      assert b.fps as real * b.mtuBytes as real > 0.0;
      Clamp(Trunc(PacketsPerBlock(wireTarget, 1.0 + b.baseRedundancyRatio, BitsPerKbps(b), b.blocksPerFrame)), b.kMin, b.kMax)
  }

  function ComputeN(k: int, ratio: real): int {
    Ceil(k as real * (1.0 + ratio))
  }

  // ---- local_compute.cpp -----------------------------------------------------------------

  const PROBE_PPS := 25
  const PROBE_PACKET_BYTES := 1400

  function ProbeKbps(cfg: Config): (p: real)
    ensures p >= 0.0
  {
    if cfg.probeEnabled then PROBE_PPS as real * PROBE_PACKET_BYTES as real * 8.0 / 1000.0 else 0.0
  }

  function Target(cfg: Config, mcs: int): real {
    WireTarget(cfg.linkWidthMhz, mcs, cfg.probeMcsCeiling, ProbeKbps(cfg))
  }

  function TxPowerDbm(mcs: int): int {
    [29, 28, 25, 23, 19, 19, 19, 19][Clamp(mcs, 0, 7)]
  }

  // Overwrites everything the drone derives; keeps mcs, bandwidth and the header.
  function LocalCompute(cfg: Config, d: Decision): Decision {
    var b := cfg.bitrate;
    var target := Target(cfg, d.mcs);
    var k := ComputeK(target, b);
    var n := ComputeN(k, b.baseRedundancyRatio);
    if cfg.swfec then
      d.(k := cfg.swfecOverheadPct, n := cfg.swfecDeadlineMs,
         bitrateKbps := BitrateSwfec(target, cfg.swfecOverheadPct, b.minBitrateKbps, b.maxBitrateKbps),
         fps := Sat8(b.fps), txPowerDbm := TxPowerDbm(d.mcs))
    else
      d.(k := Sat8(k), n := Sat8(n),
         bitrateKbps := Bitrate(target, k, n, b.minBitrateKbps, b.maxBitrateKbps),
         fps := Sat8(b.fps), txPowerDbm := TxPowerDbm(d.mcs))
  }

  // The bitrate the drone commands at a rung.
  function RateAt(cfg: Config, mcs: int): int {
    if 0 <= mcs < 256 then LocalCompute(cfg, BLANK.(mcs := mcs)).bitrateKbps else 0
  }

  // Under a validated configuration a decision never carries the "do not push"
  // sentinels: the bitrate and the frame rate are positive.
  lemma DerivedPositive(cfg: Config, d: Decision)
    requires cfg.bitrate.Valid()
    ensures 0 < LocalCompute(cfg, d).bitrateKbps <= 65535
    ensures 0 < LocalCompute(cfg, d).fps <= 255
  {
  }

  // ---- real arithmetic -----------------------------------------------------------------------

  lemma DivMono(a: real, b: real, c: real)
    requires a <= b && c > 0.0
    ensures a / c <= b / c
  {
  }

  // ---- the wire target climbs by at least 95/84 per rung -----------------------------------------

  lemma TableStep(width: int, low: int, high: int)
    requires width != 40 && 0 <= low < high <= 7
    ensures BaseRate(width, low) <= BaseRate(width, high)
    ensures 95 * BaseRate(width, low) <= 84 * BaseRate(width, high)
  {
  }

  lemma UtilMono(width: int, low: int, high: int, ceiling: int, probeKbps: real)
    requires probeKbps >= 0.0 && 0 <= low < high <= 7
    ensures 0.0 <= Util(width, low, ceiling, probeKbps) <= Util(width, high, ceiling, probeKbps)
  {
    var a := BaseRate(width, if low + 1 > ceiling then ceiling else low + 1);
    var b := BaseRate(width, if high + 1 > ceiling then ceiling else high + 1);
    if a > 0 && b > 0 {
      assert a <= b;
      assert probeKbps / b as real <= probeKbps / a as real by { InverseMono(probeKbps, a as real, b as real); }
    } else if a > 0 {
      assert probeKbps / a as real >= 0.0 by { InverseMono(probeKbps, a as real, a as real); }
    }
  }

  lemma InverseMono(p: real, a: real, b: real)
    requires p >= 0.0 && 0.0 < a <= b
    ensures 0.0 <= p / b <= p / a
  {
  }

  lemma TargetStep(cfg: Config, low: int, high: int)
    requires cfg.linkWidthMhz != 40 && 0 <= low < high <= 7
    ensures 0.0 <= Target(cfg, low) <= Target(cfg, high)
    ensures 95.0 * Target(cfg, low) <= 84.0 * Target(cfg, high)
  {
    hide *;
    var w, c, p := cfg.linkWidthMhz, cfg.probeMcsCeiling, ProbeKbps(cfg);
    TableStep(w, low, high);
    UtilMono(w, low, high, c, p);
    ProductStep(BaseRate(w, low) as real, BaseRate(w, high) as real, Util(w, low, c, p), Util(w, high, c, p));
    TargetIsProduct(cfg, low);
    TargetIsProduct(cfg, high);
  }

  lemma TargetIsProduct(cfg: Config, mcs: int)
    ensures Target(cfg, mcs) ==
      BaseRate(cfg.linkWidthMhz, mcs) as real * Util(cfg.linkWidthMhz, mcs, cfg.probeMcsCeiling, ProbeKbps(cfg))
  {
    hide Util, BaseRate, ProbeKbps;
  }

  lemma ProductStep(a: real, b: real, u: real, v: real)
    requires 0.0 <= a <= b && 95.0 * a <= 84.0 * b && 0.0 <= u <= v
    ensures 0.0 <= a * u <= b * v
    ensures 95.0 * (a * u) <= 84.0 * (b * v)
  {
  }

  // ---- k and n: the sawtooth ------------------------------------------------------------------------

  lemma ChainMono(r: real, f: real, q: real, t: real, t': real)
    requires r > 0.0 && f > 0.0 && q > 0.0 && t <= t'
    ensures PacketsPerBlock(t, r, f, q) <= PacketsPerBlock(t', r, f, q)
  {
    DivMono(t, t', r);
    DivMono(t / r * 1000.0, t' / r * 1000.0, f);
    DivMono(t / r * 1000.0 / f, t' / r * 1000.0 / f, q);
  }

  lemma ChainNonneg(r: real, f: real, q: real, t: real)
    requires r > 0.0 && f > 0.0 && q > 0.0 && t >= 0.0
    ensures 0.0 <= PacketsPerBlock(t, r, f, q)
  {
  }

  // k never goes down when the target goes up.
  lemma KMono(b: BitrateConfig, t: real, t': real)
    requires b.Valid() && 0.0 <= t <= t'
    ensures b.kMin <= ComputeK(t, b) <= ComputeK(t', b) <= b.kMax
  {
    hide *;
    KCases(b, t);
    KCases(b, t');
    if t > 0.0 && b.mtuBytes > 0 {
      ValidParts(b);
      var r, f, q := 1.0 + b.baseRedundancyRatio, BitsPerKbps(b), b.blocksPerFrame;
      ChainMono(r, f, q, t, t');
      ChainNonneg(r, f, q, t);
      TruncClampMono(PacketsPerBlock(t, r, f, q), PacketsPerBlock(t', r, f, q), b.kMin, b.kMax);
    }
  }

  lemma ValidParts(b: BitrateConfig)
    requires b.Valid()
    ensures b.kMin <= b.kMax && 1.0 + b.baseRedundancyRatio > 0.0 && b.blocksPerFrame > 0.0
    ensures b.mtuBytes > 0 ==> BitsPerKbps(b) > 0.0
  {
  }

  lemma KCases(b: BitrateConfig, t: real)
    requires b.Valid() && 0.0 <= t
    ensures t == 0.0 || b.mtuBytes <= 0 ==> ComputeK(t, b) == b.kMin
    ensures t > 0.0 && b.mtuBytes > 0 ==> 
      && 1.0 + b.baseRedundancyRatio > 0.0 && BitsPerKbps(b) > 0.0 && b.blocksPerFrame > 0.0
      && ComputeK(t, b) == Clamp(Trunc(PacketsPerBlock(t, 1.0 + b.baseRedundancyRatio, BitsPerKbps(b), b.blocksPerFrame)), b.kMin, b.kMax)
    ensures b.kMin <= ComputeK(t, b) <= b.kMax
  {
  }

  lemma TruncClampMono(x: real, y: real, lo: int, hi: int)
    requires 0.0 <= x <= y && lo <= hi
    ensures lo <= Clamp(Trunc(x), lo, hi) <= Clamp(Trunc(y), lo, hi) <= hi
  {
  }

  lemma NExceedsK(k: int, ratio: real)
    requires k >= 1 && ratio > 0.0
    ensures ComputeN(k, ratio) >= k + 1
  {
  }

  // What the two ceilings leave between k*n' and k'*n.
  lemma CeilingGap(k: int, k': int, n: int, n': int, s: real)
    requires 1 <= k && 1 <= k'
    requires k as real * s <= n as real && (n' - 1) as real < k' as real * s
    ensures k * n' - k' * n <= k - 1
  {
  }

  lemma ProductMono(a: int, b: int, c: int, d: int)
    requires 0 <= a <= c && 0 <= b <= d
    ensures a * b <= c * d
  {
  }

  lemma SquareBound(k: int)
    ensures 8 * (k - 1) <= (k + 1) * (k + 1)
  {
  }

  lemma EightNinths(k: int, k': int, n: int, n': int)
    requires 1 <= k < k' && k + 1 <= n && k * n' - k' * n <= k - 1
    ensures 8 * (k * n') <= 9 * (k' * n)
  {
    var p, q, s := k * n', k' * n, (k + 1) * (k + 1);
    ProductMono(k + 1, k + 1, k', n);
    SquareBound(k);
    assert s <= q && p - q <= k - 1 && 8 * (k - 1) <= s;
  }

  /** Raising the block size costs at most a ninth of the code rate:
      (k'/n') / (k/n) >= 8/9, with equality at k = 3. */
  lemma CodeRateDrop(k: int, k': int, ratio: real)
    requires 1 <= k < k' && ratio > 0.0
    ensures 8 * (k * ComputeN(k', ratio)) <= 9 * (k' * ComputeN(k, ratio))
  {
    hide *;
    NExceedsK(k, ratio);
    NBounds(k, ratio);
    NBounds(k', ratio);
    CeilingGap(k, k', ComputeN(k, ratio), ComputeN(k', ratio), 1.0 + ratio);
    EightNinths(k, k', ComputeN(k, ratio), ComputeN(k', ratio));
  }

  lemma NBounds(k: int, ratio: real)
    ensures (ComputeN(k, ratio) - 1) as real < k as real * (1.0 + ratio) <= ComputeN(k, ratio) as real
  {
  }

  // ---- monotonicity ---------------------------------------------------------------------------------

  lemma RawMono(t: real, t': real, k: int, n: int, k': int, n': int)
    requires 0.0 <= t && 95.0 * t <= 84.0 * t'
    requires 1 <= k && 1 <= n && 1 <= k' && 1 <= n'
    requires 8 * (k * n') <= 9 * (k' * n)
    ensures t * k as real / n as real <= t' * k' as real / n' as real
  {
  }

  lemma CrossDivide(a: real, n: real, b: real, m: real)
    requires n > 0.0 && m > 0.0 && a * m <= b * n
    ensures a / n <= b / m
  {
  }

  lemma RawNonneg(t: real, k: int, n: int)
    requires 0.0 <= t && 1 <= k && 1 <= n
    ensures 0.0 <= t * k as real / n as real
  {
  }

  lemma BitrateMono(t: real, t': real, k: int, n: int, k': int, n': int, lo: int, hi: int)
    requires 0.0 <= t && 95.0 * t <= 84.0 * t' && lo <= hi
    requires 1 <= k && 1 <= n && 1 <= k' && 1 <= n'
    requires 8 * (k * n') <= 9 * (k' * n)
    ensures Bitrate(t, k, n, lo, hi) <= Bitrate(t', k', n', lo, hi)
  {
    hide *;
    RawMono(t, t', k, n, k', n');
    RawNonneg(t, k, n);
    ClampedMono(t, t', k, n, k', n', lo, hi);
  }

  lemma ClampedMono(t: real, t': real, k: int, n: int, k': int, n': int, lo: int, hi: int)
    requires 1 <= k && 1 <= n && 1 <= k' && 1 <= n' && lo <= hi
    requires 0.0 <= t * k as real / n as real <= t' * k' as real / n' as real
    ensures Bitrate(t, k, n, lo, hi) <= Bitrate(t', k', n', lo, hi)
  {
  }

  lemma RateAtParts(cfg: Config, mcs: int)
    requires 0 <= mcs < 256
    ensures var b, t := cfg.bitrate, Target(cfg, mcs);
      RateAt(cfg, mcs) ==
        if cfg.swfec then BitrateSwfec(t, cfg.swfecOverheadPct, b.minBitrateKbps, b.maxBitrateKbps)
        else Bitrate(t, ComputeK(t, b), ComputeN(ComputeK(t, b), b.baseRedundancyRatio), b.minBitrateKbps, b.maxBitrateKbps)
  {
  }

  lemma ValidBounds(b: BitrateConfig)
    requires b.Valid()
    ensures b.kMin >= 1 && b.baseRedundancyRatio > 0.0 && 0 < b.minBitrateKbps <= b.maxBitrateKbps
  {
  }

  lemma RateMonoRs(cfg: Config, low: int, high: int)
    requires cfg.bitrate.Valid() && !cfg.swfec && cfg.linkWidthMhz != 40 && 0 <= low < high <= 7
    ensures RateAt(cfg, low) <= RateAt(cfg, high)
  {
    hide *;
    var b := cfg.bitrate;
    var t, t' := Target(cfg, low), Target(cfg, high);
    ValidBounds(b);
    TargetStep(cfg, low, high);
    KMono(b, t, t');
    var k, k' := ComputeK(t, b), ComputeK(t', b);
    NExceedsK(k, b.baseRedundancyRatio);
    NExceedsK(k', b.baseRedundancyRatio);
    var n, n' := ComputeN(k, b.baseRedundancyRatio), ComputeN(k', b.baseRedundancyRatio);
    if k < k' {
      CodeRateDrop(k, k', b.baseRedundancyRatio);
    } else {
      assert 8 * (k * n') <= 9 * (k' * n) by { assert k * n >= 0; }
    }
    BitrateMono(t, t', k, n, k', n', b.minBitrateKbps, b.maxBitrateKbps);
    RateAtParts(cfg, low);
    RateAtParts(cfg, high);
  }

  lemma RateMonoSwfec(cfg: Config, low: int, high: int)
    requires cfg.bitrate.Valid() && cfg.swfec && cfg.linkWidthMhz != 40 && 0 <= low < high <= 7
    ensures RateAt(cfg, low) <= RateAt(cfg, high)
  {
    hide Target, Bitrate, RateAt, Config.Valid, BitrateConfig.Valid;
    var b := cfg.bitrate;
    var n := 100 + if cfg.swfecOverheadPct < 0 then 0 else cfg.swfecOverheadPct;
    ValidBounds(b);
    TargetStep(cfg, low, high);
    BitrateMono(Target(cfg, low), Target(cfg, high), 100, n, 100, n, b.minBitrateKbps, b.maxBitrateKbps);
    RateAtParts(cfg, low);
    RateAtParts(cfg, high);
  }

  /** A higher rung never lowers the commanded bitrate, in either FEC mode, for
      every validated setting and every width other than 40. */
  lemma RateMonotone(cfg: Config, low: int, high: int)
    requires cfg.bitrate.Valid() && cfg.linkWidthMhz != 40 && 0 <= low <= high <= 7
    ensures RateAt(cfg, low) <= RateAt(cfg, high)
  {
    hide *;
    if low < high {
      if cfg.swfec { RateMonoSwfec(cfg, low, high); } else { RateMonoRs(cfg, low, high); }
    }
  }

  // ---- width 40 ----------------------------------------------------------------------------------------

  // Only the fields the rate depends on matter here.
  function Width40Witness(): Config {
    Config(10000, 50, false, 50, 30, RoiCurve(6000, 2000, -24, 3),
           BitrateConfig(0.3, 17.0, 2, 50, 1000, 60000, 1500, 60),
           true, true, 40, false, 0, 7, true, "wlan0")
  }

  lemma WitnessRate(mcs: int, k: int, n: int, rate: int)
    requires (mcs, k, n, rate) in {(6, 3, 4, 45100), (7, 4, 6, 43111)}
    ensures RateAt(Width40Witness(), mcs) == rate
  {
    var cfg := Width40Witness();
    var b, t := cfg.bitrate, Target(cfg, mcs);
    WitnessTarget(mcs);
    WitnessK(t, k);
    WitnessN(k, n);
    assert Bitrate(t, k, n, 1000, 60000) == rate by {
      hide Target;
      assert rate as real <= t * k as real / n as real < (rate + 1) as real;
    }
    hide *;
    RateAtParts(cfg, mcs);
    WitnessFields();
  }

  lemma WitnessFields()
    ensures var b := Width40Witness().bitrate;
      !Width40Witness().swfec && b.Valid() && b.minBitrateKbps == 1000 && b.maxBitrateKbps == 60000 && b.baseRedundancyRatio == 0.3
  {
  }

  lemma WitnessTarget(mcs: int)
    requires mcs in {6, 7}
    ensures Target(Width40Witness(), mcs) == if mcs == 6 then 180400.0 / 3.0 else 194000.0 / 3.0
  {
  }

  lemma WitnessK(t: real, k: int)
    requires (t == 180400.0 / 3.0 && k == 3) || (t == 194000.0 / 3.0 && k == 4)
    ensures ComputeK(t, Width40Witness().bitrate) == k
  {
    assert t / 1.3 * 1000.0 / 720000.0 / 17.0 == t / 15912.0;
  }

  lemma WitnessN(k: int, n: int)
    requires (k == 3 && n == 4) || (k == 4 && n == 6)
    ensures ComputeN(k, 0.3) == n
  {
  }

  /** At 40 MHz the table steps are too small: a validated setting exists whose
      bitrate falls from rung 6 to rung 7. */
  lemma Width40Falls()
    ensures var cfg := Width40Witness();
      cfg.bitrate.Valid() && cfg.linkWidthMhz == 40 && RateAt(cfg, 7) < RateAt(cfg, 6)
  {
    hide RateAt;
    WitnessRate(6, 3, 4, 45100);
    WitnessRate(7, 4, 6, 43111);
  }

  ghost predicate ClimbsAt(width: int) {
    forall cfg: Config, low: int, high: int ::
      cfg.linkWidthMhz == width && cfg.bitrate.Valid() && 0 <= low <= high <= 7 ==> RateAt(cfg, low) <= RateAt(cfg, high)
  }

  /** Exactly when the bitrate follows the rung: at every width but 40, which
      configuration validation rejects while the dynamic link is enabled. */
  lemma ClimbsExactly(width: int)
    ensures ClimbsAt(width) <==> width != 40
  {
    hide RateAt, BitrateConfig.Valid;
    if width != 40 {
      forall cfg: Config, low: int, high: int
        | cfg.linkWidthMhz == width && cfg.bitrate.Valid() && 0 <= low <= high <= 7
        ensures RateAt(cfg, low) <= RateAt(cfg, high)
      {
        RateMonotone(cfg, low, high);
      }
    } else {
      Width40Falls();
    }
  }

  // ---- airtime -------------------------------------------------------------------------------------------

  // Source plus parity, kbps.
  function OnAir(rate: int, k: int, n: int): real
    requires k >= 1
  {
    rate as real * n as real / k as real
  }

  lemma BitrateBelowTarget(t: real, k: int, n: int, lo: int, hi: int)
    requires t >= 0.0 && k >= 1 && n >= 1 && 0 < lo <= hi
    requires Bitrate(t, k, n, lo, hi) > lo
    ensures t > 0.0
    ensures OnAir(Bitrate(t, k, n, lo, hi), k, n) <= t
  {
    var r := t * k as real / n as real;
    RawNonneg(t, k, n);
    var v := Bitrate(t, k, n, lo, hi) as real;
    assert 1.0 <= v <= r;
    assert r * n as real == t * k as real;
    assert v * n as real <= t * k as real;
    CrossDivide(v * n as real, k as real, t, 1.0);
  }

  // Fraction of airtime spent on video sources, their parity and the probe.
  function Airtime(cfg: Config, mcs: int, k: int, n: int): real
    requires 0 <= mcs < 256 && k >= 1 && BaseRate(cfg.linkWidthMhz, mcs) > 0
  {
    Share(RateAt(cfg, mcs), k, n, BaseRate(cfg.linkWidthMhz, mcs))
      + ProbeUtil(cfg.linkWidthMhz, mcs, cfg.probeMcsCeiling, ProbeKbps(cfg))
  }

  // Airtime share of a stream of `rate` kbps of sources coded n for k.
  function Share(rate: int, k: int, n: int, base: int): real
    requires k >= 1 && base >= 1
  {
    OnAir(rate, k, n) / base as real
  }

  lemma FactorPositive(base: real, u: real)
    requires base * u > 0.0 && u >= 0.0
    ensures base > 0.0 && u > 0.0 && base * u / base == u
  {
  }

  lemma TargetShare(cfg: Config, mcs: int)
    requires Target(cfg, mcs) > 0.0
    ensures BaseRate(cfg.linkWidthMhz, mcs) > 0
    ensures Target(cfg, mcs) / BaseRate(cfg.linkWidthMhz, mcs) as real
      == 2.0 / 3.0 - ProbeUtil(cfg.linkWidthMhz, mcs, cfg.probeMcsCeiling, ProbeKbps(cfg))
  {
    hide BaseRate, ProbeUtil, ProbeKbps;
    var base, u := BaseRate(cfg.linkWidthMhz, mcs) as real, Util(cfg.linkWidthMhz, mcs, cfg.probeMcsCeiling, ProbeKbps(cfg));
    assert Target(cfg, mcs) == base * u;
    FactorPositive(base, u);
  }

  /** Whenever the bitrate is above its configured floor, sources, parity and probe
      together take at most two thirds of the rung's airtime, in both FEC modes. */
  lemma AirtimeBudget(cfg: Config, mcs: int, k: int, n: int)
    requires cfg.Valid() && 0 <= mcs <= 7
    requires if cfg.swfec then k == 100 && n == 100 + cfg.swfecOverheadPct
             else k == ComputeK(Target(cfg, mcs), cfg.bitrate) && n == ComputeN(k, cfg.bitrate.baseRedundancyRatio)
    requires RateAt(cfg, mcs) > cfg.bitrate.minBitrateKbps
    ensures k >= 1 && BaseRate(cfg.linkWidthMhz, mcs) > 0 && Airtime(cfg, mcs, k, n) <= 2.0 / 3.0
  {
    hide *;
    var b, t := cfg.bitrate, Target(cfg, mcs);
    ConfigParts(cfg);
    ValidBounds(b);
    TargetNonneg(cfg, mcs);
    if !cfg.swfec {
      KMono(b, t, t);
      NExceedsK(k, b.baseRedundancyRatio);
    }
    RateAtParts(cfg, mcs);
    SwfecIsBitrate(t, cfg.swfecOverheadPct, b.minBitrateKbps, b.maxBitrateKbps);
    BitrateBelowTarget(t, k, n, b.minBitrateKbps, b.maxBitrateKbps);
    TargetShare(cfg, mcs);
    ShareBound(RateAt(cfg, mcs), k, n, BaseRate(cfg.linkWidthMhz, mcs), t);
    AirtimeParts(cfg, mcs, k, n);
  }

  lemma ShareBound(rate: int, k: int, n: int, base: int, t: real)
    requires k >= 1 && base >= 1 && OnAir(rate, k, n) <= t
    ensures Share(rate, k, n, base) <= t / base as real
  {
  }

  lemma AirtimeParts(cfg: Config, mcs: int, k: int, n: int)
    requires 0 <= mcs < 256 && k >= 1 && BaseRate(cfg.linkWidthMhz, mcs) > 0
    ensures Airtime(cfg, mcs, k, n) ==
      Share(RateAt(cfg, mcs), k, n, BaseRate(cfg.linkWidthMhz, mcs))
      + ProbeUtil(cfg.linkWidthMhz, mcs, cfg.probeMcsCeiling, ProbeKbps(cfg))
  {
  }

  lemma ConfigParts(cfg: Config)
    requires cfg.Valid()
    ensures cfg.bitrate.Valid() && cfg.swfecOverheadPct >= 0
  {
  }

  lemma SwfecIsBitrate(t: real, pct: int, lo: int, hi: int)
    ensures pct >= 0 ==> BitrateSwfec(t, pct, lo, hi) == Bitrate(t, 100, 100 + pct, lo, hi)
  {
  }

  lemma TargetNonneg(cfg: Config, mcs: int)
    ensures Target(cfg, mcs) >= 0.0
  {
  }

  // The block runs to 255 packets or more: by its lower bound, or because that many
  // packets fall to it and its upper bound lets them in.
  predicate LongBlock(cfg: Config, mcs: int) {
    var b, t := cfg.bitrate, Target(cfg, mcs);
    || b.kMin >= 255
    || (&& b.kMax >= 255 && t > 0.0 && b.mtuBytes > 0 && BitsPerKbps(b) > 0.0 && b.blocksPerFrame > 0.0 && b.baseRedundancyRatio > -1.0
        && PacketsPerBlock(t, 1.0 + b.baseRedundancyRatio, BitsPerKbps(b), b.blocksPerFrame) >= 255.0)
  }

  lemma LongBlockK(cfg: Config, mcs: int)
    requires cfg.bitrate.Valid()
    ensures LongBlock(cfg, mcs) <==> ComputeK(Target(cfg, mcs), cfg.bitrate) >= 255
  {
    hide Target, PacketsPerBlock;
    var b := cfg.bitrate;
    assert b.mtuBytes > 0 ==> b.fps as real * b.mtuBytes as real > 0.0;
  }

  /** n exceeds k before they are squeezed into bytes, and on the air exactly when the block
      is not that long: beyond it both saturate to 255. */
  lemma ParityOnAir(cfg: Config, d: Decision)
    requires cfg.bitrate.Valid() && !cfg.swfec
    ensures var k := ComputeK(Target(cfg, d.mcs), cfg.bitrate);
      var e := LocalCompute(cfg, d);
      && ComputeN(k, cfg.bitrate.baseRedundancyRatio) > k >= 1
      && (e.n > e.k <==> !LongBlock(cfg, d.mcs))
  {
    hide Target, ComputeK, ComputeN, Bitrate, LongBlock;
    var t := Target(cfg, d.mcs);
    TargetNonneg(cfg, d.mcs);
    KMono(cfg.bitrate, t, t);
    NExceedsK(ComputeK(t, cfg.bitrate), cfg.bitrate.baseRedundancyRatio);
    LongBlockK(cfg, d.mcs);
  }

  /** Validation does not bound k: with both bounds at 300 every rung is sent as 255 of 255. */
  lemma ParityLost(cfg: Config, d: Decision)
    requires cfg.Valid() && !cfg.swfec
    ensures var c := cfg.(bitrate := cfg.bitrate.(kMin := 300, kMax := 300));
      c.Valid() && LocalCompute(c, d).k == 255 && LocalCompute(c, d).n == 255
  {
    hide Target, ComputeN, Bitrate;
    var c := cfg.(bitrate := cfg.bitrate.(kMin := 300, kMax := 300));
    var k := ComputeK(Target(c, d.mcs), c.bitrate);
    NExceedsK(k, c.bitrate.baseRedundancyRatio);
  }

  // ---- roi_qp.cpp ------------------------------------------------------------------------------------------

  // The validated curve as the controller receives it: 16, 16, 8 signed and 8 bits.
  function Narrowed(c: RoiCurve): RoiCurve {
    var f := c.floor % 256;
    RoiCurve(c.thresholdKbps % 65536, c.lowAnchorKbps % 65536, if f >= 128 then f - 256 else f, c.step % 256)
  }

  /** A validated curve reaches the controller unchanged exactly when its fields fit, and is
      still usable there exactly when what is left of them keeps the validated order. */
  lemma NarrowedExactly(c: RoiCurve)
    requires c.Valid()
    ensures Narrowed(c) == c <==> c.thresholdKbps <= 65535 && c.floor >= -128 && c.step <= 255
    ensures Narrowed(c).Valid() <==>
      c.step % 256 != 0 && !(1 <= c.floor % 256 <= 127) && 0 < c.lowAnchorKbps % 65536 < c.thresholdKbps % 65536
  {
  }

  /** Validation bounds neither step nor threshold: 256 arrives as a divisor of 0, 65537 as 1. */
  lemma NarrowingLoses()
    ensures var c := RoiCurve(6000, 2000, -24, 256); c.Valid() && Narrowed(c).step == 0
    ensures var c := RoiCurve(65537, 2000, -24, 3); c.Valid() && Narrowed(c).thresholdKbps == 1 && !Narrowed(c).Valid()
  {
  }

  // Scale, quantise toward zero and clamp to [floor, 0].
  function Quantised(scaled: int, span: int, step: int, floor: int): int
    requires span > 0 && step >= 1
  {
    var raw := DivTowardZero(scaled, span);
    var q := DivTowardZero(raw, step) * step;
    if q < floor then floor else if q > 0 then 0 else q
  }

  // Quality offset of the region of interest at a bitrate.
  function RoiQp(bitrateKbps: int, c: RoiCurve): int
    requires c.Valid()
  {
    if bitrateKbps >= c.thresholdKbps then 0
    else
      var span := c.thresholdKbps - c.lowAnchorKbps;
      var delta := if bitrateKbps < c.lowAnchorKbps then 0 else bitrateKbps - c.lowAnchorKbps;
      Quantised(c.floor * (span - delta), span, c.step, c.floor)
  }

  lemma QuotientMono(a: int, b: int, d: int)
    requires a <= b && d > 0
    ensures a / d <= b / d
  {
    var q, p := a / d, b / d;
    assert a == d * q + a % d && b == d * p + b % d;
    assert d * (p + 1) == d * p + d;
    MulCancel(d, q, p + 1);
  }

  lemma MulCancel(d: int, x: int, y: int)
    requires d > 0 && d * x < d * y
    ensures x < y
  {
  }

  lemma QuotientBound(a: int, f: int, d: int)
    requires 0 <= a <= f * d && d > 0
    ensures 0 <= a / d <= f
  {
  }

  // On the negated scale the clamps never bite.
  lemma QuantisedParts(a: int, span: int, step: int, f: int)
    requires span > 0 && step >= 1 && 0 <= a <= f * span
    ensures Quantised(-a, span, step, -f) == -(a / span / step * step)
    ensures 0 <= a / span / step * step <= a / span <= f
  {
    QuotientBound(a, f, span);
    var raw := a / span;
    assert DivTowardZero(-a, span) == -raw;
    assert DivTowardZero(-raw, step) == -(raw / step);
    assert 0 <= raw / step * step <= raw;
    assert (-(raw / step)) * step == -(raw / step * step);
  }

  // How far below the threshold, out of the span.
  function RoiDepth(rate: int, c: RoiCurve): int {
    c.thresholdKbps - c.lowAnchorKbps - if rate < c.lowAnchorKbps then 0 else rate - c.lowAnchorKbps
  }

  lemma RoiParts(rate: int, c: RoiCurve)
    requires c.Valid() && rate < c.thresholdKbps
    ensures var f, x, span := -c.floor, RoiDepth(rate, c), c.thresholdKbps - c.lowAnchorKbps;
      && 0 <= f * x <= f * span
      && RoiQp(rate, c) == -(f * x / span / c.step * c.step) && c.floor <= RoiQp(rate, c) <= 0
  {
    var f, x, span := -c.floor, RoiDepth(rate, c), c.thresholdKbps - c.lowAnchorKbps;
    ProductMono(f, x, f, span);
    assert 0 <= f * x;
    QuantisedParts(f * x, span, c.step, f);
    assert c.floor * x == -(f * x);
  }

  lemma RoiRange(rate: int, c: RoiCurve)
    requires c.Valid()
    ensures c.floor <= RoiQp(rate, c) <= 0
  {
    if rate < c.thresholdKbps { RoiParts(rate, c); }
  }

  /** More bitrate never asks for a coarser region of interest. */
  lemma RoiMonotone(low: int, high: int, c: RoiCurve)
    requires c.Valid() && low <= high
    ensures RoiQp(low, c) <= RoiQp(high, c)
  {
    hide RoiQp;
    RoiTop(high, c);
    RoiRange(low, c);
    if high < c.thresholdKbps {
      var f, x, y, span := -c.floor, RoiDepth(low, c), RoiDepth(high, c), c.thresholdKbps - c.lowAnchorKbps;
      RoiParts(low, c);
      RoiParts(high, c);
      ProductMono(f, y, f, x);
      QuotientMono(f * y, f * x, span);
      QuotientMono(f * y / span, f * x / span, c.step);
      ProductMono(f * y / span / c.step, c.step, f * x / span / c.step, c.step);
    }
  }

  lemma RoiTop(rate: int, c: RoiCurve)
    requires c.Valid()
    ensures rate >= c.thresholdKbps ==> RoiQp(rate, c) == 0
  {
  }
}
