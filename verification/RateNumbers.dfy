/** The derived settings as numbers: what the drone commands is the largest bitrate that fits
    the airtime budget, and the block that goes with it. */
module RateNumbers {
  import opened Common
  import opened Wire
  import opened Rate

  // ---- the table --------------------------------------------------------------------------

  /** Effective kbps per rung. A 10 MHz channel carries half of a 20 MHz one; other widths and
      rungs have no rate. */
  lemma BaseRates(mcs: nat)
    ensures BaseRate(20, 0) == 6500 && BaseRate(20, 1) == 12000 && BaseRate(20, 2) == 15500 && BaseRate(20, 3) == 20000
    ensures BaseRate(20, 4) == 25000 && BaseRate(20, 5) == 42000 && BaseRate(20, 6) == 47500 && BaseRate(20, 7) == 55000
    ensures BaseRate(40, 0) == 9800 && BaseRate(40, 1) == 18600 && BaseRate(40, 2) == 30400 && BaseRate(40, 3) == 40200
    ensures BaseRate(40, 4) == 55800 && BaseRate(40, 5) == 80400 && BaseRate(40, 6) == 90200 && BaseRate(40, 7) == 97000
    ensures 2 * BaseRate(10, mcs) == BaseRate(20, mcs)
    ensures mcs > 7 ==> BaseRate(20, mcs) == 0 && BaseRate(40, mcs) == 0
  {
  }

  lemma OtherWidths(width: int, mcs: int)
    ensures width !in {10, 20, 40} ==> BaseRate(width, mcs) == 0
  {
  }

  /** The probe costs 280 kbps at its own rung, one above the video's, under its ceiling. */
  lemma ProbeCost(cfg: Config, mcs: int)
    ensures var rung := if mcs + 1 > cfg.probeMcsCeiling then cfg.probeMcsCeiling else mcs + 1;
      var base := BaseRate(cfg.linkWidthMhz, rung);
      ProbeUtil(cfg.linkWidthMhz, mcs, cfg.probeMcsCeiling, ProbeKbps(cfg)) ==
        if cfg.probeEnabled && base > 0 then 280.0 / base as real else 0.0
  {
  }

  // ---- the bitrate --------------------------------------------------------------------------

  lemma BitrateFits(t: real, k: int, n: int, lo: int, hi: int)
    requires t >= 0.0 && k >= 1 && n >= 1 && 0 < lo < hi
    ensures var r := Bitrate(t, k, n, lo, hi);
      && Sat16(lo) <= r <= Sat16(hi)
      && (r < hi && r < 65535 ==> t < OnAir(r + 1, k, n))
  {
    var raw := t * k as real / n as real;
    RawNonneg(t, k, n);
    var r := Bitrate(t, k, n, lo, hi);
    if r < hi && r < 65535 {
      assert raw < (r + 1) as real;
      assert raw * n as real == t * k as real;
      Beyond(raw, n as real, (r + 1) as real, t, k as real);
    }
  }

  lemma Beyond(raw: real, n: real, next: real, t: real, k: real)
    requires raw < next && n > 0.0 && k > 0.0 && raw * n == t * k
    ensures t < next * n / k
  {
    assert raw * n < next * n;
    Divided(t, k, next * n);
  }

  lemma Divided(t: real, k: real, p: real)
    requires k > 0.0 && t * k < p
    ensures t < p / k
  {
  }

  // The code the bitrate is computed with: k sources in n packets.
  predicate CodedBy(cfg: Config, mcs: int, k: int, n: int) {
    if cfg.swfec then k == 100 && n == 100 + cfg.swfecOverheadPct
    else k == ComputeK(Target(cfg, mcs), cfg.bitrate) && n == ComputeN(k, cfg.bitrate.baseRedundancyRatio)
  }

  /** The commanded bitrate is the largest that fits: between its bounds, and below the upper one
      a single kbps more would take sources, parity and probe over two thirds of the airtime. */
  lemma BudgetFilled(cfg: Config, mcs: int, k: int, n: int)
    requires cfg.Valid() && 0 <= mcs <= 7 && cfg.linkWidthMhz in {10, 20, 40} && CodedBy(cfg, mcs, k, n)
    ensures k >= 1 && BaseRate(cfg.linkWidthMhz, mcs) > 0
    ensures var r, b := RateAt(cfg, mcs), cfg.bitrate;
      && Sat16(b.minBitrateKbps) <= r <= Sat16(b.maxBitrateKbps)
      && (r < b.maxBitrateKbps && r < 65535 ==>
            Share(r + 1, k, n, BaseRate(cfg.linkWidthMhz, mcs))
            + ProbeUtil(cfg.linkWidthMhz, mcs, cfg.probeMcsCeiling, ProbeKbps(cfg)) > 2.0 / 3.0)
  {
    hide *;
    var b, t, base := cfg.bitrate, Target(cfg, mcs), BaseRate(cfg.linkWidthMhz, mcs);
    ConfigParts(cfg);
    ValidBounds(b);
    TargetNonneg(cfg, mcs);
    RatePositive(cfg.linkWidthMhz, mcs);
    CodeParts(cfg, mcs, k, n);
    RateAtParts(cfg, mcs);
    SwfecIsBitrate(t, cfg.swfecOverheadPct, b.minBitrateKbps, b.maxBitrateKbps);
    BitrateFits(t, k, n, b.minBitrateKbps, b.maxBitrateKbps);
    TargetAtLeast(cfg, mcs);
    if RateAt(cfg, mcs) < b.maxBitrateKbps && RateAt(cfg, mcs) < 65535 {
      ShareAbove(RateAt(cfg, mcs) + 1, k, n, base, t);
    }
  }

  lemma CodeParts(cfg: Config, mcs: int, k: int, n: int)
    requires cfg.Valid() && CodedBy(cfg, mcs, k, n)
    ensures k >= 1 && n >= 1
    ensures cfg.swfec ==> k == 100 && n == 100 + cfg.swfecOverheadPct
    ensures !cfg.swfec ==> k == ComputeK(Target(cfg, mcs), cfg.bitrate) && n == ComputeN(k, cfg.bitrate.baseRedundancyRatio)
  {
    hide Target, ComputeK, ComputeN;
    TargetNonneg(cfg, mcs);
    if !cfg.swfec {
      KMono(cfg.bitrate, Target(cfg, mcs), Target(cfg, mcs));
      NExceedsK(k, cfg.bitrate.baseRedundancyRatio);
    }
  }

  lemma RatePositive(width: int, mcs: int)
    requires width in {10, 20, 40} && 0 <= mcs <= 7
    ensures BaseRate(width, mcs) > 0
  {
  }

  // The target is never below the budget's share.
  lemma TargetAtLeast(cfg: Config, mcs: int)
    requires BaseRate(cfg.linkWidthMhz, mcs) > 0
    ensures Target(cfg, mcs) / BaseRate(cfg.linkWidthMhz, mcs) as real
      >= 2.0 / 3.0 - ProbeUtil(cfg.linkWidthMhz, mcs, cfg.probeMcsCeiling, ProbeKbps(cfg))
  {
    hide BaseRate, ProbeUtil, ProbeKbps;
    var base, u := BaseRate(cfg.linkWidthMhz, mcs) as real, Util(cfg.linkWidthMhz, mcs, cfg.probeMcsCeiling, ProbeKbps(cfg));
    assert Target(cfg, mcs) == base * u;
    Cancelled(base, u);
  }

  lemma Cancelled(base: real, u: real)
    requires base > 0.0
    ensures base * u / base == u
  {
  }

  lemma ShareAbove(rate: int, k: int, n: int, base: int, t: real)
    requires k >= 1 && base >= 1 && t < OnAir(rate, k, n)
    ensures Share(rate, k, n, base) > t / base as real
  {
  }

  /** Ten MHz with the probe off and no overhead: 2166 kbps at rung 0, 18333 at rung 7. */
  lemma TenMhzRates(cfg: Config)
    requires cfg.Valid() && cfg.linkWidthMhz == 10 && !cfg.probeEnabled && cfg.swfec && cfg.swfecOverheadPct == 0
    requires cfg.bitrate.minBitrateKbps <= 2166 && cfg.bitrate.maxBitrateKbps >= 18333
    ensures RateAt(cfg, 0) == 2166 && RateAt(cfg, 7) == 18333
  {
    TenMhzRate(cfg, 0, 6500.0 / 3.0, 2166);
    TenMhzRate(cfg, 7, 55000.0 / 3.0, 18333);
  }

  lemma TenMhzRate(cfg: Config, mcs: int, target: real, rate: int)
    requires cfg.swfec && cfg.swfecOverheadPct == 0 && 0 <= mcs <= 7 && Target(cfg, mcs) == target
    requires rate as real <= target < (rate + 1) as real && 0 < cfg.bitrate.minBitrateKbps <= rate <= cfg.bitrate.maxBitrateKbps && rate <= 65535
    ensures RateAt(cfg, mcs) == rate
  {
    hide Target;
    assert target * 100.0 / 100.0 == target;
  }

  // ---- the block ------------------------------------------------------------------------------

  // What one packet of every block of a second takes of the wire, in thousandths of a kbps.
  function PacketCost(b: BitrateConfig): real {
    b.blocksPerFrame * (b.fps as real * b.mtuBytes as real * 8.0) * (1.0 + b.baseRedundancyRatio)
  }

  /** The block holds the packets a frame's share of the wire target pays for, parity
      included, and no fraction: k of them fit, k + 1 would not, within the bounds. */
  lemma BlockExactly(cfg: Config, mcs: int)
    requires cfg.Valid()
    ensures var b, t := cfg.bitrate, Target(cfg, mcs);
      var k := ComputeK(t, b);
      && b.kMin <= k <= b.kMax
      && (k > b.kMin ==> k as real * PacketCost(b) <= t * 1000.0)
      && (k < b.kMax && b.mtuBytes > 0 && t > 0.0 ==> t * 1000.0 < (k + 1) as real * PacketCost(b))
  {
    hide Target, PacketsPerBlock, BitsPerKbps, PacketCost, ComputeK, Clamp, Trunc, Config.Valid, BitrateConfig.Valid;
    ConfigParts(cfg);
    var b, t := cfg.bitrate, Target(cfg, mcs);
    TargetNonneg(cfg, mcs);
    KMono(b, t, t);
    KCases(b, t);
    if b.mtuBytes > 0 && t > 0.0 {
      var e, f, q := 1.0 + b.baseRedundancyRatio, BitsPerKbps(b), b.blocksPerFrame;
      ChainNonneg(e, f, q, t);
      TotalCost(b, t);
      Whole(PacketsPerBlock(t, e, f, q), PacketCost(b), t * 1000.0, b.kMin, b.kMax);
    }
  }

  // All the packets of a block cost the wire target.
  lemma TotalCost(b: BitrateConfig, t: real)
    requires b.Valid() && b.mtuBytes > 0
    ensures PacketCost(b) > 0.0 && BitsPerKbps(b) > 0.0
    ensures PacketsPerBlock(t, 1.0 + b.baseRedundancyRatio, BitsPerKbps(b), b.blocksPerFrame) * PacketCost(b) == t * 1000.0
  {
    hide PacketsPerBlock, BitsPerKbps, PacketCost;
    BitsPositive(b);
    PacketsTimesCost(t, 1.0 + b.baseRedundancyRatio, BitsPerKbps(b), b.blocksPerFrame);
    CostParts(b);
  }

  // The clamped whole part of p, against what p costs.
  lemma Whole(p: real, c: real, total: real, lo: int, hi: int)
    requires p >= 0.0 && c > 0.0 && p * c == total
    ensures var k := Clamp(Trunc(p), lo, hi);
      && (k > lo ==> k as real * c <= total)
      && (k < hi ==> total < (k + 1) as real * c)
  {
    hide Clamp, Trunc;
    var k := Clamp(Trunc(p), lo, hi);
    WholePart(p, lo, hi);
    if k > lo { Scales(k as real, p, c, total); }
    if k < hi { ScalesUp(p, (k + 1) as real, c, total); }
  }

  lemma WholePart(p: real, lo: int, hi: int)
    requires p >= 0.0
    ensures var k := Clamp(Trunc(p), lo, hi); (k > lo ==> k as real <= p) && (k < hi ==> p < (k + 1) as real)
  {
  }

  lemma BitsPositive(b: BitrateConfig)
    requires b.Valid() && b.mtuBytes > 0
    ensures BitsPerKbps(b) > 0.0 && b.fps as real * b.mtuBytes as real > 0.0
  {
  }

  lemma CostParts(b: BitrateConfig)
    requires b.Valid() && b.mtuBytes > 0
    ensures PacketCost(b) == b.blocksPerFrame * BitsPerKbps(b) * (1.0 + b.baseRedundancyRatio) > 0.0
  {
    BitsPositive(b);
    Product3(b.blocksPerFrame, BitsPerKbps(b), 1.0 + b.baseRedundancyRatio);
  }

  lemma Product3(x: real, y: real, z: real)
    requires x > 0.0 && y > 0.0 && z > 0.0
    ensures x * y * z > 0.0
  {
    assert x * y > 0.0;
  }

  lemma PacketsTimesCost(t: real, e: real, bits: real, blocks: real)
    requires e > 0.0 && bits > 0.0 && blocks > 0.0
    ensures PacketsPerBlock(t, e, bits, blocks) * (blocks * bits * e) == t * 1000.0
  {
    var a := t / e;
    var f := a * 1000.0 / bits;
    var p := f / blocks;
    assert a * e == t && f * bits == a * 1000.0 && p * blocks == f;
    Regrouped(p, blocks, bits, e);
    Chain(p * blocks, f, bits, e);
    Chain(f * bits, a * 1000.0, e, 1.0);
    Swap3(a, 1000.0, e);
  }

  lemma Regrouped(p: real, x: real, y: real, z: real)
    ensures p * (x * y * z) == p * x * y * z
  {
  }

  lemma Chain(a: real, b: real, y: real, z: real)
    requires a == b
    ensures a * y * z == b * y * z
  {
  }

  lemma Swap3(a: real, m: real, e: real)
    ensures a * m * e == a * e * m
  {
  }

  lemma Scales(k: real, p: real, c: real, total: real)
    requires k <= p && c > 0.0 && p * c == total
    ensures k * c <= total
  {
    assert (p - k) * c >= 0.0;
    assert (p - k) * c == p * c - k * c;
  }

  lemma ScalesUp(p: real, k: real, c: real, total: real)
    requires p < k && c > 0.0 && p * c == total
    ensures total < k * c
  {
    assert (k - p) * c > 0.0;
    assert (k - p) * c == k * c - p * c;
  }

  /** Parity is the least whole number of packets that reaches the ratio. */
  lemma ParityExactly(k: int, ratio: real)
    ensures (ComputeN(k, ratio) - 1) as real < k as real * (1.0 + ratio) <= ComputeN(k, ratio) as real
  {
  }

  // ---- what goes where ----------------------------------------------------------------------------

  /** The record: static FEC parameters or the block squeezed into bytes, the frame rate, the
      power curve; rung, width and header are kept. */
  lemma SlotsExactly(cfg: Config, d: Decision)
    requires cfg.Valid()
    ensures var e := LocalCompute(cfg, d);
      var k := ComputeK(Target(cfg, d.mcs), cfg.bitrate);
      var n := ComputeN(k, cfg.bitrate.baseRedundancyRatio);
      && (if cfg.swfec then e.k == cfg.swfecOverheadPct && e.n == cfg.swfecDeadlineMs
          else e.k == (if k > 255 then 255 else k) && e.n == (if n > 255 then 255 else n))
      && e.fps == cfg.bitrate.fps && e.bitrateKbps == RateAt(cfg, d.mcs)
      && e.txPowerDbm == (match d.mcs case 0 => 29 case 1 => 28 case 2 => 25 case 3 => 23 case _ => 19)
      && e == d.(k := e.k, n := e.n, fps := e.fps, bitrateKbps := e.bitrateKbps, txPowerDbm := e.txPowerDbm)
  {
    hide Target, ComputeK, ComputeN, Bitrate;
    var t := Target(cfg, d.mcs);
    TargetNonneg(cfg, d.mcs);
    KMono(cfg.bitrate, t, t);
    NExceedsK(ComputeK(t, cfg.bitrate), cfg.bitrate.baseRedundancyRatio);
  }

  // ---- the region of interest -----------------------------------------------------------------------

  /** Below the threshold the offset is the floor scaled by how far the bitrate is down from it,
      rounded toward zero to whole steps. */
  lemma RoiExactly(rate: int, c: RoiCurve)
    requires c.Valid()
    ensures var f, span := -c.floor, c.thresholdKbps - c.lowAnchorKbps;
      var down := if rate < c.lowAnchorKbps then span else c.thresholdKbps - rate;
      && (rate >= c.thresholdKbps ==> RoiQp(rate, c) == 0)
      && (rate < c.thresholdKbps ==> exists m ::
            RoiQp(rate, c) == -(m * c.step) && m * c.step * span <= f * down < (m + 1) * c.step * span)
  {
    if rate < c.thresholdKbps {
      hide RoiQp;
      RoiParts(rate, c);
      var f, x, span := -c.floor, RoiDepth(rate, c), c.thresholdKbps - c.lowAnchorKbps;
      var m := f * x / span / c.step;
      TwoQuotients(f * x, span, c.step, m);
      assert RoiQp(rate, c) == -(m * c.step);
    }
  }

  lemma TwoQuotients(a: int, b: int, c: int, m: int)
    requires a >= 0 && b > 0 && c > 0 && m == a / b / c
    ensures m * c * b <= a < (m + 1) * c * b
  {
    var q := a / b;
    assert q * b <= a < (q + 1) * b by { assert a == b * q + a % b; }
    assert m * c <= q < (m + 1) * c by { assert q == c * m + q % c; }
    Multiplied(m * c, q, b);
    Multiplied(q + 1, (m + 1) * c, b);
  }

  lemma Multiplied(x: int, y: int, b: int)
    requires x <= y && b > 0
    ensures x * b <= y * b
  {
  }
}
