/** The learned failure knee per rung (gs/fpvdgs/dynlink/learned_prior.py). */
module Knee {
  import opened Common

  const MAX_MCS := 7

  datatype PriorConfig = PriorConfig(
    settleTicks: int, viableLoss: real, alphaTighten: real, alphaRelax: real, minSamples: real, recencyDecay: real,
    horizonTicks: int, slopeWindow: nat, minDropDb: real, debounceWindows: int, demoteMarginDb: real)

  datatype Prior = Prior(knee: seq<Option<real>>, count: seq<real>) {
    predicate Valid() { |knee| == MAX_MCS + 1 && |count| == MAX_MCS + 1 }
  }

  function FreshPrior(): (p: Prior)
    ensures p.Valid() && forall i :: 0 <= i <= MAX_MCS ==> p.knee[i] == None && p.count[i] == 0.0
  {
    Prior([None, None, None, None, None, None, None, None], [0.0, 0.0, 0.0, 0.0, 0.0, 0.0, 0.0, 0.0])
  }

  datatype Obs = Obs(rung: int, value: real, clean: bool)

  function Decayed(count: seq<real>, d: real): (r: seq<real>)
    ensures |r| == |count| && forall i :: 0 <= i < |count| ==> r[i] == if d < 1.0 then count[i] * d else count[i]
  {
    if d < 1.0 then seq(|count|, i requires 0 <= i < |count| => count[i] * d) else count
  }

  // A step of size a from x toward v.
  function Toward(x: real, v: real, a: real): real {
    Advance(x, v - x, a)
  }

  function Advance(x: real, e: real, a: real): real {
    x + a * e
  }

  // A failure plants or raises the knee, a clean sample below it lowers it.
  function Moved(cfg: PriorConfig, k: Option<real>, value: real, clean: bool): Option<real> {
    match k
    case None => if clean then None else Some(value)
    case Some(x) =>
      if clean && value < x then Some(Toward(x, value, cfg.alphaRelax))
      else if !clean && value > x then Some(Toward(x, value, cfg.alphaTighten))
      else k
  }

  function Observed(cfg: PriorConfig, p: Prior, o: Obs): (r: Prior)
    requires p.Valid()
    ensures r.Valid()
  {
    if o.rung < 0 || o.rung > MAX_MCS then p
    else
      var count := Decayed(p.count, cfg.recencyDecay);
      Prior(p.knee[o.rung := Moved(cfg, p.knee[o.rung], o.value, o.clean)], count[o.rung := count[o.rung] + 1.0])
  }

  // The rung's own knee counts only once it is confident.
  predicate Trusted(cfg: PriorConfig, p: Prior, k: nat)
    requires p.Valid() && k <= MAX_MCS
  {
    p.knee[k].Some? && p.count[k] >= cfg.minSamples
  }

  // Largest trusted knee at or below rung n - 1.
  function Running(cfg: PriorConfig, p: Prior, n: nat): Option<real>
    requires p.Valid() && n <= MAX_MCS + 1
  {
    if n == 0 then None
    else if !Trusted(cfg, p, n - 1) then Running(cfg, p, n - 1)
    else
      match Running(cfg, p, n - 1)
      case None => p.knee[n - 1]
      case Some(r) => if p.knee[n - 1].value > r then p.knee[n - 1] else Some(r)
  }

  function Effective(cfg: PriorConfig, p: Prior, k: nat): Option<real>
    requires p.Valid() && k <= MAX_MCS
  {
    if Trusted(cfg, p, k) then Running(cfg, p, k + 1) else None
  }

  predicate Unviable(cfg: PriorConfig, p: Prior, rung: int, value: real, margin: real)
    requires p.Valid()
  {
    0 <= rung <= MAX_MCS && Effective(cfg, p, rung).Some? && value < Effective(cfg, p, rung).value - margin
  }

  predicate Confident(cfg: PriorConfig, p: Prior, rung: int)
    requires p.Valid()
  {
    0 <= rung <= MAX_MCS && Effective(cfg, p, rung).Some?
  }

  // key: the card and channel width the knees are stored under.
  class KneeModel {
    const key: string
    const cfg: PriorConfig
    var knee: seq<Option<real>>
    var count: seq<real>

    function View(): Prior reads this { Prior(knee, count) }

    constructor (key: string, cfg: PriorConfig)
      ensures this.key == key && this.cfg == cfg && View() == FreshPrior()
    {
      this.key, this.cfg := key, cfg;
      knee := FreshPrior().knee;
      count := FreshPrior().count;
    }

    // A persisted model replaces the learned one.
    method Load(p: Prior)
      modifies this
      ensures View() == p
    {
      knee, count := p.knee, p.count;
    }

    method Observe(rung: int, value: real, clean: bool)
      requires View().Valid()
      modifies this
      ensures View() == Observed(cfg, old(View()), Obs(rung, value, clean))
    {
      if rung < 0 || rung > MAX_MCS {
        return;
      }
      var d := cfg.recencyDecay;
      if d < 1.0 {
        var c := count;
        count := seq(|c|, i requires 0 <= i < |c| => c[i] * d);
      }
      assert count == Decayed(old(count), d);
      var k := knee[rung];
      if k.None? {
        if !clean {
          knee := knee[rung := Some(value)];
        }
      } else if clean && value < k.value {
        knee := knee[rung := Some(Toward(k.value, value, cfg.alphaRelax))];
      } else if !clean && value > k.value {
        knee := knee[rung := Some(Toward(k.value, value, cfg.alphaTighten))];
      }
      assert old(knee)[rung := k] == old(knee);
      assert knee == old(knee)[rung := Moved(cfg, old(knee)[rung], value, clean)];
      count := count[rung := count[rung] + 1.0];
    }

    // Cumulative maximum over the trusted knees.
    method EffKnees() returns (eff: seq<Option<real>>)
      requires View().Valid()
      ensures |eff| == MAX_MCS + 1
      ensures forall k :: 0 <= k <= MAX_MCS ==> eff[k] == Effective(cfg, View(), k)
    {
      eff := [];
      var run: Option<real> := None;
      for k := 0 to MAX_MCS + 1
        invariant |eff| == k && run == Running(cfg, View(), k)
        invariant forall i :: 0 <= i < k ==> eff[i] == Effective(cfg, View(), i)
      {
        if knee[k].Some? && count[k] >= cfg.minSamples {
          run := if run.None? || knee[k].value > run.value then knee[k] else run;
          eff := eff + [run];
        } else {
          eff := eff + [None];
        }
      }
    }

    method RungUnviable(rung: int, value: real, margin: real) returns (b: bool)
      requires View().Valid()
      ensures b == Unviable(cfg, View(), rung, value, margin)
    {
      if rung < 0 || rung > MAX_MCS {
        return false;
      }
      var eff := EffKnees();
      var k := eff[rung];
      b := k.Some? && value < k.value - margin;
    }

    method RungConfident(rung: int) returns (b: bool)
      requires View().Valid()
      ensures b == Confident(cfg, View(), rung)
    {
      if rung < 0 || rung > MAX_MCS {
        return false;
      }
      var eff := EffKnees();
      b := eff[rung].Some?;
    }
  }

  // ---- effective knees --------------------------------------------------------------

  // The running maximum is a trusted knee and bounds all trusted knees so far.
  lemma {:induction false} RunningIsMax(cfg: PriorConfig, p: Prior, n: nat)
    requires p.Valid() && n <= MAX_MCS + 1
    ensures var r := Running(cfg, p, n);
      && (r.None? <==> forall i :: 0 <= i < n ==> !Trusted(cfg, p, i))
      && (r.Some? ==> exists i :: 0 <= i < n && Trusted(cfg, p, i) && p.knee[i] == r)
      && (forall i :: 0 <= i < n && Trusted(cfg, p, i) ==> r.Some? && p.knee[i].value <= r.value)
  {
    if n > 0 {
      RunningIsMax(cfg, p, n - 1);
    }
  }

  /** Confident knees never fall from one rung to a higher one. */
  lemma EffectiveMonotone(cfg: PriorConfig, p: Prior, low: nat, high: nat)
    requires p.Valid() && low <= high <= MAX_MCS
    requires Effective(cfg, p, low).Some? && Effective(cfg, p, high).Some?
    ensures Effective(cfg, p, low).value <= Effective(cfg, p, high).value
  {
    RunningIsMax(cfg, p, low + 1);
    RunningIsMax(cfg, p, high + 1);
  }

  /** What is unviable at a rung is unviable at every confident rung above it. */
  lemma UnviablePropagates(cfg: PriorConfig, p: Prior, low: int, high: int, value: real, margin: real)
    requires p.Valid() && low <= high && Unviable(cfg, p, low, value, margin) && Confident(cfg, p, high)
    ensures Unviable(cfg, p, high, value, margin)
  {
    EffectiveMonotone(cfg, p, low, high);
  }

  // ---- histories ------------------------------------------------------------------------

  function Learn(cfg: PriorConfig, p: Prior, obs: seq<Obs>): (r: Prior)
    requires p.Valid()
    ensures r.Valid()
  {
    if obs == [] then p else Observed(cfg, Learn(cfg, p, obs[..|obs| - 1]), obs[|obs| - 1])
  }

  ghost predicate Failed(obs: seq<Obs>, rung: int) {
    exists i :: 0 <= i < |obs| && obs[i].rung == rung && !obs[i].clean
  }

  ghost predicate SeenAtMost(obs: seq<Obs>, rung: int, v: real) {
    exists i :: 0 <= i < |obs| && obs[i].rung == rung && obs[i].value <= v
  }

  ghost predicate FailedAtLeast(obs: seq<Obs>, rung: int, v: real) {
    exists i :: 0 <= i < |obs| && obs[i].rung == rung && !obs[i].clean && v <= obs[i].value
  }

  lemma AdvanceUp(x: real, e: real, a: real)
    requires 0.0 <= a <= 1.0 && e >= 0.0
    ensures x <= Advance(x, e, a) <= x + e
  {
  }

  lemma AdvanceDown(x: real, e: real, a: real)
    requires 0.0 <= a <= 1.0 && e <= 0.0
    ensures x + e <= Advance(x, e, a) <= x
  {
  }

  // A step stays between its ends.
  lemma TowardBetween(x: real, v: real, a: real)
    requires 0.0 <= a <= 1.0
    ensures x <= v ==> x <= Toward(x, v, a) <= v
    ensures v <= x ==> v <= Toward(x, v, a) <= x
  {
    hide Advance;
    if x <= v { AdvanceUp(x, v - x, a); }
    if v <= x { AdvanceDown(x, v - x, a); }
  }

  lemma SeenLater(obs: seq<Obs>, rung: int, v: real, v': real)
    requires obs != []
    ensures SeenAtMost(obs[..|obs| - 1], rung, v) && v <= v' ==> SeenAtMost(obs, rung, v')
    ensures FailedAtLeast(obs[..|obs| - 1], rung, v) && v' <= v ==> FailedAtLeast(obs, rung, v')
    ensures Failed(obs, rung) <==> Failed(obs[..|obs| - 1], rung) || (obs[|obs| - 1].rung == rung && !obs[|obs| - 1].clean)
  {
  }

  // A knee k grown out of k0 over the history: set once it was stored or has failed, and between
  // the smallest and the largest failing of the values observed and k0.
  ghost predicate Bracketed(obs: seq<Obs>, rung: int, k0: Option<real>, k: Option<real>) {
    && (k.Some? <==> k0.Some? || Failed(obs, rung))
    && (k.Some? ==>
          && (SeenAtMost(obs, rung, k.value) || (k0.Some? && k0.value <= k.value))
          && (FailedAtLeast(obs, rung, k.value) || (k0.Some? && k.value <= k0.value)))
  }

  /** From any stored knees: a rung's knee is unset until its first failure; from then on it
      lies between the smallest value observed at the rung and the largest failing one, a
      stored knee counting as both. */
  lemma {:induction false} KneeBracketed(cfg: PriorConfig, p: Prior, obs: seq<Obs>, rung: nat)
    requires p.Valid() && rung <= MAX_MCS && 0.0 <= cfg.alphaTighten <= 1.0 && 0.0 <= cfg.alphaRelax <= 1.0
    ensures Bracketed(obs, rung, p.knee[rung], Learn(cfg, p, obs).knee[rung])
  {
    hide Decayed, Bracketed;
    if obs == [] {
      EmptyHistory(rung, p.knee[rung]);
    } else {
      var m := |obs| - 1;
      KneeBracketed(cfg, p, obs[..m], rung);
      KneeStep(cfg, obs, rung, p.knee[rung], Learn(cfg, p, obs[..m]).knee[rung], Learn(cfg, p, obs).knee[rung]);
    }
  }

  lemma EmptyHistory(rung: int, k0: Option<real>)
    ensures Bracketed([], rung, k0, k0)
  {
  }

  lemma KneeStep(cfg: PriorConfig, obs: seq<Obs>, rung: nat, k0: Option<real>, k: Option<real>, k': Option<real>)
    requires 0.0 <= cfg.alphaTighten <= 1.0 && 0.0 <= cfg.alphaRelax <= 1.0 && obs != []
    requires var o := obs[|obs| - 1]; k' == if o.rung == rung then Moved(cfg, k, o.value, o.clean) else k
    requires Bracketed(obs[..|obs| - 1], rung, k0, k)
    ensures Bracketed(obs, rung, k0, k')
  {
    hide Toward, Failed, SeenAtMost, FailedAtLeast;
    var m := |obs| - 1;
    var o := obs[m];
    if k.Some? {
      TowardBetween(k.value, o.value, cfg.alphaRelax);
      TowardBetween(k.value, o.value, cfg.alphaTighten);
      SeenLater(obs, rung, k.value, k'.value);
    } else {
      SeenLater(obs, rung, 0.0, 0.0);
    }
    if o.rung == rung && k'.Some? {
      LastSeen(obs, k'.value);
    }
  }

  lemma LastSeen(obs: seq<Obs>, v: real)
    requires obs != []
    ensures var o := obs[|obs| - 1];
      (o.value <= v ==> SeenAtMost(obs, o.rung, v)) && (!o.clean && v <= o.value ==> FailedAtLeast(obs, o.rung, v))
  {
  }

  // ---- total confidence -------------------------------------------------------------------

  lemma {:induction false} SumScaled(s: seq<real>, t: seq<real>, d: real)
    requires |s| == |t| && forall i :: 0 <= i < |s| ==> t[i] == s[i] * d
    ensures Sum(t) == Sum(s) * d
  {
    if s != [] {
      SumScaled(s[..|s| - 1], t[..|s| - 1], d);
    }
  }

  lemma {:induction false} SumBumped(s: seq<real>, i: nat, x: real)
    requires i < |s|
    ensures Sum(s[i := s[i] + x]) == Sum(s) + x
  {
    var m := |s| - 1;
    if i < m {
      SumBumped(s[..m], i, x);
      assert s[i := s[i] + x][..m] == s[..m][i := s[..m][i] + x];
    } else {
      assert s[i := s[i] + x][..m] == s[..m];
    }
  }

  /** With a decay d below one, total confidence never exceeds the larger of where it
      began and 1 / (1 - d). */
  lemma {:induction false} ConfidenceBounded(cfg: PriorConfig, p: Prior, obs: seq<Obs>, bound: real)
    requires p.Valid() && 0.0 <= cfg.recencyDecay < 1.0
    requires bound >= Sum(p.count) && bound >= 1.0 / (1.0 - cfg.recencyDecay)
    ensures Sum(Learn(cfg, p, obs).count) <= bound
  {
    hide Moved, Sum, Decayed;
    if obs != [] {
      var m := |obs| - 1;
      var q, o, d := Learn(cfg, p, obs[..m]), obs[m], cfg.recencyDecay;
      ConfidenceBounded(cfg, p, obs[..m], bound);
      if 0 <= o.rung <= MAX_MCS {
        var c := Decayed(q.count, d);
        SumScaled(q.count, c, d);
        SumBumped(c, o.rung, 1.0);
        DecayStep(Sum(q.count), d, bound);
      }
    }
  }

  lemma DecayStep(s: real, d: real, bound: real)
    requires 0.0 <= d < 1.0 && s <= bound && bound >= 1.0 / (1.0 - d)
    ensures s * d + 1.0 <= bound
  {
    var g := 1.0 - d;
    InverseBound(g, bound);
    Scaled(s, bound, d);
    assert bound * g == bound - bound * d;
  }

  lemma InverseBound(g: real, bound: real)
    requires g > 0.0 && bound >= 1.0 / g
    ensures bound * g >= 1.0
  {
  }

  lemma Scaled(a: real, b: real, c: real)
    requires a <= b && c >= 0.0
    ensures a * c <= b * c
  {
  }

  // ---- how far an observation moves a knee --------------------------------------------------

  // Every observation of the rung is this one.
  predicate Only(obs: seq<Obs>, rung: int, value: real, clean: bool) {
    forall i :: 0 <= i < |obs| && obs[i].rung == rung ==> obs[i].value == value && obs[i].clean == clean
  }

  function Seen(obs: seq<Obs>, rung: int): nat {
    if obs == [] then 0 else Seen(obs[..|obs| - 1], rung) + if obs[|obs| - 1].rung == rung then 1 else 0
  }

  // One more step of the same share of what is left.
  lemma ShareLeft(gap: real, b: real, n: nat)
    ensures gap * Pow(b, n) * b == gap * Pow(b, n + 1)
  {
    assert Pow(b, n + 1) == b * Pow(b, n);
    Reorder(gap, Pow(b, n), b);
  }

  lemma Reorder(x: real, y: real, z: real)
    ensures x * y * z == x * (z * y)
  {
  }

  lemma TowardGap(x: real, v: real, a: real)
    ensures v - Toward(x, v, a) == (v - x) * (1.0 - a)
  {
    Distribute(v - x, a);
  }

  lemma Distribute(g: real, a: real)
    ensures g * (1.0 - a) == g - a * g
  {
  }

  lemma GapSign(gap: real, b: real, n: nat)
    requires gap >= 0.0 && b >= 0.0
    ensures gap * Pow(b, n) >= 0.0
  {
    PowNonNegative(b, n);
  }

  /** Failures at v above the knee close the gap by alphaTighten each, whatever other rungs see
      in between. */
  lemma {:induction false} FailuresTighten(cfg: PriorConfig, p: Prior, obs: seq<Obs>, rung: nat, v: real)
    requires p.Valid() && rung <= MAX_MCS && p.knee[rung].Some? && p.knee[rung].value <= v
    requires 0.0 <= cfg.alphaTighten <= 1.0 && Only(obs, rung, v, false)
    ensures var k := Learn(cfg, p, obs).knee[rung];
      k.Some? && v - k.value == (v - p.knee[rung].value) * Pow(1.0 - cfg.alphaTighten, Seen(obs, rung))
  {
    hide Decayed, Toward, Pow;
    var gap, b := v - p.knee[rung].value, 1.0 - cfg.alphaTighten;
    PowZero(b);
    if obs != [] {
      var m := |obs| - 1;
      FailuresTighten(cfg, p, obs[..m], rung, v);
      var k := Learn(cfg, p, obs[..m]).knee[rung].value;
      GapSign(gap, b, Seen(obs[..m], rung));
      TowardGap(k, v, cfg.alphaTighten);
      ShareLeft(gap, b, Seen(obs[..m], rung));
    }
  }

  lemma PowZero(b: real)
    ensures Pow(b, 0) == 1.0
  {
  }

  /** Clean samples at v below the knee close it by alphaRelax each. */
  lemma {:induction false} CleanRelaxes(cfg: PriorConfig, p: Prior, obs: seq<Obs>, rung: nat, v: real)
    requires p.Valid() && rung <= MAX_MCS && p.knee[rung].Some? && p.knee[rung].value >= v
    requires 0.0 <= cfg.alphaRelax <= 1.0 && Only(obs, rung, v, true)
    ensures var k := Learn(cfg, p, obs).knee[rung];
      k.Some? && k.value - v == (p.knee[rung].value - v) * Pow(1.0 - cfg.alphaRelax, Seen(obs, rung))
  {
    hide Decayed, Toward, Pow;
    var gap, b := p.knee[rung].value - v, 1.0 - cfg.alphaRelax;
    PowZero(b);
    if obs != [] {
      var m := |obs| - 1;
      CleanRelaxes(cfg, p, obs[..m], rung, v);
      var k := Learn(cfg, p, obs[..m]).knee[rung].value;
      GapSign(gap, b, Seen(obs[..m], rung));
      TowardBack(k, v, cfg.alphaRelax);
      ShareLeft(gap, b, Seen(obs[..m], rung));
    }
  }

  lemma TowardBack(x: real, v: real, a: real)
    ensures Toward(x, v, a) - v == (x - v) * (1.0 - a)
  {
    TowardGap(x, v, a);
    Negated(v - x, 1.0 - a);
  }

  lemma Negated(g: real, b: real)
    ensures (-g) * b == -(g * b)
  {
  }

  /** A first failure plants the knee where it failed; clean samples never plant or raise it,
      and failures never lower it. */
  lemma FirstFailure(cfg: PriorConfig, p: Prior, rung: nat, v: real, clean: bool)
    requires p.Valid() && rung <= MAX_MCS && 0.0 <= cfg.alphaTighten <= 1.0 && 0.0 <= cfg.alphaRelax <= 1.0
    ensures var k, k' := p.knee[rung], Learn(cfg, p, [Obs(rung, v, clean)]).knee[rung];
      && (k.None? ==> k' == if clean then None else Some(v))
      && (k.Some? && clean && v >= k.value ==> k' == k)
      && (k.Some? && !clean && v <= k.value ==> k' == k)
  {
    assert [Obs(rung, v, clean)][..0] == [];
  }

  // ---- how confidence grows and fades -----------------------------------------------------------

  predicate InRange(obs: seq<Obs>) { forall i :: 0 <= i < |obs| ==> 0 <= obs[i].rung <= MAX_MCS }

  // A decay of one or more leaves the counts alone.
  function Fading(cfg: PriorConfig): real { if cfg.recencyDecay < 1.0 then cfg.recencyDecay else 1.0 }

  /** Every observation fades the other rungs by the decay. */
  lemma {:induction false} OthersFade(cfg: PriorConfig, p: Prior, obs: seq<Obs>, rung: nat)
    requires p.Valid() && rung <= MAX_MCS && InRange(obs) && Seen(obs, rung) == 0
    ensures Learn(cfg, p, obs).count[rung] == p.count[rung] * Pow(Fading(cfg), |obs|)
  {
    hide Observed, Pow, Fading;
    PowZero(Fading(cfg));
    if obs != [] {
      var m := |obs| - 1;
      OthersFade(cfg, p, obs[..m], rung);
      CountStep(cfg, Learn(cfg, p, obs[..m]), obs[m], rung);
      ShareLeft(p.count[rung], Fading(cfg), m);
    }
  }

  lemma CountStep(cfg: PriorConfig, p: Prior, o: Obs, rung: nat)
    requires p.Valid() && rung <= MAX_MCS && 0 <= o.rung <= MAX_MCS
    ensures Observed(cfg, p, o).count[rung] == p.count[rung] * Fading(cfg) + if o.rung == rung then 1.0 else 0.0
  {
    assert Decayed(p.count, cfg.recencyDecay)[rung] == p.count[rung] * Fading(cfg);
  }

  /** Observations of one rung add up to a geometric sum, or to their number without decay. */
  lemma {:induction false} OwnGrows(cfg: PriorConfig, p: Prior, obs: seq<Obs>, rung: nat)
    requires p.Valid() && rung <= MAX_MCS && InRange(obs) && Seen(obs, rung) == |obs|
    ensures var d, c := Fading(cfg), Learn(cfg, p, obs).count[rung];
      && (1.0 - d) * c == (1.0 - d) * p.count[rung] * Pow(d, |obs|) + 1.0 - Pow(d, |obs|)
      && (d == 1.0 ==> c == p.count[rung] + |obs| as real)
  {
    hide Observed, Pow, Fading;
    var d := Fading(cfg);
    PowZero(d);
    if obs != [] {
      var m := |obs| - 1;
      SeenMost(obs[..m], rung);
      OwnGrows(cfg, p, obs[..m], rung);
      var c := Learn(cfg, p, obs[..m]).count[rung];
      CountStep(cfg, Learn(cfg, p, obs[..m]), obs[m], rung);
      GrowStep(d, c, p.count[rung], Pow(d, m));
      PowNext(d, m);
    }
  }

  lemma SeenMost(obs: seq<Obs>, rung: int)
    ensures Seen(obs, rung) <= |obs|
  {
  }

  lemma PowNext(d: real, m: nat)
    ensures Pow(d, m + 1) == d * Pow(d, m)
  {
  }

  lemma GrowStep(d: real, c: real, c0: real, q: real)
    requires (1.0 - d) * c == (1.0 - d) * c0 * q + 1.0 - q
    ensures (1.0 - d) * (c * d + 1.0) == (1.0 - d) * c0 * (d * q) + 1.0 - d * q
  {
    var e := 1.0 - d;
    assert e * (c * d + 1.0) == e * c * d + e;
    assert (e * c0 * q + 1.0 - q) * d == e * c0 * q * d + d - q * d;
    assert e * c0 * q * d == e * c0 * (d * q);
  }

  // ---- what the selector reads off the knees ----------------------------------------------------

  /** A rung has an effective knee exactly when its own has minSamples behind it; it is then the
      largest such knee at or below the rung, and a value under it by more than the margin is
      unviable. */
  lemma EffectiveExactly(cfg: PriorConfig, p: Prior, rung: nat, value: real, margin: real)
    requires p.Valid() && rung <= MAX_MCS
    ensures var e := Effective(cfg, p, rung);
      && (e.Some? <==> p.knee[rung].Some? && p.count[rung] >= cfg.minSamples)
      && (e.Some? ==>
            && (exists i :: 0 <= i <= rung && p.knee[i] == e && p.count[i] >= cfg.minSamples)
            && (forall i :: 0 <= i <= rung && p.knee[i].Some? && p.count[i] >= cfg.minSamples ==> p.knee[i].value <= e.value))
      && (Unviable(cfg, p, rung, value, margin) <==> e.Some? && value < e.value - margin)
      && (Confident(cfg, p, rung) <==> e.Some?)
  {
    RunningIsMax(cfg, p, rung + 1);
    assert Trusted(cfg, p, rung) <==> p.knee[rung].Some? && p.count[rung] >= cfg.minSamples;
  }
}
