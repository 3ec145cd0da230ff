/** The ground station's rung selector (LeadingSelector in
    gs/fpvdgs/dynlink/policy.py): three promote routes, reactive demotes, promote
    probation, a per-rung flap damper and snap-back memory.  SNR is a real number of
    decibels, time an integer number of milliseconds. */
module Selector {
  import opened Common
  import opened Knee

  const RELEASE_WINDOW := 20

  datatype SelectorConfig = SelectorConfig(
    videoDemotePer: real, emergencyFec: real, maxMcs: nat,
    holdMs: int, minBetweenMs: int, starvationWindows: int, cooldownWindows: nat, snrDebounce: int,
    promoteMarginDb: real, demoteMarginDb: real,
    flapBaseMs: int, flapMult: real, flapCapMs: int, flapResetTicks: int,
    promoteDwell: int, promoteSlopeMin: real, trialWindowMs: int, collapseDb: real,
    flapReleaseDb: real, flapDecayMs: int, recoverMarginDb: real, confirmTtlMs: int)

  datatype Release = NoRelease | Timer | RawMin | Probe
  datatype FailClass = Fade | Flap | Burst
  datatype Why = Stay | LossDemote(klass: FailClass) | EmergencyDemote | SnapBack | KneePromote | Explore {
    predicate Promotes() { SnapBack? || KneePromote? || Explore? }
  }
  datatype Fail = Fail(rung: nat, klass: FailClass, snr: real)

  // Flap damper, per rung.
  datatype Table = Table(level: map<nat, nat>, until: map<nat, int>, snr: map<nat, real>, last: map<nat, int>)

  // Snap-back memory, per rung: confirmed until when, and at what SNR.
  datatype Memory = Memory(until: map<nat, int>, snr: map<nat, real>) {
    predicate Valid() { until.Keys == snr.Keys }
  }

  /** What one call reports.  why is the committed change, in place of a log line. */
  datatype Note = Note(release: Release, suppressed: bool, snapTgt: Option<nat>, lastFail: Option<Fail>, why: Why)

  datatype Sel = Sel(
    current: nat, lastChange: int, cleanDwell: nat, flaps: Table, recent: seq<real>,
    trial: Option<nat>, trialUntil: int, memory: Memory, note: Note)
  {
    predicate Valid(cfg: SelectorConfig) {
      current <= cfg.maxMcs && memory.Valid() && (trial.Some? ==> trial == Some(current))
    }
  }

  datatype Inputs = Inputs(
    snr: Option<real>, snrW: Option<real>, slope: Option<real>, lossDemote: bool,
    targetConfident: bool, targetBlocked: bool, fecPressure: real, starved: bool,
    canDemote: bool, ts: int, probeVeto: bool, probeRelease: bool)

  function Boot(cfg: SelectorConfig): Sel {
    Sel(if 1 > cfg.maxMcs then cfg.maxMcs else 1, -1_000_000_000, 0, Table(map[], map[], map[], map[]), [],
        None, 0, Memory(map[], map[]), Note(NoRelease, false, None, None, Stay))
  }

  // ---- helpers -----------------------------------------------------------------------

  predicate Emergency(cfg: SelectorConfig, x: Inputs) {
    x.lossDemote || x.fecPressure >= cfg.emergencyFec || x.starved
  }

  function Min(a: int, b: int): int { if b < a then b else a }

  // The window a charge at this level suppresses the rung for.
  function BackoffMs(cfg: SelectorConfig, level: nat): int
    requires level >= 1
  {
    Min(Trunc(cfg.flapBaseMs as real * Pow(cfg.flapMult, Min(level - 1, 40))), cfg.flapCapMs)
  }

  // Stored level, one forgiven per quiet decay period.
  function EffectiveLevel(cfg: SelectorConfig, t: Table, rung: nat, ts: int): nat {
    var lvl := if rung in t.level then t.level[rung] else 0;
    if lvl != 0 && rung in t.last && cfg.flapDecayMs > 0 then
      var left := lvl - DivTowardZero(ts - t.last[rung], cfg.flapDecayMs);
      if left < 0 then 0 else left
    else lvl
  }

  function Charged(cfg: SelectorConfig, t: Table, rung: nat, snr: Option<real>, ts: int): Table {
    var lvl := EffectiveLevel(cfg, t, rung, ts) + 1;
    Table(t.level[rung := lvl], t.until[rung := ts + BackoffMs(cfg, lvl)],
          if snr.Some? then t.snr[rung := snr.value] else t.snr, t.last[rung := ts])
  }

  datatype Verdict = Verdict(suppressed: bool, release: Release)

  // Is the damper window of a rung live, and if not, what opened it?
  function Damper(cfg: SelectorConfig, t: Table, recent: seq<real>, rung: nat, ts: int, probeRelease: bool): Verdict {
    var until := if rung in t.until then t.until[rung] else 0;
    if ts >= until then Verdict(false, if until != 0 then Timer else NoRelease)
    else if probeRelease then Verdict(false, Probe)
    else if rung in t.snr && |recent| == RELEASE_WINDOW && forall v | v in recent :: v >= t.snr[rung] + cfg.flapReleaseDb
    then Verdict(false, RawMin)
    else Verdict(true, NoRelease)
  }

  predicate OnTrial(s: Sel, ts: int) {
    s.trial == Some(s.current) && ts < s.trialUntil
  }

  function Classify(cfg: SelectorConfig, s: Sel, x: Inputs): FailClass {
    if x.snr.Some? && x.snrW.Some? && x.snrW.value <= x.snr.value - cfg.collapseDb then Fade
    else if OnTrial(s, x.ts) then Flap
    else Burst
  }

  predicate Eligible(cfg: SelectorConfig, m: Memory, snr: real, ts: int, r: nat)
    requires m.Valid()
  {
    r in m.until && m.until[r] >= ts && r <= cfg.maxMcs && snr >= m.snr[r] - cfg.recoverMarginDb
  }

  // The highest recently confirmed rung, at or below r, whose SNR is nearly back.
  function SnapTarget(cfg: SelectorConfig, m: Memory, snr: real, ts: int, r: nat): (t: Option<nat>)
    requires m.Valid()
    ensures t.Some? ==> t.value <= r && Eligible(cfg, m, snr, ts, t.value)
    ensures forall q :: (if t.Some? then t.value < q else 0 <= q) && q <= r ==> !Eligible(cfg, m, snr, ts, q)
  {
    if Eligible(cfg, m, snr, ts, r) then Some(r)
    else if r == 0 then None
    else SnapTarget(cfg, m, snr, ts, r - 1)
  }

  // ---- one call ---------------------------------------------------------------------------

  function Windowed(recent: seq<real>, w: Option<real>): seq<real> {
    if w.None? then recent
    else if |recent| < RELEASE_WINDOW then recent + [w.value]
    else recent[1..] + [w.value]
  }

  function Entered(s: Sel, x: Inputs): Sel {
    s.(recent := Windowed(s.recent, x.snrW), note := Note(NoRelease, s.note.suppressed, None, None, Stay))
  }

  function FailOf(rung: nat, x: Inputs, klass: FailClass): Option<Fail> {
    if klass == Fade && x.snrW.Some? then Some(Fail(rung, Fade, x.snrW.value))
    else if klass == Flap && x.snr.Some? then Some(Fail(rung, Flap, x.snr.value))
    else None
  }

  // What a reactive demote reports.
  function DemoteNote(cfg: SelectorConfig, s: Sel, x: Inputs): Note {
    if !x.lossDemote then s.note.(why := EmergencyDemote)
    else
      var klass := Classify(cfg, s, x);
      s.note.(why := LossDemote(klass), lastFail := FailOf(s.current, x, klass))
  }

  // A demote on loss during probation charges the damper.
  predicate Charges(s: Sel, x: Inputs) {
    x.lossDemote && OnTrial(s, x.ts)
  }

  predicate StepsDown(s: Sel, x: Inputs) {
    x.canDemote && s.current > 0
  }

  // A dirty call: one rung down if allowed, and the dwell starts over either way.
  function Dirty(cfg: SelectorConfig, s: Sel, x: Inputs): Sel {
    if !StepsDown(s, x) then s.(cleanDwell := 0)
    else s.(current := s.current - 1, lastChange := x.ts, cleanDwell := 0, trial := None,
            note := DemoteNote(cfg, s, x),
            flaps := if Charges(s, x) then Charged(cfg, s.flaps, s.current, x.snr, x.ts) else s.flaps)
  }

  function Cleared(cfg: SelectorConfig, t: Table, dwell: nat, cur: nat): Table {
    if dwell >= cfg.flapResetTicks then Table(t.level - {cur}, t.until - {cur}, t.snr - {cur}, t.last - {cur}) else t
  }

  predicate Confirms(cfg: SelectorConfig, dwell: nat, x: Inputs) {
    dwell >= cfg.promoteDwell && x.snr.Some?
  }

  // High-water confirmation: while it is live the bar only rises.
  function Confirmed(cfg: SelectorConfig, m: Memory, dwell: nat, cur: nat, x: Inputs): Memory {
    if !Confirms(cfg, dwell, x) then m
    else
      var live := (if cur in m.until then m.until[cur] else 0) >= x.ts;
      var bar := if live && cur in m.snr && m.snr[cur] > x.snr.value then m.snr[cur] else x.snr.value;
      Memory(m.until[cur := x.ts + cfg.confirmTtlMs], m.snr[cur := bar])
  }

  // A clean call before any promote: dwell, damper clear, confirmation, probation.
  function Bookkept(cfg: SelectorConfig, s: Sel, x: Inputs): Sel {
    var dwell := s.cleanDwell + 1;
    s.(cleanDwell := dwell,
       flaps := Cleared(cfg, s.flaps, dwell, s.current),
       memory := Confirmed(cfg, s.memory, dwell, s.current, x),
       trial := if s.trial.Some? && x.ts >= s.trialUntil then None else s.trial)
  }

  function Slope(x: Inputs): real { if x.slope.None? then 0.0 else x.slope.value }

  // Which route, if any, raises the rung.
  function Route(cfg: SelectorConfig, cur: nat, lastChange: int, dwell: nat, x: Inputs, sb: Option<nat>): Why {
    if sb.Some? && sb.value > cur && Slope(x) >= 0.0 && !x.targetBlocked then SnapBack
    else if x.ts - lastChange >= cfg.holdMs && dwell >= cfg.promoteDwell && Slope(x) >= cfg.promoteSlopeMin then
      if x.targetConfident then (if x.targetBlocked then Stay else KneePromote) else Explore
    else Stay
  }

  predicate MayClimb(cfg: SelectorConfig, s: Sel, x: Inputs, v: Verdict) {
    x.ts - s.lastChange >= cfg.minBetweenMs && !v.suppressed && !x.probeVeto
  }

  function Climb(cfg: SelectorConfig, s: Sel, x: Inputs): Sel
    requires s.memory.Valid()
  {
    if x.snr.None? || s.current + 1 > cfg.maxMcs then s.(note := s.note.(suppressed := false))
    else
      var v := Damper(cfg, s.flaps, s.recent, s.current + 1, x.ts, x.probeRelease);
      var seen := s.note.(suppressed := v.suppressed, release := v.release);
      if !MayClimb(cfg, s, x, v) then s.(note := seen)
      else
        var sb := SnapTarget(cfg, s.memory, x.snr.value, x.ts, cfg.maxMcs);
        var why := Route(cfg, s.current, s.lastChange, s.cleanDwell, x, sb);
        if why == Stay then s.(note := seen.(snapTgt := sb))
        else s.(current := s.current + 1, lastChange := x.ts, cleanDwell := 0, note := seen.(snapTgt := sb, why := why),
                trial := Some(s.current + 1), trialUntil := x.ts + cfg.trialWindowMs)
  }

  function Select(cfg: SelectorConfig, s: Sel, x: Inputs): Sel
    requires s.Valid(cfg)
  {
    var e := Entered(s, x);
    if Emergency(cfg, x) then Dirty(cfg, e, x) else Climb(cfg, Bookkept(cfg, e, x), x)
  }

  function ClampRung(cfg: SelectorConfig, tgt: int): nat {
    if tgt < 0 then 0 else if tgt < cfg.maxMcs then tgt else cfg.maxMcs
  }

  // A demote decided outside the selector, with the same bookkeeping.
  function Lowered(cfg: SelectorConfig, s: Sel, tgt: int, ts: int): Sel {
    if ClampRung(cfg, tgt) == s.current then s
    else s.(current := ClampRung(cfg, tgt), lastChange := ts, cleanDwell := 0, trial := None)
  }

  // ---- the imperative selector ---------------------------------------------------------------

  /** The flap damper's and the snap-back memory's dictionaries are kept together as
      tables, the per-call reports as a note. */
  class LeadingSelector {
    const cfg: SelectorConfig
    var current: nat
    var lastChange: int
    var cleanDwell: nat
    var flaps: Table
    var recent: seq<real>
    var trial: Option<nat>
    var trialUntil: int
    var memory: Memory
    var note: Note

    function View(): Sel reads this {
      Sel(current, lastChange, cleanDwell, flaps, recent, trial, trialUntil, memory, note)
    }

    constructor (cfg: SelectorConfig)
      ensures this.cfg == cfg && View() == Boot(cfg)
    {
      this.cfg := cfg;
      current := if 1 > cfg.maxMcs then cfg.maxMcs else 1;
      lastChange, cleanDwell := -1_000_000_000, 0;
      flaps := Table(map[], map[], map[], map[]);
      recent, trial, trialUntil := [], None, 0;
      memory := Memory(map[], map[]);
      note := Note(NoRelease, false, None, None, Stay);
    }

    method ChargeFlap(rung: nat, snr: Option<real>, ts: int)
      modifies this`flaps
      ensures flaps == Charged(cfg, old(flaps), rung, snr, ts)
    {
      var lvl := EffectiveLevel(cfg, flaps, rung, ts) + 1;
      var backoff := BackoffMs(cfg, lvl);
      flaps := flaps.(level := flaps.level[rung := lvl]);
      flaps := flaps.(last := flaps.last[rung := ts]);
      flaps := flaps.(until := flaps.until[rung := ts + backoff]);
      if snr.Some? {
        flaps := flaps.(snr := flaps.snr[rung := snr.value]);
      }
    }

    method Suppressed(rung: nat, ts: int, probeRelease: bool) returns (b: bool)
      requires note.release == NoRelease
      modifies this`note
      ensures note == old(note).(release := note.release)
      ensures Verdict(b, note.release) == Damper(cfg, flaps, recent, rung, ts, probeRelease)
    {
      var until := if rung in flaps.until then flaps.until[rung] else 0;
      if ts >= until {
        if until != 0 {
          note := note.(release := Timer);
        }
        return false;
      }
      if probeRelease {
        note := note.(release := Probe);
        return false;
      }
      if rung in flaps.snr && |recent| == RELEASE_WINDOW {
        if forall v | v in recent :: v >= flaps.snr[rung] + cfg.flapReleaseDb {
          note := note.(release := RawMin);
          return false;
        }
      }
      return true;
    }

    // Walks the confirmation table in whatever order it is stored.
    method SnapbackTarget(snr: real, ts: int) returns (best: Option<nat>)
      requires memory.Valid()
      ensures best == SnapTarget(cfg, memory, snr, ts, cfg.maxMcs)
    {
      best := None;
      var rest := memory.until.Keys;
      while rest != {}
        invariant rest <= memory.until.Keys
        invariant best.Some? ==> Eligible(cfg, memory, snr, ts, best.value)
        invariant forall q :: q in memory.until.Keys - rest && Eligible(cfg, memory, snr, ts, q) ==> best.Some? && q <= best.value
        decreases rest
      {
        var r :| r in rest;
        rest := rest - {r};
        if memory.until[r] < ts || r > cfg.maxMcs {
        } else if snr >= memory.snr[r] - cfg.recoverMarginDb {
          if best.None? || r > best.value {
            best := Some(r);
          }
        }
      }
      ghost var t := SnapTarget(cfg, memory, snr, ts, cfg.maxMcs);
      if best.Some? {
        assert t.Some? && t.value >= best.value;
      }
      if t.Some? {
        assert Eligible(cfg, memory, snr, ts, t.value);
      }
    }

    method ExternalDemote(tgt: int, ts: int)
      modifies this
      ensures View() == Lowered(cfg, old(View()), tgt, ts)
    {
      var t := if tgt < cfg.maxMcs then tgt else cfg.maxMcs;
      if t < 0 {
        t := 0;
      }
      if t == current {
        return;
      }
      current := t;
      lastChange := ts;
      cleanDwell := 0;
      trial := None;
    }

    method Commit(tgt: int, ts: int, reason: Why)
      modifies this`current, this`lastChange, this`cleanDwell, this`note
      ensures if ClampRung(cfg, tgt) == old(current)
        then current == old(current) && lastChange == old(lastChange) && cleanDwell == old(cleanDwell) && note == old(note)
        else current == ClampRung(cfg, tgt) && lastChange == ts && cleanDwell == 0 && note == old(note).(why := reason)
    {
      var t := if tgt < cfg.maxMcs then tgt else cfg.maxMcs;
      if t < 0 {
        t := 0;
      }
      if t != current {
        current := t;
        lastChange := ts;
        cleanDwell := 0;
        note := note.(why := reason);
      }
    }

    method Choose(x: Inputs) returns (mcs: nat, changed: bool)
      requires View().Valid(cfg)
      modifies this
      ensures View() == Select(cfg, old(View()), x)
      ensures mcs == current && changed == (current != old(current))
    {
      hide Dirty, Climb, Bookkept, Emergency, Windowed;
      var prev := current;
      note := Note(NoRelease, note.suppressed, None, None, Stay);
      if x.snrW.Some? {
        recent := Windowed(recent, x.snrW);
      }
      WindowedNone(old(recent), x.snrW);
      BookkeptKeeps(cfg, View(), x);
      if Emergency(cfg, x) {
        DemoteReactively(x);
        return current, current != prev;
      }
      CleanTick(x);
      ClimbIdle(cfg, View(), x);
      if x.snr.None? || current + 1 > cfg.maxMcs {
        note := note.(suppressed := false);
        return current, false;
      }
      TryPromote(x);
      mcs, changed := current, current != prev;
    }

    method DemoteReactively(x: Inputs)
      requires View().Valid(cfg) && note.why == Stay && note.lastFail == None
      modifies this
      ensures View() == Dirty(cfg, old(View()), x)
    {
      hide Charged, Classify, OnTrial;
      var prev := current;
      if x.canDemote {
        if x.lossDemote {
          DemoteOnLoss(x);
        } else {
          Commit(prev as int - 1, x.ts, EmergencyDemote);
        }
      }
      if current != prev {
        trial := None;
      }
      cleanDwell := 0;
    }

    method DemoteOnLoss(x: Inputs)
      requires View().Valid(cfg) && note.why == Stay && note.lastFail == None && x.lossDemote
      modifies this`current, this`lastChange, this`cleanDwell, this`note, this`flaps
      ensures if old(current) == 0
        then current == 0 && lastChange == old(lastChange) && note == old(note) && flaps == old(flaps)
        else && current == old(current) - 1 && lastChange == x.ts
             && note == DemoteNote(cfg, old(View()), x)
             && flaps == if OnTrial(old(View()), x.ts) then Charged(cfg, old(flaps), old(current), x.snr, x.ts) else old(flaps)
    {
      hide Charged, Classify;
      var prev := current;
      var onTrial := trial == Some(prev) && x.ts < trialUntil;
      var klass := Classify(cfg, View(), x);
      Commit(prev as int - 1, x.ts, LossDemote(klass));
      if current != prev {
        if klass == Fade && x.snrW.Some? {
          note := note.(lastFail := Some(Fail(prev, Fade, x.snrW.value)));
        } else if klass == Flap && x.snr.Some? {
          note := note.(lastFail := Some(Fail(prev, Flap, x.snr.value)));
        }
        if onTrial {
          ChargeFlap(prev, x.snr, x.ts);
        }
      }
    }

    method CleanTick(x: Inputs)
      modifies this`cleanDwell, this`flaps, this`memory, this`trial
      ensures View() == Bookkept(cfg, old(View()), x)
    {
      hide Cleared, Confirmed;
      cleanDwell := cleanDwell + 1;
      ClearDamper();
      Confirm(x);
      if trial.Some? && x.ts >= trialUntil {
        trial := None;
      }
    }

    method ClearDamper()
      modifies this`flaps
      ensures flaps == Cleared(cfg, old(flaps), cleanDwell, current)
    {
      if cleanDwell >= cfg.flapResetTicks {
        flaps := flaps.(level := flaps.level - {current});
        flaps := flaps.(until := flaps.until - {current});
        flaps := flaps.(snr := flaps.snr - {current});
        flaps := flaps.(last := flaps.last - {current});
      }
    }

    method Confirm(x: Inputs)
      modifies this`memory
      ensures memory == Confirmed(cfg, old(memory), cleanDwell, current, x)
    {
      if cleanDwell >= cfg.promoteDwell && x.snr.Some? {
        var live := (if current in memory.until then memory.until[current] else 0) >= x.ts;
        memory := memory.(until := memory.until[current := x.ts + cfg.confirmTtlMs]);
        if live && current in memory.snr && memory.snr[current] > x.snr.value {
          memory := memory.(snr := memory.snr[current := memory.snr[current]]);
        } else {
          memory := memory.(snr := memory.snr[current := x.snr.value]);
        }
      }
    }

    method TryPromote(x: Inputs)
      requires x.snr.Some? && current + 1 <= cfg.maxMcs && memory.Valid()
      requires note.release == NoRelease && note.why == Stay && note.snapTgt == None
      modifies this
      ensures View() == Climb(cfg, old(View()), x)
    {
      hide Damper, SnapTarget, Route;
      var prev := current;
      var target := current + 1;
      var closed := Suppressed(target, x.ts, x.probeRelease);
      note := note.(suppressed := closed);
      var withinRate := x.ts - lastChange < cfg.minBetweenMs;
      if !withinRate && !closed && !x.probeVeto {
        var sb := SnapbackTarget(x.snr.value, x.ts);
        note := note.(snapTgt := sb);
        TakeRoute(x, target, sb);
      }
      if current > prev {
        trial := Some(current);
        trialUntil := x.ts + cfg.trialWindowMs;
      }
    }

    method TakeRoute(x: Inputs, target: nat, sb: Option<nat>)
      requires target == current + 1 <= cfg.maxMcs
      modifies this`current, this`lastChange, this`cleanDwell, this`note
      ensures var why := Route(cfg, old(current), old(lastChange), old(cleanDwell), x, sb);
        if why == Stay
        then current == old(current) && lastChange == old(lastChange) && cleanDwell == old(cleanDwell) && note == old(note)
        else current == target && lastChange == x.ts && cleanDwell == 0 && note == old(note).(why := why)
    {
      var withinHold := x.ts - lastChange < cfg.holdMs;
      var slope := if x.slope.None? then 0.0 else x.slope.value;
      if sb.Some? && sb.value > current && slope >= 0.0 && !x.targetBlocked {
        Commit(target, x.ts, SnapBack);
      } else if !withinHold && cleanDwell >= cfg.promoteDwell && slope >= cfg.promoteSlopeMin {
        if x.targetConfident && !x.targetBlocked {
          Commit(target, x.ts, KneePromote);
        } else if !x.targetConfident {
          Commit(target, x.ts, Explore);
        }
      }
    }
  }

  lemma WindowedNone(recent: seq<real>, w: Option<real>)
    ensures w.None? ==> Windowed(recent, w) == recent
  {
  }

  lemma BookkeptKeeps(cfg: SelectorConfig, s: Sel, x: Inputs)
    requires s.Valid(cfg)
    ensures var t := Bookkept(cfg, s, x);
      t.Valid(cfg) && t == s.(cleanDwell := s.cleanDwell + 1, flaps := t.flaps, memory := t.memory, trial := t.trial)
  {
  }

  lemma ClimbIdle(cfg: SelectorConfig, s: Sel, x: Inputs)
    requires s.memory.Valid()
    ensures x.snr.None? || s.current + 1 > cfg.maxMcs ==> Climb(cfg, s, x) == s.(note := s.note.(suppressed := false))
  {
  }
}
