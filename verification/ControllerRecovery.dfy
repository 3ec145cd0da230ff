/** The watchdog over whole runs: when it trips, and how a restarted ground station
    gets back in. */
module ControllerRecovery {
  import opened Common
  import opened Wire
  import opened Rate
  import opened Backends
  import opened Controller
  import opened ControllerSafety
  import Watchdog
  import Channel

  // ---- what a step does to the watchdog ---------------------------------------------------

  /** Only an accepted decision feeds the watchdog; bad packets, duplicates and stale
      sequence numbers do not. */
  lemma WatchdogStep(w: World, e: Event)
    requires w.ctl.Valid()
    ensures var wd, wd' := w.ctl.wd, Step(true, w, e).ctl.wd;
      if Accepts(w, e) then wd' == Watchdog.State(e.nowMs, wd.timeoutMs, true, false)
      else if Trips(w, e) then wd' == wd.(tripped := true)
      else wd' == wd.(timeoutMs := if e.Reload? then e.cfg.healthTimeoutMs else wd.timeoutMs)
    ensures Step(true, w, e).ctl.cfg == if e.Reload? then e.cfg else w.ctl.cfg
  {
    hide Channel.Front, ApplyDecision, DispatchSafe, DispatchTx, EncStep, Failsafe, Derive, RoiQp, Config.Valid, Device.Send, Device.SendIf;
    match e
    case Datagram(bytes, now) =>
      if Accepts(w, e) {
        var f := Channel.Front(w.ctl.dedup, bytes);
        ApplyValid(true, World(w.ctl.(dedup := f.state), w.dev), Derive(w.ctl.cfg, f.got.d));
      }
    case Tick(now) =>
      SafeFrame(true, World(w.ctl.(phase := Idle, wd := w.ctl.wd.(tripped := true)), w.dev));
    case Gap =>
      DispatchFrame(true, w, w.ctl.pending);
      EncFrame(w, w.ctl.pending);
    case Reload(_) =>
  }

  lemma EncFrame(w: World, d: Decision)
    requires w.ctl.Valid()
    ensures var c := EncStep(true, w, d).ctl; c == w.ctl.(enc := c.enc, lastEnc := d)
  {
  }

  /** The timeout in force is always that of the configuration in force. */
  lemma {:induction false} TimeoutFollows(w: World, es: seq<Event>)
    requires Boot(w) && ValidRun(es)
    ensures Run(true, w, es).ctl.wd.timeoutMs == Run(true, w, es).ctl.cfg.healthTimeoutMs
  {
    hide Step, Config.Valid, Accepts, Trips;
    if es != [] {
      TimeoutFollows(w, es[..|es| - 1]);
      var r, e := Run(true, w, es[..|es| - 1]), es[|es| - 1];
      WatchdogStep(r, e);
      KindsApart(r, e);
    }
  }

  // ---- trips in a run ------------------------------------------------------------------------

  ghost predicate AcceptsAt(w: World, es: seq<Event>, i: nat)
    requires w.ctl.Valid() && ValidRun(es) && i < |es|
  {
    Accepts(Run(true, w, es[..i]), es[i])
  }

  ghost predicate TripsAt(w: World, es: seq<Event>, i: nat)
    requires w.ctl.Valid() && ValidRun(es) && i < |es|
  {
    Trips(Run(true, w, es[..i]), es[i])
  }

  // Event j was accepted and nothing has tripped since, up to event n.
  ghost predicate LiveSince(w: World, es: seq<Event>, j: nat, n: nat)
    requires w.ctl.Valid() && ValidRun(es) && j < n <= |es|
  {
    AcceptsAt(w, es, j) && forall k :: j < k < n ==> !TripsAt(w, es, k)
  }

  lemma PrefixAt(w: World, es: seq<Event>, n: nat, i: nat)
    requires w.ctl.Valid() && ValidRun(es) && i < n <= |es|
    ensures AcceptsAt(w, es[..n], i) == AcceptsAt(w, es, i)
    ensures TripsAt(w, es[..n], i) == TripsAt(w, es, i)
  {
    hide Run, Accepts, Trips, Config.Valid;
    assert es[..n][..i] == es[..i];
  }

  lemma LivePrefix(w: World, es: seq<Event>, j: nat, n: nat)
    requires w.ctl.Valid() && ValidRun(es) && j < n <= |es|
    ensures LiveSince(w, es[..n], j, n) == LiveSince(w, es, j, n)
  {
    hide AcceptsAt, TripsAt, Config.Valid;
    forall k | 0 <= k < n
      ensures AcceptsAt(w, es[..n], k) == AcceptsAt(w, es, k) && TripsAt(w, es[..n], k) == TripsAt(w, es, k)
    {
      PrefixAt(w, es, n, k);
    }
  }

  // An armed watchdog remembers an accepted decision with no trip after it.
  lemma {:induction false} ArmedMeansLive(w: World, es: seq<Event>)
    requires Boot(w) && ValidRun(es)
    requires var wd := Run(true, w, es).ctl.wd; wd.everSeen && !wd.tripped
    ensures exists j :: 0 <= j < |es| && LiveSince(w, es, j, |es|)
  {
    hide Step, Accepts, Trips, Config.Valid, LiveSince;
    if es != [] {
      var n := |es| - 1;
      var front := es[..n];
      var r := Run(true, w, front);
      WatchdogStep(r, es[n]);
      if Accepts(r, es[n]) {
        LiveNow(w, es);
      } else {
        TripFlag(r, es[n]);
        ArmedMeansLive(w, front);
        var j :| 0 <= j < n && LiveSince(w, front, j, n);
        LivePrefix(w, es, j, n);
        LastTrip(w, es);
        LiveLonger(w, es, j);
      }
    }
  }

  lemma TripFlag(w: World, e: Event)
    ensures Trips(w, e) ==> w.ctl.wd.everSeen && !w.ctl.wd.tripped
  {
  }

  lemma LiveNow(w: World, es: seq<Event>)
    requires w.ctl.Valid() && ValidRun(es) && es != []
    requires Accepts(Run(true, w, es[..|es| - 1]), es[|es| - 1])
    ensures LiveSince(w, es, |es| - 1, |es|)
  {
    hide Run, Accepts, Trips, Config.Valid;
  }

  lemma LiveLonger(w: World, es: seq<Event>, j: nat)
    requires w.ctl.Valid() && ValidRun(es) && j < |es| - 1
    requires LiveSince(w, es, j, |es| - 1) && !TripsAt(w, es, |es| - 1)
    ensures LiveSince(w, es, j, |es|)
  {
    hide AcceptsAt, TripsAt, Ctl.Valid;
    forall k | j < k < |es| ensures !TripsAt(w, es, k) {
      assert k == |es| - 1 || k < |es| - 1;
    }
  }

  lemma LastTrip(w: World, es: seq<Event>)
    requires w.ctl.Valid() && ValidRun(es) && es != []
    ensures TripsAt(w, es, |es| - 1) == Trips(Run(true, w, es[..|es| - 1]), es[|es| - 1])
  {
    hide Run, Trips, Config.Valid;
  }

  /** No trip comes before a first accepted decision, and between two trips there is
      always an accepted decision. */
  lemma TripFollowsDecision(w: World, es: seq<Event>, i: nat)
    requires Boot(w) && ValidRun(es) && i < |es| && TripsAt(w, es, i)
    ensures exists j :: 0 <= j < i && LiveSince(w, es, j, i)
  {
    hide Run, Accepts, Config.Valid, LiveSince;
    ArmedMeansLive(w, es[..i]);
    var j :| 0 <= j < i && LiveSince(w, es[..i], j, i);
    LivePrefix(w, es, j, i);
  }

  // What each event of a run did, as an observer would log it.
  datatype Mark = Mark(accepted: bool, tripped: bool, at: nat)

  function MarkOf(w: World, e: Event): Mark {
    Mark(Accepts(w, e), Trips(w, e), match e case Datagram(_, t) => t case Tick(t) => t case _ => 0)
  }

  function Log(w: World, es: seq<Event>): seq<Mark>
    requires w.ctl.Valid() && forall i :: 0 <= i < |es| ==> ValidEvent(es[i])
  {
    if es == [] then []
    else Log(w, es[..|es| - 1]) + [MarkOf(Run(true, w, es[..|es| - 1]), es[|es| - 1])]
  }

  // Entry j is the last accepted decision.
  predicate LastAccepted(log: seq<Mark>, j: int) {
    0 <= j < |log| && log[j].accepted && forall k :: j < k < |log| ==> !log[k].accepted
  }

  predicate TrippedSince(log: seq<Mark>, j: int) {
    exists k :: 0 <= k < |log| && j < k && log[k].tripped
  }

  // The watchdog holds the time of the last accepted decision and whether it tripped since.
  ghost predicate ClockIs(log: seq<Mark>, wd: Watchdog.State) {
    && (wd.everSeen <==> exists j :: LastAccepted(log, j))
    && forall j :: LastAccepted(log, j) ==> wd.lastDecisionMs == log[j].at && (wd.tripped <==> TrippedSince(log, j))
  }

  lemma ClockStep(log: seq<Mark>, m: Mark, wd: Watchdog.State, wd': Watchdog.State)
    requires ClockIs(log, wd)
    requires if m.accepted then wd'.everSeen && !wd'.tripped && wd'.lastDecisionMs == m.at
      else && wd'.everSeen == wd.everSeen && wd'.lastDecisionMs == wd.lastDecisionMs && wd'.tripped == (wd.tripped || m.tripped)
    ensures ClockIs(log + [m], wd')
  {
    var log' := log + [m];
    if m.accepted {
      assert LastAccepted(log', |log|);
      assert !TrippedSince(log', |log|);
    } else {
      forall j | 0 <= j < |log|
        ensures LastAccepted(log', j) == LastAccepted(log, j) && TrippedSince(log', j) == (TrippedSince(log, j) || m.tripped)
      {
        assert log'[|log|] == m;
        if TrippedSince(log, j) {
          var k :| 0 <= k < |log| && j < k && log[k].tripped;
          assert log'[k].tripped;
        }
        if LastAccepted(log, j) {
          assert forall k :: j < k < |log'| ==> log'[k] == if k < |log| then log[k] else m;
        }
        if LastAccepted(log', j) {
          assert forall k :: 0 <= k < |log| ==> log[k] == log'[k];
        }
      }
      if exists j :: LastAccepted(log, j) {
        var j :| LastAccepted(log, j);
        assert LastAccepted(log', j);
      }
    }
  }

  lemma {:induction false} ClockTrue(w: World, es: seq<Event>)
    requires Boot(w) && ValidRun(es)
    ensures ClockIs(Log(w, es), Run(true, w, es).ctl.wd)
  {
    hide Step, Accepts, Trips, Config.Valid, ClockIs;
    if es == [] {
      ClockStarts(w.ctl.wd);
    } else {
      var n := |es| - 1;
      ClockTrue(w, es[..n]);
      var r := Run(true, w, es[..n]);
      WatchdogStep(r, es[n]);
      KindsApart(r, es[n]);
      ClockStep(Log(w, es[..n]), MarkOf(r, es[n]), r.ctl.wd, Run(true, w, es).ctl.wd);
    }
  }

  lemma ClockStarts(wd: Watchdog.State)
    requires !wd.everSeen
    ensures ClockIs([], wd)
  {
  }

  /** Exactly when an event trips: a tick at or past the configured timeout after the last
      accepted decision, nothing having tripped since. */
  lemma TripsExactly(w: World, es: seq<Event>, e: Event)
    requires Boot(w) && ValidRun(es)
    ensures var r, log := Run(true, w, es), Log(w, es);
      Trips(r, e) <==>
        e.Tick? && exists j :: LastAccepted(log, j) && !TrippedSince(log, j) && e.nowMs >= log[j].at + r.ctl.cfg.healthTimeoutMs
  {
    hide Run, Log, Accepts, Config.Valid, TrippedSince;
    ClockTrue(w, es);
    TimeoutFollows(w, es);
    var r, log := Run(true, w, es), Log(w, es);
    if Trips(r, e) {
      var j :| LastAccepted(log, j);
      assert !TrippedSince(log, j);
    }
  }

  // ---- recovery --------------------------------------------------------------------------------

  // A tripped controller takes the next valid packet whatever its number, and has
  // forgotten everything that could hold back a write.
  predicate Amnesia(w: World) {
    w.ctl.wd.tripped ==> !w.ctl.dedup.ever && Forgotten(w.ctl)
  }

  predicate Forgotten(c: Ctl) {
    && c.phase == Idle && !Baseline(c.lastTx) && !Baseline(c.lastEnc)
    && c.tx.current == None && !c.tx.auto && c.enc.lastFps == 0
  }

  lemma AmnesiaStep(w: World, e: Event)
    requires w.ctl.Valid() && ValidEvent(e) && Amnesia(w)
    ensures Amnesia(Step(true, w, e))
  {
    hide Channel.Front, ApplyDecision, DispatchSafe, DispatchTx, EncStep, Failsafe, Derive, RoiQp, Config.Valid, Device.Send, Device.SendIf;
    WatchdogStep(w, e);
    match e
    case Datagram(_, _) =>
    case Tick(now) =>
      SafeFrame(true, World(w.ctl.(phase := Idle, wd := w.ctl.wd.(tripped := true)), w.dev));
    case Gap =>
    case Reload(_) =>
  }

  lemma {:induction false} RunAmnesia(w: World, es: seq<Event>)
    requires Boot(w) && ValidRun(es)
    ensures Amnesia(Run(true, w, es))
  {
    hide Step, Config.Valid;
    if es != [] {
      RunAmnesia(w, es[..|es| - 1]);
      AmnesiaStep(Run(true, w, es[..|es| - 1]), es[|es| - 1]);
    } else {
      assert !w.ctl.wd.tripped;
    }
  }

  // No event from n on is accepted.
  ghost predicate Silent(w: World, es: seq<Event>, n: nat)
    requires w.ctl.Valid() && ValidRun(es)
  {
    forall i :: n <= i < |es| ==> !AcceptsAt(w, es, i)
  }

  // Silence leaves the reference point of the timeout where it was.
  lemma {:induction false} SilenceKeepsClock(w: World, es: seq<Event>, n: nat)
    requires w.ctl.Valid() && ValidRun(es) && n <= |es| && Silent(w, es, n)
    ensures var a, b := Run(true, w, es[..n]).ctl.wd, Run(true, w, es).ctl.wd;
      b.lastDecisionMs == a.lastDecisionMs && b.everSeen == a.everSeen
  {
    hide Step, Accepts, Trips, Config.Valid;
    if n < |es| {
      var m := |es| - 1;
      forall i | n <= i < m ensures !AcceptsAt(w, es[..m], i) {
        PrefixAt(w, es, m, i);
        assert !AcceptsAt(w, es, i);
      }
      SilenceKeepsClock(w, es[..m], n);
      assert es[..m][..n] == es[..n];
      WatchdogStep(Run(true, w, es[..m]), es[m]);
      assert !AcceptsAt(w, es, m);
    } else {
      assert es[..n] == es;
    }
  }

  // Everything a decision needs, in order.
  function FullEmission(c: Ctl, d: Decision): seq<Write>
    requires c.Valid()
  {
    var r := ReconcileProbe(c);
    [SetFec(d.k, d.n), SetRadio(Phy(c.cfg.stbc, c.cfg.ldpc, d.bandwidth, d.mcs))]
      + (if ProbeSends(true, r, d) then [SetProbe(ProbePhy(c.cfg, d))] else [])
      + [SetTxPower(c.tx.iface, if c.cfg.txPowerControl then Fixed(d.txPowerDbm) else Auto), Tuned(d),
         EncSettings(c.enc, d.bitrateKbps, d.fps)]
  }

  lemma TrippedAccepts(w: World, bytes: seq<Byte>, nowMs: nat)
    requires w.ctl.wd.tripped && Amnesia(w) && Verdict(bytes) == Ok
    ensures Accepts(w, Datagram(bytes, nowMs))
  {
    hide CrcWord, GetBytes, Decoded;
  }

  lemma SendLogs(dev: Device, go: bool, x: Write)
    ensures dev.SendIf(go, x).log == dev.log + if go then [x] else []
    ensures dev.Send(x).log == dev.log + [x]
  {
  }

  lemma TrippedEmits(w: World, d: Decision)
    requires w.ctl.Valid() && Forgotten(w.ctl) && d.bitrateKbps > 0 && d.fps > 0
    ensures ApplyDecision(true, w, d).dev.log == w.dev.log + FullEmission(w.ctl, d)
  {
    var w0 := World(w.ctl.(phase := Idle), w.dev);
    TrippedDispatch(w0, d);
    DispatchFrame(true, w0, d);
    hide RoiQp, Config.Valid, LocalCompute, DispatchTx, Device.Send;
    var w1 := DispatchTx(true, w0, d);
    SendLogs(w1.dev, true, EncSettings(w1.ctl.enc, d.bitrateKbps, d.fps));
  }

  lemma TrippedDispatch(w: World, d: Decision)
    requires Forgotten(w.ctl)
    ensures var r := ReconcileProbe(w.ctl);
      DispatchTx(true, w, d).dev.log == w.dev.log
        + [SetFec(d.k, d.n), SetRadio(Phy(w.ctl.cfg.stbc, w.ctl.cfg.ldpc, d.bandwidth, d.mcs))]
        + (if ProbeSends(true, r, d) then [SetProbe(ProbePhy(w.ctl.cfg, d))] else [])
        + [SetTxPower(w.ctl.tx.iface, if w.ctl.cfg.txPowerControl then Fixed(d.txPowerDbm) else Auto), Tuned(d)]
  {
    hide Device.Send, Device.SendIf;
    var c := ReconcileProbe(w.ctl);
    var x, y := SetFec(d.k, d.n), SetRadio(Phy(c.cfg.stbc, c.cfg.ldpc, d.bandwidth, d.mcs));
    var d1 := w.dev.SendIf(true, x);
    SendLogs(w.dev, true, x);
    var d2 := d1.SendIf(true, y);
    SendLogs(d1, true, y);
    var w3 := ProbeStep(true, World(c, d2), d);
    SendLogs(d2, ProbeSends(true, c, d), SetProbe(ProbePhy(c.cfg, d)));
    var w4 := PowerStep(true, w3, d.txPowerDbm);
    SendLogs(w3.dev, true, SetTxPower(c.tx.iface, Fixed(d.txPowerDbm)));
    SendLogs(w3.dev, true, SetTxPower(c.tx.iface, Auto));
    SendLogs(w4.dev, true, Tuned(d));
  }

  /** A ground station that restarts at any sequence number is locked out no longer
      than the timeout: while its packets are dropped the clock keeps running, the
      first tick at or past the timeout leaves the controller tripped, and then any
      valid packet is accepted and re-emitted in full. */
  lemma RestartRecovered(w: World, es: seq<Event>, n: nat, tickMs: nat, bytes: seq<Byte>, nowMs: nat)
    requires Boot(w) && ValidRun(es) && n <= |es| && Silent(w, es, n)
    requires Run(true, w, es[..n]).ctl.wd.everSeen
    requires tickMs >= Run(true, w, es[..n]).ctl.wd.lastDecisionMs + Run(true, w, es).ctl.cfg.healthTimeoutMs
    requires Verdict(bytes) == Ok
    ensures var r := Step(true, Run(true, w, es), Tick(tickMs));
      && r.ctl.Valid() && r.ctl.wd.tripped
      && Accepts(r, Datagram(bytes, nowMs))
      && Step(true, r, Datagram(bytes, nowMs)).dev.log == r.dev.log + FullEmission(r.ctl, Applied(r, Datagram(bytes, nowMs)))
  {
    hide Run, Step, Accepts, Amnesia, Config.Valid, Verdict, FullEmission, Applied;
    var a := Run(true, w, es);
    SilenceKeepsClock(w, es, n);
    TimeoutFollows(w, es);
    StepValid(true, a, Tick(tickMs));
    WatchdogStep(a, Tick(tickMs));
    NoTickAccepts(a, tickMs);
    RunAmnesia(w, es);
    AmnesiaStep(a, Tick(tickMs));
    var r := Step(true, a, Tick(tickMs));
    TrippedAccepts(r, bytes, nowMs);
    TrippedDatagram(r, bytes, nowMs);
  }

  lemma NoTickAccepts(w: World, nowMs: nat)
    ensures !Accepts(w, Tick(nowMs))
  {
  }

  lemma TrippedDatagram(w: World, bytes: seq<Byte>, nowMs: nat)
    requires w.ctl.Valid() && w.ctl.wd.tripped && Amnesia(w) && Accepts(w, Datagram(bytes, nowMs))
    ensures Step(true, w, Datagram(bytes, nowMs)).dev.log
      == w.dev.log + FullEmission(w.ctl, Applied(w, Datagram(bytes, nowMs)))
  {
    hide Channel.Front, ApplyDecision, Config.Valid, LocalCompute, RoiQp;
    var f := Channel.Front(w.ctl.dedup, bytes);
    var d := Derive(w.ctl.cfg, f.got.d);
    ConfigParts(w.ctl.cfg);
    DerivedPositive(w.ctl.cfg, f.got.d.(bandwidth := ModulationWidth(w.ctl.cfg.linkWidthMhz)));
    TrippedEmits(World(w.ctl.(dedup := f.state), w.dev), d);
  }

  // ---- the first decision after a trip ---------------------------------------------------------

  // Tripped, idle and blank, with the failsafe d in both backends.
  predicate Fallback(w: World, d: Decision) {
    && Ordered(w) && w.ctl.wd.tripped && w.ctl.phase == Idle
    && !Baseline(w.ctl.lastTx) && !Baseline(w.ctl.lastEnc) && Settled(w, d)
  }

  lemma FallbackStep(w: World, e: Event, d: Decision)
    requires Fallback(w, d) && ValidEvent(e) && !Accepts(w, e)
    ensures Fallback(Step(true, w, e), d) && Step(true, w, e).dev.overrun == w.dev.overrun
  {
    hide Accepts, Ordered;
    StepKeeps(w, e);
    if e.Datagram? || e.Tick? { QuietStep(w, e); }
  }

  lemma {:induction false} FallbackHolds(w: World, quiet: seq<Event>, d: Decision)
    requires Fallback(w, d) && ValidRun(quiet) && Silent(w, quiet, 0)
    ensures Fallback(Run(true, w, quiet), d) && Run(true, w, quiet).dev.overrun == w.dev.overrun
  {
    hide Step, Accepts, Config.Valid, Fallback;
    FallbackValid(w, d);
    if quiet != [] {
      var n := |quiet| - 1;
      forall i | 0 <= i < n ensures !AcceptsAt(w, quiet[..n], i) {
        PrefixAt(w, quiet, n, i);
        assert !AcceptsAt(w, quiet, i);
      }
      FallbackHolds(w, quiet[..n], d);
      assert !AcceptsAt(w, quiet, n);
      FallbackStep(Run(true, w, quiet[..n]), quiet[n], d);
    }
  }

  lemma FallbackValid(w: World, d: Decision)
    requires Fallback(w, d)
    ensures w.ctl.Valid() && Ordered(w) && w.dev.encBitrate == d.bitrateKbps && !Stages(w.ctl)
  {
  }

  lemma TripFallsBack(w: World, e: Event)
    requires Ordered(w) && Trips(w, e)
    ensures Fallback(Step(true, w, e), Failsafe(w.ctl.cfg))
  {
    hide Failsafe, Config.Valid, Accepts;
    KindsApart(w, e);
    NoTickAccepts(w, e.nowMs);
    TripKeeps(w, e);
    WatchdogStep(w, e);
    AmnesiaStep(World(w.ctl.(wd := w.ctl.wd), w.dev), e);
  }

  function TripResult(w: World, e: Event): (r: World)
    requires Ordered(w) && Trips(w, e)
    ensures r.ctl.Valid()
  {
    TripKeeps(w, e);
    Step(true, w, e)
  }

  /** Whatever happens between a trip and the next accepted decision, that decision puts the
      encoder ahead exactly when its rate is below the failsafe rate of the trip; under the
      configuration of the trip no rung of the table is, at any width but 40. */
  lemma FirstAfterTripExactly(w: World, e: Event, quiet: seq<Event>, p: Event)
    requires Ordered(w) && Trips(w, e) && ValidRun(quiet)
    requires Silent(TripResult(w, e), quiet, 0) && Accepts(Run(true, TripResult(w, e), quiet), p)
    ensures var a, r := TripResult(w, e), Run(true, TripResult(w, e), quiet);
      && (Step(true, r, p).dev.overrun <==> a.dev.overrun || RateAt(w.ctl.cfg, FAILSAFE_MCS) > Applied(r, p).bitrateKbps)
      && (r.ctl.cfg == w.ctl.cfg && w.ctl.cfg.linkWidthMhz != 40 && Applied(r, p).mcs <= 7 ==>
            Step(true, r, p).dev.overrun == a.dev.overrun)
  {
    TripFallsBack(w, e);
    hide Step, Run, Accepts, Trips, Fallback, Ordered, Failsafe, RateAt, Config.Valid, Silent, Applied;
    var a := TripResult(w, e);
    FallbackHolds(a, quiet, Failsafe(w.ctl.cfg));
    var r := Run(true, a, quiet);
    FallbackValid(r, Failsafe(w.ctl.cfg));
    KindsApart(r, p);
    OverrunsExactly(r, p);
    FailsafeRate(w.ctl.cfg);
    AppliedRate(r, p);
    if r.ctl.cfg == w.ctl.cfg && w.ctl.cfg.linkWidthMhz != 40 && Applied(r, p).mcs <= 7 {
      ConfigParts(r.ctl.cfg);
      RateMonotone(r.ctl.cfg, FAILSAFE_MCS, Applied(r, p).mcs);
    }
  }

  lemma AppliedRate(w: World, p: Event)
    requires w.ctl.Valid() && Accepts(w, p)
    ensures w.ctl.cfg.Valid() && Applied(w, p).bitrateKbps == RateAt(w.ctl.cfg, Applied(w, p).mcs)
  {
    hide Channel.Front, RateAt, Derive;
    DerivedBaseline(w.ctl.cfg, Channel.Front(w.ctl.dedup, p.bytes).got.d);
  }
}
