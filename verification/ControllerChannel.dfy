/** The decision channel through the whole controller: what it accepts between two trips,
    whatever ticks, gap expirations and reloads come in between. */
module ControllerChannel {
  import opened Common
  import opened Wire
  import opened Backends
  import opened Controller
  import opened ControllerSafety
  import opened ControllerRecovery
  import Rate
  import Watchdog
  import Dedup
  import Channel

  // The datagrams of a run are these arrivals, in order.
  ghost predicate Carries(start: U32, mcs: seq<Byte>, es: seq<Event>, arrivals: seq<Channel.Arrival>) {
    if es == [] then arrivals == []
    else
      var front, e, n := es[..|es| - 1], es[|es| - 1], |arrivals| - 1;
      if e.Datagram? then
        && arrivals != [] && (arrivals[n].Copy? ==> arrivals[n].index < |mcs|)
        && e.bytes == Channel.Bytes(start, mcs, arrivals[n]) && Carries(start, mcs, front, arrivals[..n])
      else Carries(start, mcs, front, arrivals)
  }

  // The decisions a run accepts, as they came over the wire.
  function AcceptedIn(w: World, es: seq<Event>): seq<Decision>
    requires w.ctl.Valid() && forall i :: 0 <= i < |es| ==> ValidEvent(es[i])
  {
    if es == [] then []
    else
      var front, e := es[..|es| - 1], es[|es| - 1];
      var r := Run(true, w, front);
      AcceptedIn(w, front) + if Accepts(r, e) then [Channel.Front(r.ctl.dedup, e.bytes).got.d] else []
  }

  function Decisions(out: seq<Channel.Taken>): seq<Decision> {
    seq(|out|, i requires 0 <= i < |out| => out[i].d)
  }

  // Filters that treat every packet alike: a reset one forgets its number.
  predicate Alike(s: Dedup.State, t: Dedup.State) { s.ever == t.ever && (s.ever ==> s == t) }

  lemma AlikeFront(s: Dedup.State, t: Dedup.State, buf: seq<Byte>)
    requires Alike(s, t)
    ensures Channel.Front(s, buf).got == Channel.Front(t, buf).got
    ensures Alike(Channel.Front(s, buf).state, Channel.Front(t, buf).state)
  {
    hide Verdict, Decoded, IsDecisionKind;
  }

  // Only datagrams and trips touch the filter.
  lemma FilterStep(w: World, e: Event)
    requires w.ctl.Valid()
    ensures Step(true, w, e).ctl.dedup ==
      if e.Datagram? then Channel.Front(w.ctl.dedup, e.bytes).state
      else if Trips(w, e) then w.ctl.dedup.(ever := false)
      else w.ctl.dedup
  {
    hide Channel.Front, ApplyDecision, DispatchSafe, DispatchTx, EncStep, Failsafe, Derive, Rate.RoiQp, Rate.Config.Valid,
         Device.Send, Device.SendIf, Watchdog.Trips;
    match e
    case Datagram(bytes, now) =>
      var f := Channel.Front(w.ctl.dedup, bytes);
      if f.got.Accepted? {
        ApplyValid(true, World(w.ctl.(dedup := f.state), w.dev), Derive(w.ctl.cfg, f.got.d));
      }
    case Tick(now) => SafeFrame(true, World(w.ctl.(phase := Idle, wd := w.ctl.wd.(tripped := true)), w.dev));
    case Gap =>
      DispatchFrame(true, w, w.ctl.pending);
      EncFrame(w, w.ctl.pending);
    case Reload(_) =>
  }

  ghost predicate NoTrip(w: World, es: seq<Event>)
    requires w.ctl.Valid() && ValidRun(es)
  {
    forall i :: 0 <= i < |es| ==> !TripsAt(w, es, i)
  }

  lemma {:induction false} CarriedIndices(start: U32, mcs: seq<Byte>, es: seq<Event>, arrivals: seq<Channel.Arrival>)
    requires Carries(start, mcs, es, arrivals)
    ensures forall k :: 0 <= k < |arrivals| && arrivals[k].Copy? ==> arrivals[k].index < |mcs|
  {
    hide Channel.Bytes;
    if es != [] {
      CarriedIndices(start, mcs, es[..|es| - 1], if es[|es| - 1].Datagram? then arrivals[..|arrivals| - 1] else arrivals);
    }
  }

  // From a fresh filter, the controller takes what the bare filter takes.
  lemma {:induction false} ControllerFilters(w: World, es: seq<Event>, start: U32, mcs: seq<Byte>, arrivals: seq<Channel.Arrival>)
    requires w.ctl.Valid() && ValidRun(es) && !w.ctl.dedup.ever && NoTrip(w, es) && Carries(start, mcs, es, arrivals)
    requires forall k :: 0 <= k < |arrivals| && arrivals[k].Copy? ==> arrivals[k].index < |mcs|
    ensures var t := Channel.Through(start, mcs, arrivals);
      Alike(Run(true, w, es).ctl.dedup, t.state) && AcceptedIn(w, es) == Decisions(t.out)
  {
    hide Step, Rate.Config.Valid, Channel.Front, Channel.Bytes, Trips;
    if es != [] {
      var n := |es| - 1;
      var front, e := es[..n], es[n];
      var r := Run(true, w, front);
      forall i | 0 <= i < n ensures !TripsAt(w, front, i) {
        PrefixAt(w, es, n, i);
        assert !TripsAt(w, es, i);
      }
      assert !TripsAt(w, es, n);
      FilterStep(r, e);
      if e.Datagram? {
        var m := |arrivals| - 1;
        ControllerFilters(w, front, start, mcs, arrivals[..m]);
        AlikeFront(r.ctl.dedup, Channel.Through(start, mcs, arrivals[..m]).state, e.bytes);
      } else {
        ControllerFilters(w, front, start, mcs, arrivals);
      }
    }
  }

  /** Between boot or a trip and the next trip, the decisions the controller accepts are a
      strictly increasing subsequence of those sent, whatever other events interleave. */
  lemma AcceptedBetweenTrips(w: World, es: seq<Event>, start: U32, mcs: seq<Byte>, arrivals: seq<Channel.Arrival>)
    requires w.ctl.Valid() && ValidRun(es) && !w.ctl.dedup.ever && NoTrip(w, es)
    requires Carries(start, mcs, es, arrivals) && Channel.BoundedLag(mcs, arrivals)
    ensures var t := Channel.Through(start, mcs, arrivals);
      AcceptedIn(w, es) == Decisions(t.out) && Channel.StrictlyIncreasing(t.out) && Channel.AsSent(start, mcs, t.out)
  {
    hide Run, AcceptedIn, Channel.Through, NoTrip;
    CarriedIndices(start, mcs, es, arrivals);
    ControllerFilters(w, es, start, mcs, arrivals);
    Channel.AcceptedIncreasing(start, mcs, arrivals);
  }

  /** The hypothesis on the filter holds at boot and after every trip of every run. */
  lemma FilterFresh(w: World, es: seq<Event>)
    requires Boot(w) && ValidRun(es)
    ensures !w.ctl.dedup.ever
    ensures es != [] && TripsAt(w, es, |es| - 1) ==> !Run(true, w, es).ctl.dedup.ever
  {
    if es != [] && TripsAt(w, es, |es| - 1) {
      var r := Run(true, w, es[..|es| - 1]);
      KindsApart(r, es[|es| - 1]);
      FilterStep(r, es[|es| - 1]);
    }
    hide Step, Trips;
  }
}
