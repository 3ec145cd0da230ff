/** How the daemon fills the orchestrator: built-in processes, enabled services and the
    probe link, a later registration replacing an earlier one of the same name. */
module Daemon {
  import opened Graph
  import opened Orchestrator
  import opened Validate

  datatype Service = Service(enabled: bool, startAfter: seq<string>)
  type Services = map<string, Service>

  const VIDEO_TX := "wfb_video_tx"
  const TUN_RX := "wfb_tun_rx"
  const TUN_TX := "wfb_tun_tx"
  const TUN := "wfb_tun"
  const TLM_RX := "wfb_tlm_rx"
  const TLM_TX := "wfb_tlm_tx"
  const WAYBEAM := "waybeam"
  const PROBE_TX := "probe-tx"
  const PROBE_FEED := "probe-feed"

  // The telemetry router adds a process only when it is one the daemon knows.
  predicate Routes(router: string) { router == "mavfwd" || router == "msposd" }

  function Wireless(): Deps {
    map[VIDEO_TX := [], TUN_RX := [], TUN_TX := [], TUN := [TUN_RX, TUN_TX], TLM_RX := [], TLM_TX := [],
        WAYBEAM := [VIDEO_TX]]
  }

  function Builtin(router: string): Deps {
    if Routes(router) then Wireless()[router := [TLM_RX, TLM_TX]] else Wireless()
  }

  function Probe(on: bool): Deps {
    if on then map[PROBE_TX := [], PROBE_FEED := [PROBE_TX]] else map[]
  }

  // What the validator sees: every service, enabled or not.
  function Declared(services: Services): Deps {
    map n | n in services :: services[n].startAfter
  }

  function Enabled(services: Services): Deps {
    map n | n in services && services[n].enabled :: services[n].startAfter
  }

  function Seeded(router: string, services: Services, probe: bool): Deps {
    Builtin(router) + Enabled(services) + Probe(probe)
  }

  // ---- names ---------------------------------------------------------------------------------

  // A built-in waits only for built-ins that wait for nobody.
  lemma BuiltinShallow(router: string, n: string, d: string)
    requires n in Builtin(router) && d in Builtin(router)[n]
    ensures d in Builtin(router) && Builtin(router)[d] == []
  {
  }

  // No built-in left in place waits for a name a service has taken over.
  ghost predicate Clear(router: string, names: set<string>) {
    forall n, d :: n in Builtin(router) && n !in names && d in Builtin(router)[n] ==> d !in names
  }

  function EnabledNames(services: Services): set<string> { Enabled(services).Keys }

  lemma ProbeNames(router: string, n: string)
    requires n in Builtin(router)
    ensures n != PROBE_TX && n != PROBE_FEED
  {
  }

  // A node the services did not provide: a built-in left in place, or a probe process.
  predicate Fixed(services: Services, probe: bool, n: string) {
    n !in Enabled(services) || n in Probe(probe)
  }

  // Fixed nodes wait only for fixed nodes that wait for nobody.
  lemma FixedShallow(router: string, services: Services, probe: bool, n: string, d: string)
    requires Clear(router, EnabledNames(services)) && Fixed(services, probe, n) && Edge(Seeded(router, services, probe), n, d)
    ensures Fixed(services, probe, d) && Seeded(router, services, probe)[d] == []
  {
    hide Builtin;
    assert |PROBE_TX| != |PROBE_FEED|;
    if n !in Probe(probe) {
      BuiltinShallow(router, n, d);
      ProbeNames(router, d);
    }
  }

  lemma CycleNode(g: Deps, p: seq<string>, i: nat)
    requires Cycle(g, p) && i < |p|
    ensures p[i] in g && g[p[i]] != []
  {
    var k := if i == |p| - 1 then 1 else i + 1;
    assert Edge(g, p[k - 1], p[k]);
  }

  lemma EdgelessAcyclic(g: Deps)
    requires forall n, d :: !Edge(g, n, d)
    ensures !Cyclic(g)
  {
    forall p ensures !Cycle(g, p) {
      assert |p| >= 2 ==> !Edge(g, p[1 - 1], p[1]);
    }
  }

  // Hence a cycle meets services only, and validation would have seen it.
  lemma CycleIsDeclared(router: string, services: Services, probe: bool, p: seq<string>)
    requires Clear(router, EnabledNames(services)) && Cycle(Seeded(router, services, probe), p)
    ensures Cycle(Declared(services), p)
  {
    hide Clear, Builtin, Probe;
    var g := Seeded(router, services, probe);
    forall i | 0 <= i < |p| ensures !Fixed(services, probe, p[i]) {
      CycleNode(g, p, i);
      if Fixed(services, probe, p[i]) {
        var k := if i == |p| - 1 then 1 else i + 1;
        assert Edge(g, p[k - 1], p[k]);
        FixedShallow(router, services, probe, p[k - 1], p[k]);
        CycleNode(g, p, k);
        assert false;
      }
    }
    forall i | 0 < i < |p| ensures Edge(Declared(services), p[i - 1], p[i]) {
      assert Edge(g, p[i - 1], p[i]);
    }
  }

  lemma ClearStarts(router: string, services: Services, probe: bool)
    requires Clear(router, EnabledNames(services)) && !Cyclic(Declared(services))
    ensures !Cyclic(Seeded(router, services, probe))
  {
    hide Clear, Seeded, Declared;
    if Cyclic(Seeded(router, services, probe)) {
      var p :| Cycle(Seeded(router, services, probe), p);
      CycleIsDeclared(router, services, probe, p);
      assert false;
    }
  }

  // Every validated configuration that enables exactly these services starts.
  ghost predicate AlwaysStarts(router: string, names: set<string>, probe: bool) {
    forall services: Services ::
      EnabledNames(services) == names && !Cyclic(Declared(services)) ==> !Cyclic(Seeded(router, services, probe))
  }

  // The service that takes over d waits for the built-in n, which waits for d.
  lemma TakeoverCycles(router: string, names: set<string>, probe: bool, n: string, d: string)
    requires n in Builtin(router) && n !in names && d in Builtin(router)[n] && d in names
    ensures !AlwaysStarts(router, names, probe)
  {
    hide Builtin;
    var services: Services := map x | x in names :: Service(true, if x == d then [n] else []);
    assert EnabledNames(services) == names;
    EdgelessAcyclic(Declared(services));
    BuiltinShallow(router, n, d);
    ProbeNames(router, n);
    ProbeNames(router, d);
    var g, c := Seeded(router, services, probe), [d, n, d];
    assert Edge(g, c[0], c[1]) && Edge(g, c[1], c[2]);
    assert Cycle(g, c);
  }

  /** Validation guarantees a start order exactly when no built-in left in place waits for a
      name that a service has taken over. */
  lemma ValidatedStarts(router: string, names: set<string>, probe: bool)
    ensures AlwaysStarts(router, names, probe) <==> Clear(router, names)
  {
    hide Builtin, Declared, Seeded, Cyclic;
    if Clear(router, names) {
      forall services: Services | EnabledNames(services) == names && !Cyclic(Declared(services))
        ensures !Cyclic(Seeded(router, services, probe))
      {
        ClearStarts(router, services, probe);
      }
    } else {
      var n, d :| n in Builtin(router) && n !in names && d in Builtin(router)[n] && d in names;
      TakeoverCycles(router, names, probe, n, d);
    }
  }

  /** A service called wfb_tun_rx that starts after wfb_tun passes validation and leaves no
      start order. */
  lemma TunnelTakeover(router: string, probe: bool)
    ensures var services: Services := map[TUN_RX := Service(true, [TUN])];
      !Cyclic(Declared(services)) && Cyclic(Seeded(router, services, probe))
  {
    var services: Services := map[TUN_RX := Service(true, [TUN])];
    assert |TUN| != |TUN_RX|;
    EdgelessAcyclic(Declared(services));
    assert TUN in Builtin(router) && Builtin(router)[TUN] == [TUN_RX, TUN_TX] by {
      assert Routes(router) ==> |router| != |TUN|;
      assert WAYBEAM[1] != TUN[1];
    }
    ProbeNames(router, TUN);
    BuiltinShallow(router, TUN, TUN_RX);
    ProbeNames(router, TUN_RX);
    var g, c := Seeded(router, services, probe), [TUN_RX, TUN, TUN_RX];
    assert Edge(g, c[0], c[1]) && Edge(g, c[1], c[2]);
    assert Cycle(g, c);
  }

  // ---- the daemon's own steps ------------------------------------------------------------------------

  method AddServices(orch: Registry, services: Services, names: seq<string>)
    requires Elements(names) == services.Keys
    modifies orch
    ensures orch.specs == old(orch.specs) + Enabled(services)
  {
    for i := 0 to |names|
      invariant orch.specs == old(orch.specs) + map n | n in names[..i] && n in services && services[n].enabled :: services[n].startAfter
    {
      var n := names[i];
      assert names[..i + 1] == names[..i] + [n];
      assert n in Elements(names);
      if services[n].enabled {
        orch.Add(n, services[n].startAfter);
      }
    }
    assert names[..|names|] == names;
    assert forall n :: n in services ==> n in Elements(names);
  }

  method AddWireless(orch: Registry)
    requires orch.specs == map[]
    modifies orch
    ensures orch.specs == Wireless()
  {
    orch.Add(VIDEO_TX, []);
    orch.Add(TUN_RX, []);
    orch.Add(TUN_TX, []);
    orch.Add(TUN, [TUN_RX, TUN_TX]);
    orch.Add(TLM_RX, []);
    orch.Add(TLM_TX, []);
    orch.Add(WAYBEAM, [VIDEO_TX]);
  }

  method AddProbe(orch: Registry)
    modifies orch
    ensures orch.specs == old(orch.specs) + Probe(true)
  {
    orch.Add(PROBE_TX, []);
    orch.Add(PROBE_FEED, [PROBE_TX]);
  }

  method SeedOrchestrator(router: string, services: Services, names: seq<string>, probe: bool) returns (orch: Registry)
    requires Elements(names) == services.Keys
    ensures orch.specs == Seeded(router, services, probe)
  {
    hide Wireless, Enabled;
    orch := new Registry();
    AddWireless(orch);
    if Routes(router) {
      orch.Add(router, [TLM_RX, TLM_TX]);
    }
    AddServices(orch, services, names);
    if probe {
      AddProbe(orch);
    }
  }

  // The feeder goes before the transmitter it waits for; a start order remains.
  method RemoveProbeStream(orch: Registry)
    modifies orch
    ensures orch.specs == old(orch.specs) - {PROBE_FEED, PROBE_TX}
    ensures old(!Cyclic(orch.specs)) ==> !Cyclic(orch.specs)
  {
    hide Cyclic;
    ghost var before := orch.specs;
    orch.Remove(PROBE_FEED);
    orch.Remove(PROBE_TX);
    assert before - {PROBE_FEED} - {PROBE_TX} == before - {PROBE_FEED, PROBE_TX};
    if !Cyclic(before) { RemovalAcyclic(before, {PROBE_FEED, PROBE_TX}); }
  }

  /** Validate, seed, order: with no name taken over from under a built-in, every
      configuration the validator accepts comes up in dependency order. */
  method BringUp(router: string, services: Services, names: seq<string>, probe: bool, keys: seq<string>)
    returns (valid: bool, order: Order)
    requires Elements(names) == services.Keys && KeyOrder(Seeded(router, services, probe), keys)
    ensures valid <==> !Cyclic(Declared(services))
    ensures valid && Clear(router, EnabledNames(services)) ==> order.Ordered?
    ensures order.Ordered? ==> Topological(Seeded(router, services, probe), order.names)
  {
    hide Builtin, Seeded, Cyclic, Topological, Clear, KeyOrder;
    assert Declared(services).Keys == services.Keys;
    var cyclic := HasCycle(Declared(services), names);
    valid := !cyclic;
    var orch := SeedOrchestrator(router, services, names, probe);
    order := orch.StartOrder(keys);
    if valid && order.CycleDetected? && Clear(router, EnabledNames(services)) {
      ClearStarts(router, services, probe);
    }
  }

  // A built-in that no service replaces comes after what it waits for.
  lemma BuiltinWaits(router: string, services: Services, probe: bool, order: seq<string>, i: nat, d: string)
    requires Topological(Seeded(router, services, probe), order) && i < |order| && order[i] !in Enabled(services)
    requires order[i] in Builtin(router) && d in Builtin(router)[order[i]]
    ensures d in order[..i]
  {
    hide Builtin, Topological, Probe;
    BuiltinShallow(router, order[i], d);
    ProbeNames(router, order[i]);
    OnlyProbes(probe, order[i]);
    DependencyEarlier(Seeded(router, services, probe), order, i, d);
  }

  lemma OnlyProbes(probe: bool, n: string)
    ensures n in Probe(probe) ==> n == PROBE_TX || n == PROBE_FEED
  {
  }

  lemma DependencyEarlier(g: Deps, order: seq<string>, i: nat, d: string)
    requires Topological(g, order) && i < |order| && Edge(g, order[i], d)
    ensures d in order[..i]
  {
  }

  lemma BuiltinNeeds(router: string)
    ensures var b := Builtin(router);
      && ("waybeam" in b && "wfb_tun" in b && "wfb_video_tx" in b["waybeam"] && "wfb_tun_rx" in b["wfb_tun"] && "wfb_tun_tx" in b["wfb_tun"])
      && (router == "mavfwd" || router == "msposd" ==> router in b && "wfb_tlm_rx" in b[router] && "wfb_tlm_tx" in b[router])
  {
    assert |"waybeam"| != |"mavfwd"| && "waybeam"[0] != "msposd"[0] && "wfb_tun"[0] != "msposd"[0] && "wfb_tun"[0] != "mavfwd"[0];
  }

  /** In every start order of a daemon whose built-ins no service replaces: video transmitter
      before encoder, both tunnel links before the tunnel, both telemetry links before the router. */
  lemma BuiltinsFirst(router: string, services: Services, probe: bool, order: seq<string>, i: nat)
    requires Topological(Seeded(router, services, probe), order) && i < |order| && order[i] !in Enabled(services)
    ensures order[i] == "waybeam" ==> "wfb_video_tx" in order[..i]
    ensures order[i] == "wfb_tun" ==> "wfb_tun_rx" in order[..i] && "wfb_tun_tx" in order[..i]
    ensures order[i] == router && (router == "mavfwd" || router == "msposd") ==> "wfb_tlm_rx" in order[..i] && "wfb_tlm_tx" in order[..i]
  {
    hide Builtin, Seeded, Topological, Enabled;
    BuiltinNeeds(router);
    if order[i] == "waybeam" { BuiltinWaits(router, services, probe, order, i, "wfb_video_tx"); }
    if order[i] == "wfb_tun" {
      BuiltinWaits(router, services, probe, order, i, "wfb_tun_rx");
      BuiltinWaits(router, services, probe, order, i, "wfb_tun_tx");
    }
    if order[i] == router && (router == "mavfwd" || router == "msposd") {
      BuiltinWaits(router, services, probe, order, i, "wfb_tlm_rx");
      BuiltinWaits(router, services, probe, order, i, "wfb_tlm_tx");
    }
  }

  /** The probe's feed waits for its transmitter, whatever the services are called. */
  lemma ProbeFirst(router: string, services: Services, order: seq<string>, i: nat)
    requires Topological(Seeded(router, services, true), order) && i < |order| && order[i] == "probe-feed"
    ensures "probe-tx" in order[..i]
  {
    hide Builtin, Topological, Enabled;
    assert |"probe-tx"| != |"probe-feed"|;
    DependencyEarlier(Seeded(router, services, true), order, i, "probe-tx");
  }
}
