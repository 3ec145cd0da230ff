/** Port planning for receiver cards spread over several nodes. */
module Cluster {
  datatype Card = Card(host: string, rxOnly: bool)

  const LOCALHOST := "127.0.0.1"

  function NodeKey(c: Card): string { if c.host == "" then LOCALHOST else c.host }

  // The cards of one node, in list order.
  function CardsOf(cards: seq<Card>, node: string): seq<Card> {
    if cards == [] then []
    else
      var front, last := CardsOf(cards[..|cards| - 1], node), cards[|cards| - 1];
      if NodeKey(last) == node then front + [last] else front
  }

  /** A node has every card that names it, as often as it is listed, and the local node has those
      that name none. */
  lemma {:induction false} CardsKept(cards: seq<Card>, node: string, c: Card)
    ensures multiset(CardsOf(cards, node))[c] ==
      if (if c.host == "" then node == "127.0.0.1" else node == c.host) then multiset(cards)[c] else 0
  {
    if cards != [] {
      CardsKept(cards[..|cards| - 1], node, c);
      assert cards == cards[..|cards| - 1] + [cards[|cards| - 1]];
    }
  }

  function Services(withProbe: bool): seq<string> {
    ["video", "mavlink", "tunnel"] + if withProbe then ["probe"] else []
  }

  lemma ServicesDistinct(withProbe: bool, i: nat, j: nat)
    requires i < j < |Services(withProbe)|
    ensures Services(withProbe)[i] != Services(withProbe)[j]
  {
  }

  // Where a node's block for the i-th service starts, when each block takes n ports.
  function Start(base: int, n: nat, i: nat): int { if i == 0 then base else Start(base, n, i - 1) + n }

  datatype Plan = Plan(nodes: map<string, seq<Card>>, serverPort: map<string, int>, ports: map<string, map<string, seq<int>>>,
                       rxOnly: set<(string, nat)>)

  function Block(first: int, n: nat): seq<int> { seq(n, k => first + k) }

  // Every node's ports for the i-th service.
  function Blocks(nodes: map<string, seq<Card>>, baseNode: int, i: nat): map<string, seq<int>> {
    map n | n in nodes :: Block(Start(baseNode, |nodes[n]|, i), |nodes[n]|)
  }

  ghost predicate Planned(cards: seq<Card>, services: seq<string>, baseServer: int, baseNode: int, p: Plan) {
    && (forall n :: n in p.nodes <==> CardsOf(cards, n) != [])
    && (forall n :: n in p.nodes ==> p.nodes[n] == CardsOf(cards, n))
    && (forall i :: 0 <= i < |services| ==> services[i] in p.serverPort && p.serverPort[services[i]] == baseServer + i)
    && (forall i :: 0 <= i < |services| ==> services[i] in p.ports && p.ports[services[i]] == Blocks(p.nodes, baseNode, i))
    && (forall n, k :: (n, k) in p.rxOnly <==> n in p.nodes && 0 <= k < |p.nodes[n]| && p.nodes[n][k].rxOnly)
  }

  method GroupCards(cards: seq<Card>) returns (nodes: map<string, seq<Card>>)
    ensures forall n :: n in nodes <==> CardsOf(cards, n) != []
    ensures forall n :: n in nodes ==> nodes[n] == CardsOf(cards, n)
  {
    nodes := map[];
    for i := 0 to |cards|
      invariant forall n :: n in nodes <==> CardsOf(cards[..i], n) != []
      invariant forall n :: n in nodes ==> nodes[n] == CardsOf(cards[..i], n)
    {
      var n := NodeKey(cards[i]);
      assert cards[..i + 1][..i] == cards[..i];
      nodes := nodes[n := (if n in nodes then nodes[n] else []) + [cards[i]]];
    }
    assert cards[..|cards|] == cards;
  }

  function Counters(nodes: map<string, seq<Card>>, baseNode: int, i: nat): map<string, int> {
    map n | n in nodes :: Start(baseNode, |nodes[n]|, i)
  }

  // One service's ports on every node; each node's counter moves past them.
  method Allocate(nodes: map<string, seq<Card>>, counters: map<string, int>, ghost baseNode: int, ghost i: nat)
    returns (next: map<string, int>, blocks: map<string, seq<int>>)
    requires counters == Counters(nodes, baseNode, i)
    ensures next == Counters(nodes, baseNode, i + 1) && blocks == Blocks(nodes, baseNode, i)
  {
    hide Block, Counters, Blocks;
    CountersKeys(nodes, baseNode, i);
    next, blocks := counters, map[];
    var todo := nodes.Keys;
    while todo != {}
      invariant todo <= nodes.Keys && next.Keys == nodes.Keys && blocks.Keys == nodes.Keys - todo
      invariant forall n :: n in todo ==> next[n] == counters[n]
      invariant forall n :: n in blocks ==> next[n] == counters[n] + |nodes[n]| && blocks[n] == Block(counters[n], |nodes[n]|)
      decreases |todo|
    {
      var n :| n in todo;
      blocks := blocks[n := Block(next[n], |nodes[n]|)];
      next := next[n := next[n] + |nodes[n]|];
      todo := todo - {n};
    }
    Allocated(nodes, baseNode, i, next, blocks);
  }

  lemma CountersKeys(nodes: map<string, seq<Card>>, baseNode: int, i: nat)
    ensures Counters(nodes, baseNode, i).Keys == nodes.Keys
  {
  }

  lemma Allocated(nodes: map<string, seq<Card>>, baseNode: int, i: nat, next: map<string, int>, blocks: map<string, seq<int>>)
    requires next.Keys == blocks.Keys == nodes.Keys == Counters(nodes, baseNode, i).Keys
    requires forall n :: n in nodes ==>
      var at := Counters(nodes, baseNode, i)[n]; next[n] == at + |nodes[n]| && blocks[n] == Block(at, |nodes[n]|)
    ensures next == Counters(nodes, baseNode, i + 1) && blocks == Blocks(nodes, baseNode, i)
  {
    hide Block;
  }

  lemma CountersStart(nodes: map<string, seq<Card>>, baseNode: int)
    ensures Counters(nodes, baseNode, 0) == map n | n in nodes :: baseNode
  {
  }

  method PlanCluster(cards: seq<Card>, baseServer: int, baseNode: int, withProbe: bool) returns (p: Plan)
    ensures Planned(cards, Services(withProbe), baseServer, baseNode, p)
  {
    hide Services, Blocks, CardsOf, Counters;
    var services := Services(withProbe);
    var nodes := GroupCards(cards);
    var serverPort: map<string, int>, ports: map<string, map<string, seq<int>>> := map[], map[];
    var counters := map n | n in nodes :: baseNode;
    CountersStart(nodes, baseNode);
    for i := 0 to |services|
      invariant counters == Counters(nodes, baseNode, i)
      invariant forall j :: 0 <= j < i ==> services[j] in serverPort && serverPort[services[j]] == baseServer + j
      invariant forall j :: 0 <= j < i ==> services[j] in ports && ports[services[j]] == Blocks(nodes, baseNode, j)
    {
      forall j | 0 <= j < i ensures services[j] != services[i] { ServicesDistinct(withProbe, j, i); }
      var blocks;
      counters, blocks := Allocate(nodes, counters, baseNode, i);
      serverPort, ports := serverPort[services[i] := baseServer + i], ports[services[i] := blocks];
    }
    // Each pair stands for the wlan id of a receive-only card.
    var rxOnly := set n, k | n in nodes && 0 <= k < |nodes[n]| && nodes[n][k].rxOnly :: (n, k);
    p := Plan(nodes, serverPort, ports, rxOnly);
  }

  lemma {:induction false} StartsApart(base: int, n: nat, i: nat, j: nat)
    requires i < j
    ensures Start(base, n, i) + n <= Start(base, n, j)
  {
    if i < j - 1 { StartsApart(base, n, i, j - 1); }
  }

  /** On each node no two services share an injector port, each block is contiguous and holds
      one port per card, and services have distinct server ports. */
  lemma PortsDisjoint(cards: seq<Card>, withProbe: bool, baseServer: int, baseNode: int, p: Plan, n: string, i: nat)
    requires Planned(cards, Services(withProbe), baseServer, baseNode, p) && n in p.nodes && i < |Services(withProbe)|
    ensures var ss := Services(withProbe);
      && |p.ports[ss[i]][n]| == |CardsOf(cards, n)| > 0
      && (forall k :: 0 < k < |p.ports[ss[i]][n]| ==> p.ports[ss[i]][n][k] == p.ports[ss[i]][n][0] + k)
      && (forall j :: 0 <= j < |ss| && j != i ==> p.serverPort[ss[i]] != p.serverPort[ss[j]] && Apart(p.ports[ss[i]][n], p.ports[ss[j]][n]))
  {
    hide Services, CardsOf;
    var ss := Services(withProbe);
    forall j | 0 <= j < |ss| && j != i
      ensures p.serverPort[ss[i]] != p.serverPort[ss[j]] && Apart(p.ports[ss[i]][n], p.ports[ss[j]][n])
    {
      StartsApart(baseNode, |p.nodes[n]|, if i < j then i else j, if i < j then j else i);
    }
  }

  ghost predicate Apart(a: seq<int>, b: seq<int>) { forall x :: x in a ==> x !in b }

  /** Adding the probe leaves every port of the base services as it was. */
  lemma ProbeAppendOnly(cards: seq<Card>, baseServer: int, baseNode: int, without: Plan, with: Plan, i: nat)
    requires Planned(cards, Services(false), baseServer, baseNode, without) && Planned(cards, Services(true), baseServer, baseNode, with)
    requires i < |Services(false)|
    ensures var s := Services(false)[i];
      without.nodes == with.nodes && without.serverPort[s] == with.serverPort[s] && without.ports[s] == with.ports[s]
  {
    hide Blocks, CardsOf;
    assert Services(true)[i] == Services(false)[i];
    assert without.nodes.Keys == with.nodes.Keys by {
      forall n ensures n in without.nodes <==> n in with.nodes {
        assert n in without.nodes <==> CardsOf(cards, n) != [];
      }
    }
  }

  // ---- wlan ids ---------------------------------------------------------------------------------

  // The node's IPv4 address above a 24-bit card index.
  function WlanId(ip: bv64, idx: bv64): bv64 { (ip << 24) | idx }

  /** Ids identify the node and the card while indices fit in 24 bits, and not beyond. */
  lemma WlanIdInjective(ip1: bv64, idx1: bv64, ip2: bv64, idx2: bv64)
    requires ip1 < 0x1_0000_0000 && ip2 < 0x1_0000_0000 && idx1 < 0x100_0000 && idx2 < 0x100_0000
    ensures WlanId(ip1, idx1) == WlanId(ip2, idx2) ==> ip1 == ip2 && idx1 == idx2
    ensures WlanId(0, 0x100_0000) == WlanId(1, 0)
  {
  }
}
