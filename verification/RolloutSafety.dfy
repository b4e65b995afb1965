/** Every fleet a rollout passes through: the nodes already changed are a suffix of the hops
    while deploying and a prefix while disabling, so no changed hop ever depends on an
    unchanged one, and traffic that is on the chain still reaches its exit. */
module RolloutSafety {
  import opened Fleet
  import opened NodeConfig
  import opened RolloutOrder
  import opened RolloutFleets
  import FleetRouting
  import NodeTables
  import ForwardingTable
  import Converter

  lemma {:induction false} PushPrefix(order: seq<string>, push: set<string>, m: nat) returns (p: nat)
    requires m <= |PushNodes(order, push)|
    ensures p <= |order| && PushNodes(order, push)[..m] == PushNodes(order[..p], push)
  {
    var all := PushNodes(order, push);
    if m == |all| {
      p := |order|;
      assert order[..p] == order && all[..m] == all;
    } else {
      var short := order[..|order| - 1];
      p := PushPrefix(short, push, m);
      assert short[..p] == order[..p];
      assert PushNodes(short, push)[..m] == all[..m];
    }
  }

  /** Deploying: once a hop is changed, every later hop that is pushed to is. */
  lemma {:induction false} DeployChangesSuffix(candidate: Chain, current: Chain, push: set<string>, m: nat, i: nat, j: nat)
    requires ValidChain(candidate)
    requires m <= |PushNodes(DeployOrder(candidate, current), push)|
    requires i <= j < |candidate.hops| && candidate.hops[j].nodeId in push
    requires candidate.hops[i].nodeId in PushNodes(DeployOrder(candidate, current), push)[..m]
    ensures candidate.hops[j].nodeId in PushNodes(DeployOrder(candidate, current), push)[..m]
  {
    hide DeployOrder, PushNodes;
    var order := DeployOrder(candidate, current);
    var p := PushPrefix(order, push, m);
    DeployOrderShape(candidate, current);
    PushNodesSpec(order[..p], push);
    var last := |candidate.hops| - 1;
    var back := Reversed(HopNodes(candidate.hops));
    assert order[last - i] == back[last - i] == candidate.hops[i].nodeId;
    assert order[last - j] == back[last - j] == candidate.hops[j].nodeId;
    var q :| 0 <= q < p && order[..p][q] == candidate.hops[i].nodeId;
    assert q == last - i;
    assert order[..p][last - j] == candidate.hops[j].nodeId;
  }

  /** Disabling: once a hop is changed, every earlier hop that is pushed to is. */
  lemma {:induction false} DisableChangesPrefix(current: Chain, push: set<string>, m: nat, i: nat, j: nat)
    requires ValidChain(current)
    requires m <= |PushNodes(DisableOrder(current), push)|
    requires i <= j < |current.hops| && current.hops[i].nodeId in push
    requires current.hops[j].nodeId in PushNodes(DisableOrder(current), push)[..m]
    ensures current.hops[i].nodeId in PushNodes(DisableOrder(current), push)[..m]
  {
    hide DisableOrder, PushNodes;
    var order := DisableOrder(current);
    var p := PushPrefix(order, push, m);
    DisableOrderShape(current);
    PushNodesSpec(order[..p], push);
    assert order[i] == current.hops[i].nodeId && order[j] == current.hops[j].nodeId;
    var q :| 0 <= q < p && order[..p][q] == current.hops[j].nodeId;
    assert q == j;
    assert order[..p][i] == current.hops[i].nodeId;
  }

  ghost function Tables(agents: Agents): map<string, Converter.Document> {
    map n | n in agents :: agents[n].config
  }

  /** What a node builds gives its inbounds distinct tags. */
  ghost predicate BuildsDistinct(snap: Snapshot, chains: seq<Chain>, n: string) {
    hide Build;
    Build(snap, n, chains).Ok? ==> NodeTables.DistinctTags(Build(snap, n, chains).value.config)
  }

  lemma {:induction false} RunsItsBuild(snap: Snapshot, chains: seq<Chain>, agents: Agents, n: string)
    requires InStep(snap, chains, agents, n) && BuildsDistinct(snap, chains, n)
    ensures FleetRouting.RunsBuild(snap, chains, Tables(agents), n)
  {
    hide Build, NodeTables.DistinctTags;
  }

  /** In a fleet cut while deploying, traffic arriving on a changed hop is carried by the new chain
      to its exit, hop by hop. */
  lemma {:induction false} DeployKeepsChainWhole(
    snap: Snapshot, oldChains: seq<Chain>, chains: seq<Chain>, x: nat, current: Chain, push: set<string>, start: Agents, agents: Agents,
    m: nat, i: nat, conn: ForwardingTable.Conn)
    requires snap.Valid() && x < |chains| && chains[x].enabled && ValidChain(chains[x])
    requires m <= |PushNodes(DeployOrder(chains[x], current), push)|
    requires CutAt(snap, PushNodes(DeployOrder(chains[x], current), push), oldChains, chains, start, agents, m)
    requires i < |chains[x].hops| && chains[x].hops[i].nodeId in PushNodes(DeployOrder(chains[x], current), push)[..m]
    requires forall j | i <= j < |chains[x].hops| :: chains[x].hops[j].nodeId in push && BuildsDistinct(snap, chains, chains[x].hops[j].nodeId)
    ensures var last := |chains[x].hops| - 1;
            FleetRouting.Walk(snap, Tables(agents), conn, FleetRouting.AtHop(snap, chains, x, i), last - i)
            == FleetRouting.AtHop(snap, chains, x, last)
  {
    hide Build, DeployOrder, PushNodes, InStep, SameAt, BuildsDistinct, Tables, FleetRouting.RunsBuild, FleetRouting.Walk, FleetRouting.AtHop;
    var last := |chains[x].hops| - 1;
    forall j | i <= j < i + (last - i) ensures FleetRouting.RunsBuild(snap, chains, Tables(agents), chains[x].hops[j].nodeId) {
      DeployChangesSuffix(chains[x], current, push, m, i, j);
      RunsItsBuild(snap, chains, agents, chains[x].hops[j].nodeId);
    }
    FleetRouting.ChainDelivers(snap, chains, Tables(agents), conn, x, i, last - i);
  }

  /** In a fleet cut while disabling, traffic arriving on a hop that is not changed is still carried
      by the old chain to its exit, if its nodes were in step. */
  lemma {:induction false} DisableKeepsChainWhole(
    snap: Snapshot, chains: seq<Chain>, newChains: seq<Chain>, x: nat, push: set<string>, start: Agents, agents: Agents,
    m: nat, i: nat, conn: ForwardingTable.Conn)
    requires snap.Valid() && x < |chains| && chains[x].enabled && ValidChain(chains[x])
    requires m <= |PushNodes(DisableOrder(chains[x]), push)|
    requires CutAt(snap, PushNodes(DisableOrder(chains[x]), push), chains, newChains, start, agents, m)
    requires i < |chains[x].hops| && chains[x].hops[i].nodeId !in PushNodes(DisableOrder(chains[x]), push)[..m]
    requires forall j | i <= j < |chains[x].hops| ::
               var n := chains[x].hops[j].nodeId; n in push && InStep(snap, chains, start, n) && BuildsDistinct(snap, chains, n)
    ensures var last := |chains[x].hops| - 1;
            FleetRouting.Walk(snap, Tables(agents), conn, FleetRouting.AtHop(snap, chains, x, i), last - i)
            == FleetRouting.AtHop(snap, chains, x, last)
  {
    hide Build, DisableOrder, PushNodes, BuildsDistinct, Tables, FleetRouting.RunsBuild, FleetRouting.Walk, FleetRouting.AtHop;
    var last := |chains[x].hops| - 1;
    forall j | i <= j < i + (last - i) ensures FleetRouting.RunsBuild(snap, chains, Tables(agents), chains[x].hops[j].nodeId) {
      if chains[x].hops[j].nodeId in PushNodes(DisableOrder(chains[x]), push)[..m] {
        DisableChangesPrefix(chains[x], push, m, i, j);
      }
      RunsItsBuild(snap, chains, agents, chains[x].hops[j].nodeId);
    }
    FleetRouting.ChainDelivers(snap, chains, Tables(agents), conn, x, i, last - i);
  }

  /** The connection travels from this hop to the exit of the chain. */
  ghost predicate Carried(snap: Snapshot, chains: seq<Chain>, x: nat, agents: Agents, i: nat, conn: ForwardingTable.Conn)
    requires x < |chains| && i < |chains[x].hops|
  {
    var last := |chains[x].hops| - 1;
    FleetRouting.Walk(snap, Tables(agents), conn, FleetRouting.AtHop(snap, chains, x, i), last - i) == FleetRouting.AtHop(snap, chains, x, last)
  }

  ghost predicate Delivers(snap: Snapshot, chains: seq<Chain>, x: nat, agents: Agents, i: nat)
    requires x < |chains| && i < |chains[x].hops|
  {
    forall conn: ForwardingTable.Conn :: Carried(snap, chains, x, agents, i, conn)
  }

  /** Every fleet in the history of a deploy in which no re-apply failed: the changed hops are a
      suffix of those pushed to, and from each of them traffic reaches the new chain's exit. */
  lemma {:induction false} EveryDeployFleet(
    snap: Snapshot, oldChains: seq<Chain>, chains: seq<Chain>, x: nat, current: Chain, push: set<string>, start: Agents, agents: Agents)
    returns (m: nat)
    requires snap.Valid() && x < |chains| && chains[x].enabled && ValidChain(chains[x])
    requires Cut(snap, PushNodes(DeployOrder(chains[x], current), push), oldChains, chains, start, agents)
    requires forall j | 0 <= j < |chains[x].hops| :: chains[x].hops[j].nodeId in push && BuildsDistinct(snap, chains, chains[x].hops[j].nodeId)
    ensures var nodes := PushNodes(DeployOrder(chains[x], current), push);
            && m <= |nodes|
            && (forall n | n in nodes[..m] :: InStep(snap, chains, agents, n))
            && (forall n | n !in nodes[..m] :: SameAt(start, agents, n) || InStep(snap, oldChains, agents, n))
            && forall i | 0 <= i < |chains[x].hops| && chains[x].hops[i].nodeId in nodes[..m] ::
                 && (forall j | i <= j < |chains[x].hops| :: chains[x].hops[j].nodeId in nodes[..m])
                 && Delivers(snap, chains, x, agents, i)
  {
    hide Build, DeployOrder, PushNodes, InStep, SameAt, BuildsDistinct, FleetRouting.Walk, FleetRouting.AtHop, Tables;
    var nodes := PushNodes(DeployOrder(chains[x], current), push);
    m :| 0 <= m <= |nodes| && CutAt(snap, nodes, oldChains, chains, start, agents, m);
    forall i | 0 <= i < |chains[x].hops| && chains[x].hops[i].nodeId in nodes[..m]
      ensures (forall j | i <= j < |chains[x].hops| :: chains[x].hops[j].nodeId in nodes[..m]) && Delivers(snap, chains, x, agents, i)
    {
      forall j | i <= j < |chains[x].hops| ensures chains[x].hops[j].nodeId in nodes[..m] {
        DeployChangesSuffix(chains[x], current, push, m, i, j);
      }
      forall conn: ForwardingTable.Conn ensures Carried(snap, chains, x, agents, i, conn) {
        DeployKeepsChainWhole(snap, oldChains, chains, x, current, push, start, agents, m, i, conn);
      }
    }
  }

  /** Every fleet in the history of a disable in which no re-apply failed: the changed hops are a
      prefix of those pushed to, and from each of the others traffic still reaches the exit. */
  lemma {:induction false} EveryDisableFleet(
    snap: Snapshot, chains: seq<Chain>, newChains: seq<Chain>, x: nat, push: set<string>, start: Agents, agents: Agents)
    returns (m: nat)
    requires snap.Valid() && x < |chains| && chains[x].enabled && ValidChain(chains[x])
    requires Cut(snap, PushNodes(DisableOrder(chains[x]), push), chains, newChains, start, agents)
    requires forall j | 0 <= j < |chains[x].hops| ::
               var n := chains[x].hops[j].nodeId; n in push && InStep(snap, chains, start, n) && BuildsDistinct(snap, chains, n)
    ensures var nodes := PushNodes(DisableOrder(chains[x]), push);
            && m <= |nodes|
            && (forall n | n in nodes[..m] :: InStep(snap, newChains, agents, n))
            && (forall n | n !in nodes[..m] :: SameAt(start, agents, n) || InStep(snap, chains, agents, n))
            && (forall j, i | 0 <= i <= j < |chains[x].hops| && chains[x].hops[j].nodeId in nodes[..m] :: chains[x].hops[i].nodeId in nodes[..m])
            && forall i | 0 <= i < |chains[x].hops| && chains[x].hops[i].nodeId !in nodes[..m] :: Delivers(snap, chains, x, agents, i)
  {
    hide Build, DisableOrder, PushNodes, InStep, SameAt, BuildsDistinct, FleetRouting.Walk, FleetRouting.AtHop, Tables;
    var nodes := PushNodes(DisableOrder(chains[x]), push);
    m :| 0 <= m <= |nodes| && CutAt(snap, nodes, chains, newChains, start, agents, m);
    forall j, i | 0 <= i <= j < |chains[x].hops| && chains[x].hops[j].nodeId in nodes[..m] ensures chains[x].hops[i].nodeId in nodes[..m] {
      DisableChangesPrefix(chains[x], push, m, i, j);
    }
    forall i | 0 <= i < |chains[x].hops| && chains[x].hops[i].nodeId !in nodes[..m] ensures Delivers(snap, chains, x, agents, i) {
      forall conn: ForwardingTable.Conn ensures Carried(snap, chains, x, agents, i, conn) {
        DisableKeepsChainWhole(snap, chains, newChains, x, push, start, agents, m, i, conn);
      }
    }
  }
}
