/** The chain routes of a node come in the order of the chains and their hops. */
module RouteOrder {
  import opened Outcomes
  import opened Fleet
  import opened NodeConfig
  import opened ChainTables
  import Converter
  import Text

  /** The relay hops of the node from hop i of chain x on. */
  ghost function Relays(chains: seq<Chain>, nodeId: string, x: nat, i: nat): seq<(nat, nat)>
    decreases |chains| - x, if x < |chains| then |chains[x].hops| - i else 0
  {
    if x >= |chains| then []
    else if !chains[x].enabled || i >= |chains[x].hops| then Relays(chains, nodeId, x + 1, 0)
    else (if RelayHere(chains, nodeId, x, i) then [(x, i)] else []) + Relays(chains, nodeId, x, i + 1)
  }

  ghost predicate Ascending(s: seq<(nat, nat)>) {
    forall m, k | 0 <= m < k < |s| :: Passed(s[m].0, s[m].1, s[k].0, s[k].1)
  }

  lemma {:induction false} RelaysMembers(chains: seq<Chain>, nodeId: string, x: nat, i: nat)
    ensures forall p: (nat, nat) :: p in Relays(chains, nodeId, x, i) <==> RelayHere(chains, nodeId, p.0, p.1) && !Passed(p.0, p.1, x, i)
    decreases |chains| - x, if x < |chains| then |chains[x].hops| - i else 0
  {
    if x < |chains| {
      if !chains[x].enabled || i >= |chains[x].hops| {
        RelaysMembers(chains, nodeId, x + 1, 0);
        assert forall y: nat, j: nat | RelayHere(chains, nodeId, y, j) :: Passed(y, j, x, i) <==> Passed(y, j, x + 1, 0);
      } else {
        RelaysMembers(chains, nodeId, x, i + 1);
        hide RelayHere;
        assert forall p: (nat, nat) | p != (x, i) :: Passed(p.0, p.1, x, i) <==> Passed(p.0, p.1, x, i + 1);
      }
    }
  }

  lemma {:induction false} RelaysAscend(chains: seq<Chain>, nodeId: string, x: nat, i: nat)
    ensures Ascending(Relays(chains, nodeId, x, i))
    decreases |chains| - x, if x < |chains| then |chains[x].hops| - i else 0
  {
    hide RelayHere;
    if x < |chains| {
      if !chains[x].enabled || i >= |chains[x].hops| {
        RelaysAscend(chains, nodeId, x + 1, 0);
      } else {
        RelaysAscend(chains, nodeId, x, i + 1);
        RelaysMembers(chains, nodeId, x, i + 1);
        var rest := Relays(chains, nodeId, x, i + 1);
        forall k | 0 <= k < |rest| ensures Passed(x, i, rest[k].0, rest[k].1) {
          assert rest[k] in rest;
        }
        assert Ascending([(x, i)] + rest) && [] + rest == rest;
      }
    }
  }

  /** The routes appended to those at `start` are those of these relay hops, one by one. */
  ghost predicate RoutesAre(snap: Snapshot, node: Node, chains: seq<Chain>, relays: seq<(nat, nat)>, start: nat, routes: seq<Converter.ChainRoute>) {
    && |routes| == start + |relays|
    && forall k | 0 <= k < |relays| :: RouteFor(snap, node, chains, relays[k].0, relays[k].1, routes[start + k])
  }

  lemma {:induction false} AddHopRoutes(snap: Snapshot, node: Node, chains: seq<Chain>, x: nat, i: nat, acc: Parts)
    requires x < |chains| && chains[x].enabled && i < |chains[x].hops| && AddHop(snap, node, chains[x], i, acc).Ok?
    ensures var next := AddHop(snap, node, chains[x], i, acc).value;
            acc.routes <= next.routes
            && RoutesAre(snap, node, chains, if RelayHere(chains, node.id, x, i) then [(x, i)] else [], |acc.routes|, next.routes)
  {
    hide ResolveHopEndpoint, ChainOutboundTag, Text.TrimSpace;
  }

  lemma {:induction false} RoutesConcat(snap: Snapshot, node: Node, chains: seq<Chain>, a: seq<(nat, nat)>, b: seq<(nat, nat)>, start: nat,
                     middle: seq<Converter.ChainRoute>, routes: seq<Converter.ChainRoute>)
    requires RoutesAre(snap, node, chains, a, start, middle) && RoutesAre(snap, node, chains, b, |middle|, routes) && middle <= routes
    ensures RoutesAre(snap, node, chains, a + b, start, routes)
  {
    hide RouteFor;
    forall k | 0 <= k < |a + b| ensures RouteFor(snap, node, chains, (a + b)[k].0, (a + b)[k].1, routes[start + k]) {
      if k < |a| {
        assert routes[start + k] == middle[start + k];
      } else {
        assert (a + b)[k] == b[k - |a|] && start + k == |middle| + (k - |a|);
      }
    }
  }

  /** From hop i of chain x to the end of the chains. */
  lemma {:induction false} RoutesFrom(snap: Snapshot, node: Node, chains: seq<Chain>, x: nat, i: nat, acc: Parts)
    requires x < |chains| && chains[x].enabled && i <= |chains[x].hops|
    requires AddHops(snap, node, chains[x], i, acc).Ok? && AddChains(snap, node, chains, x + 1, AddHops(snap, node, chains[x], i, acc).value).Ok?
    ensures var end := AddChains(snap, node, chains, x + 1, AddHops(snap, node, chains[x], i, acc).value).value;
            acc.routes <= end.routes && RoutesAre(snap, node, chains, Relays(chains, node.id, x, i), |acc.routes|, end.routes)
    decreases |chains| - x, |chains[x].hops| - i + 1
  {
    hide AddHop, RoutesAre, RelayHere;
    if i == |chains[x].hops| {
      RoutesFromChain(snap, node, chains, x + 1, acc);
    } else {
      var next := AddHop(snap, node, chains[x], i, acc).value;
      AddHopRoutes(snap, node, chains, x, i, acc);
      RoutesFrom(snap, node, chains, x, i + 1, next);
      RoutesConcat(snap, node, chains, if RelayHere(chains, node.id, x, i) then [(x, i)] else [],
                   Relays(chains, node.id, x, i + 1), |acc.routes|, next.routes,
                   AddChains(snap, node, chains, x + 1, AddHops(snap, node, chains[x], i + 1, next).value).value.routes);
    }
  }

  lemma {:induction false} RoutesFromChain(snap: Snapshot, node: Node, chains: seq<Chain>, x: nat, acc: Parts)
    requires x <= |chains| && AddChains(snap, node, chains, x, acc).Ok?
    ensures var end := AddChains(snap, node, chains, x, acc).value;
            acc.routes <= end.routes && RoutesAre(snap, node, chains, Relays(chains, node.id, x, 0), |acc.routes|, end.routes)
    decreases |chains| - x + 1, 0
  {
    hide AddHops, RouteFor;
    if x < |chains| {
      if chains[x].enabled {
        RoutesFrom(snap, node, chains, x, 0, acc);
      } else {
        RoutesFromChain(snap, node, chains, x + 1, acc);
      }
    }
  }

  /** In every build the k-th route is that of the k-th relay hop of the node. */
  lemma {:induction false} BuiltRoutes(snap: Snapshot, nodeId: string, chains: seq<Chain>, parts: Parts)
    requires nodeId in snap.nodes
    requires AddChains(snap, snap.nodes[nodeId], chains, 0, Standalone(snap, nodeId)) == Ok(parts)
    ensures RoutesAre(snap, snap.nodes[nodeId], chains, Relays(chains, snap.nodes[nodeId].id, 0, 0), 0, parts.routes)
  {
    hide AddChains, RoutesAre;
    RoutesFromChain(snap, snap.nodes[nodeId], chains, 0, Standalone(snap, nodeId));
  }

  /** Where a relay hop stands among those of its node. */
  lemma {:induction false} RelayAt(chains: seq<Chain>, nodeId: string, x: nat, i: nat) returns (k: nat)
    requires RelayHere(chains, nodeId, x, i)
    ensures k < |Relays(chains, nodeId, 0, 0)| && Relays(chains, nodeId, 0, 0)[k] == (x, i)
  {
    hide Relays, RelayHere;
    RelaysMembers(chains, nodeId, 0, 0);
    assert (x, i) in Relays(chains, nodeId, 0, 0);
    k :| 0 <= k < |Relays(chains, nodeId, 0, 0)| && Relays(chains, nodeId, 0, 0)[k] == (x, i);
  }

  lemma {:induction false} RelayBefore(chains: seq<Chain>, nodeId: string, m: nat, k: nat)
    requires m < |Relays(chains, nodeId, 0, 0)| && k < |Relays(chains, nodeId, 0, 0)|
    ensures var relays := Relays(chains, nodeId, 0, 0);
            m < k <==> Passed(relays[m].0, relays[m].1, relays[k].0, relays[k].1)
  {
    hide Relays;
    RelaysAscend(chains, nodeId, 0, 0);
  }
}
