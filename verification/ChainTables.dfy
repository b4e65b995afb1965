/** What one compiled node table does, stated in terms of the chains and plans it came from. */
module ChainTables {
  import opened Outcomes
  import opened Fleet
  import opened NodeConfig
  import Converter
  import Text

  /** Hop i of chain x sits on this node and takes part in the build. */
  predicate HopHere(chains: seq<Chain>, nodeId: string, x: nat, i: nat) {
    x < |chains| && chains[x].enabled && i < |chains[x].hops| && chains[x].hops[i].nodeId == nodeId
  }

  predicate RelayHere(chains: seq<Chain>, nodeId: string, x: nat, i: nat) {
    HopHere(chains, nodeId, x, i) && i + 1 < |chains[x].hops|
  }

  /** The hop has been passed when the build stands at hop h of chain a. */
  predicate Passed(x: nat, i: nat, a: nat, h: nat) {
    x < a || (x == a && i < h)
  }

  ghost function RouteOf(snap: Snapshot, node: Node, chains: seq<Chain>, x: nat, i: nat): Converter.ChainRoute
    requires RelayHere(chains, node.id, x, i)
    requires ResolveHopEndpoint(snap, chains[x], i + 1).Ok?
  {
    Converter.ChainRoute(chains[x].hops[i].inboundId,
                         Converter.DialOut(ChainOutboundTag(chains[x].id, i),
                                           ResolveHopEndpoint(snap, chains[x], i + 1).value,
                                           Text.TrimSpace(node.egressInterface)))
  }

  ghost predicate RouteFor(
    snap: Snapshot, node: Node, chains: seq<Chain>, x: nat, i: nat, r: Converter.ChainRoute)
  {
    RelayHere(chains, node.id, x, i) && ResolveHopEndpoint(snap, chains[x], i + 1).Ok? && r == RouteOf(snap, node, chains, x, i)
  }

  ghost predicate InboundsKnown(snap: Snapshot, acc: Parts) {
    && Converter.DistinctIds(acc.inbounds)
    && forall b | b in acc.inbounds :: b.id in acc.ids
  }

  ghost predicate HopsIncluded(snap: Snapshot, node: Node, chains: seq<Chain>, a: nat, h: nat, acc: Parts) {
    forall x: nat, i: nat | HopHere(chains, node.id, x, i) && Passed(x, i, a, h) ::
      var id := chains[x].hops[i].inboundId;
      && id in snap.inbounds && snap.inbounds[id].enabled && snap.inbounds[id] in acc.inbounds && id in acc.ids
      && (RelayHere(chains, node.id, x, i) ==>
            && ResolveHopEndpoint(snap, chains[x], i + 1).Ok?
            && RouteOf(snap, node, chains, x, i) in acc.routes)
  }

  ghost predicate RoutesExplained(snap: Snapshot, node: Node, chains: seq<Chain>, a: nat, h: nat, acc: Parts) {
    forall r | r in acc.routes ::
      exists x: nat, i: nat :: RouteFor(snap, node, chains, x, i, r) && Passed(x, i, a, h)
  }

  /** An inbound serves at most one hop of a node. */
  ghost predicate HopsExclusive(chains: seq<Chain>, nodeId: string, a: nat, h: nat) {
    forall x: nat, i: nat, y: nat, j: nat | HopHere(chains, nodeId, x, i) && Passed(x, i, a, h)
                        && HopHere(chains, nodeId, y, j) && Passed(y, j, a, h)
                        && chains[x].hops[i].inboundId == chains[y].hops[j].inboundId ::
      x == y && i == j
  }

  ghost predicate PartsExplained(snap: Snapshot, node: Node, chains: seq<Chain>, a: nat, h: nat, acc: Parts) {
    && InboundsKnown(snap, acc)
    && HopsIncluded(snap, node, chains, a, h, acc)
    && RoutesExplained(snap, node, chains, a, h, acc)
    && HopsExclusive(chains, node.id, a, h)
  }

  lemma {:induction false} AddHopExplained(snap: Snapshot, node: Node, chains: seq<Chain>, a: nat, h: nat, acc: Parts)
    requires snap.Valid()
    requires a < |chains| && chains[a].enabled && h < |chains[a].hops|
    requires PartsExplained(snap, node, chains, a, h, acc)
    requires AddHop(snap, node, chains[a], h, acc).Ok?
    ensures PartsExplained(snap, node, chains, a, h + 1, AddHop(snap, node, chains[a], h, acc).value)
  {
    hide ResolveHopEndpoint, ChainOutboundTag, Text.TrimSpace;
    var next := AddHop(snap, node, chains[a], h, acc).value;
    assert forall x: nat, i: nat | Passed(x, i, a, h + 1) :: Passed(x, i, a, h) || (x == a && i == h);
    assert forall x: nat, i: nat | Passed(x, i, a, h) :: Passed(x, i, a, h + 1);
    if chains[a].hops[h].nodeId != node.id {
      assert forall x: nat, i: nat | HopHere(chains, node.id, x, i) && Passed(x, i, a, h + 1) :: Passed(x, i, a, h);
    } else {
      AddHopHere(snap, node, chains, a, h, acc);
    }
  }

  lemma {:induction false} AddHopHere(snap: Snapshot, node: Node, chains: seq<Chain>, a: nat, h: nat, acc: Parts)
    requires snap.Valid()
    requires HopHere(chains, node.id, a, h)
    requires PartsExplained(snap, node, chains, a, h, acc)
    requires AddHop(snap, node, chains[a], h, acc).Ok?
    ensures PartsExplained(snap, node, chains, a, h + 1, AddHop(snap, node, chains[a], h, acc).value)
  {
    hide ResolveHopEndpoint, ChainOutboundTag, Text.TrimSpace;
    var next := AddHop(snap, node, chains[a], h, acc).value;
    var id := chains[a].hops[h].inboundId;
    var inb := snap.inbounds[id];
    assert next.inbounds == acc.inbounds + [inb] && next.ids == acc.ids + {id};
    assert InboundsKnown(snap, next);
    assert next.routes == acc.routes + if h + 1 < |chains[a].hops| then [RouteOf(snap, node, chains, a, h)] else [];
    assert HopsIncluded(snap, node, chains, a, h + 1, next);
    assert HopsExclusive(chains, node.id, a, h + 1);
    forall r | r in next.routes
      ensures exists x: nat, i: nat :: RouteFor(snap, node, chains, x, i, r) && Passed(x, i, a, h + 1)
    {
      if r in acc.routes {
        var x: nat, i: nat :| RouteFor(snap, node, chains, x, i, r) && Passed(x, i, a, h);
        assert Passed(x, i, a, h + 1);
      } else {
        assert RouteFor(snap, node, chains, a, h, r) && Passed(a, h, a, h + 1);
      }
    }
  }

  lemma {:induction false} AddHopsExplained(snap: Snapshot, node: Node, chains: seq<Chain>, a: nat, h: nat, acc: Parts)
    requires snap.Valid()
    requires a < |chains| && chains[a].enabled && h <= |chains[a].hops|
    requires PartsExplained(snap, node, chains, a, h, acc)
    requires AddHops(snap, node, chains[a], h, acc).Ok?
    ensures PartsExplained(snap, node, chains, a + 1, 0, AddHops(snap, node, chains[a], h, acc).value)
    decreases |chains[a].hops| - h
  {
    hide AddHop;
    if h < |chains[a].hops| {
      AddHopExplained(snap, node, chains, a, h, acc);
      AddHopsExplained(snap, node, chains, a, h + 1, AddHop(snap, node, chains[a], h, acc).value);
    } else {
      NextChain(snap, node, chains, a, acc);
    }
  }

  lemma {:induction false} NextChain(snap: Snapshot, node: Node, chains: seq<Chain>, a: nat, acc: Parts)
    requires a < |chains|
    requires PartsExplained(snap, node, chains, a, if chains[a].enabled then |chains[a].hops| else 0, acc)
    ensures PartsExplained(snap, node, chains, a + 1, 0, acc)
  {
    hide ResolveHopEndpoint;
    var h := if chains[a].enabled then |chains[a].hops| else 0;
    assert forall x: nat, i: nat | HopHere(chains, node.id, x, i) :: Passed(x, i, a + 1, 0) <==> Passed(x, i, a, h);
    forall r | r in acc.routes
      ensures exists x: nat, i: nat :: RouteFor(snap, node, chains, x, i, r) && Passed(x, i, a + 1, 0)
    {
      var x: nat, i: nat :| RouteFor(snap, node, chains, x, i, r) && Passed(x, i, a, h);
      assert Passed(x, i, a + 1, 0);
    }
  }

  lemma {:induction false} AddChainsExplained(snap: Snapshot, node: Node, chains: seq<Chain>, a: nat, acc: Parts)
    requires snap.Valid() && a <= |chains|
    requires PartsExplained(snap, node, chains, a, 0, acc)
    requires AddChains(snap, node, chains, a, acc).Ok?
    ensures PartsExplained(snap, node, chains, |chains|, 0, AddChains(snap, node, chains, a, acc).value)
    decreases |chains| - a
  {
    hide AddHop, AddHops, PartsExplained;
    if a < |chains| {
      if chains[a].enabled {
        AddHopsExplained(snap, node, chains, a, 0, acc);
        AddChainsExplained(snap, node, chains, a + 1, AddHops(snap, node, chains[a], 0, acc).value);
      } else {
        NextChain(snap, node, chains, a, acc);
        AddChainsExplained(snap, node, chains, a + 1, acc);
      }
    }
  }

  // ----- The built document -----

  /** Everything a successful build went through. */
  ghost predicate BuiltFrom(
    snap: Snapshot, nodeId: string, chains: seq<Chain>, parts: Parts, ins: seq<Inbound>, doc: Converter.Document)
  {
    && nodeId in snap.nodes
    && AddChains(snap, snap.nodes[nodeId], chains, 0, Standalone(snap, nodeId)) == Ok(parts)
    && ApplyManagedTls(snap, nodeId, parts.inbounds) == Ok(ins)
    && Converter.Convert(ins, OptionsFor(snap, snap.nodes[nodeId], chains, parts)) == Ok(doc)
  }

  lemma {:induction false} BuildStages(snap: Snapshot, nodeId: string, chains: seq<Chain>)
    returns (parts: Parts, ins: seq<Inbound>, doc: Converter.Document)
    requires snap.Valid() && Build(snap, nodeId, chains).Ok?
    ensures BuiltFrom(snap, nodeId, chains, parts, ins, doc)
    ensures var built := Build(snap, nodeId, chains).value.config;
            built.rules == doc.rules && built.outbounds == doc.outbounds
    ensures |doc.inbounds| == |Converter.Enabled(ins)|
    ensures Relocate(Converter.Enabled(ins), 0, StartRelocation(doc.inbounds)).Ok?
    ensures Build(snap, nodeId, chains).value.config.inbounds
         == Relocate(Converter.Enabled(ins), 0, StartRelocation(doc.inbounds)).value.entries
    ensures Build(snap, nodeId, chains).value.frpc
         == Relocate(Converter.Enabled(ins), 0, StartRelocation(doc.inbounds)).value.frpc
  {
    hide AddChains, ApplyManagedTls, ResolvePlanRules, Converter.Convert, Relocate;
    var node := snap.nodes[nodeId];
    parts := AddChains(snap, node, chains, 0, Standalone(snap, node.id)).value;
    ins := ApplyManagedTls(snap, node.id, parts.inbounds).value;
    doc := ConvertParts(ins, OptionsFor(snap, node, chains, parts)).value;
  }
}
