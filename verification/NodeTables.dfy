/** The decisions of one built node table, in terms of the chains and plans behind it. */
module NodeTables {
  import opened Outcomes
  import opened Fleet
  import opened NodeConfig
  import opened ForwardingTable
  import opened ChainTables
  import Converter
  import Text

  /** No two listeners of the node share an inbound tag. Ids are cut to eight characters, so
      this is a fact about a built document, to be checked before it is rolled out. */
  ghost predicate DistinctTags(doc: Converter.Document) {
    forall j, k | 0 <= j < k < |doc.inbounds| :: doc.inbounds[j].tag != doc.inbounds[k].tag
  }

  ghost function HopTag(snap: Snapshot, chains: seq<Chain>, x: nat, i: nat): string
    requires x < |chains| && i < |chains[x].hops|
  {
    var id := chains[x].hops[i].inboundId;
    if id in snap.inbounds then Converter.InboundTag(snap.inbounds[id]) else ""
  }

  ghost function NextHop(snap: Snapshot, chains: seq<Chain>, x: nat, i: nat): Decision
    requires x < |chains| && i + 1 < |chains[x].hops|
  {
    var endpoint := ResolveHopEndpoint(snap, chains[x], i + 1);
    if endpoint.Ok? then Forward(endpoint.value) else Drop
  }

  /** The endpoint of an outbound is the node and inbound of the following hop. */
  lemma {:induction false} NextHopLeadsOn(snap: Snapshot, chains: seq<Chain>, x: nat, i: nat)
    requires x < |chains| && i + 1 < |chains[x].hops|
    requires ResolveHopEndpoint(snap, chains[x], i + 1).Ok?
    ensures var next := NextHop(snap, chains, x, i);
            && next.Forward?
            && next.endpoint.nodeId == chains[x].hops[i + 1].nodeId
            && next.endpoint.inboundId == chains[x].hops[i + 1].inboundId
  {
    hide FirstNonEmpty, MapPublicPort, Text.TrimSpace;
  }

  lemma {:induction false} ChainTagTrimmed(chainId: string, position: nat)
    ensures Text.TrimSpace(ChainOutboundTag(chainId, position)) == ChainOutboundTag(chainId, position)
    ensures ChainOutboundTag(chainId, position) != ""
  {
    hide Text.Decimal, Text.Without, Text.Prefix, Text.ToLower;
    var tag := ChainOutboundTag(chainId, position);
    assert tag[0] == 'c' && tag[|tag| - 1] == 't';
    Text.TrimSpaceIdentity(tag);
  }

  // ----- From a built document to its table -----

  /** The parts of a built document the forwarding argument needs. `tags` maps the id of each
      enabled inbound to its tag; `routes` are the chain routes behind the leading rules. */
  ghost predicate Table(
    snap: Snapshot, nodeId: string, chains: seq<Chain>, routes: seq<Converter.ChainRoute>,
    tags: map<string, string>, doc: Converter.Document)
  {
    hide Converter.EmitRules, ResolvePlanRules, RoutesSourced, HopsTagged, RelaysRouted;
    && nodeId in snap.nodes
    && Converter.DistinctOutbounds(doc)
    && Converter.ChainRulesLead(doc, routes, tags)
    && doc.rules[|routes|..]
       == Converter.EmitRules(ResolvePlanRules(FlatRules(snap.plans), chains, nodeId), Converter.Tags(doc.outbounds))
    && HopsExclusive(chains, nodeId, |chains|, 0)
    && RoutesSourced(snap, snap.nodes[nodeId], chains, routes)
    && HopsTagged(snap, chains, nodeId, tags)
    && RelaysRouted(snap, snap.nodes[nodeId], chains, routes)
  }

  ghost predicate RoutesSourced(snap: Snapshot, node: Node, chains: seq<Chain>, routes: seq<Converter.ChainRoute>) {
    forall r | r in routes :: exists x: nat, i: nat :: RouteFor(snap, node, chains, x, i, r)
  }

  ghost predicate HopsTagged(snap: Snapshot, chains: seq<Chain>, nodeId: string, tags: map<string, string>) {
    hide Converter.InboundTag;
    forall x: nat, i: nat | HopHere(chains, nodeId, x, i) ::
      && chains[x].hops[i].inboundId in tags
      && tags[chains[x].hops[i].inboundId] == HopTag(snap, chains, x, i)
  }

  ghost predicate RelaysRouted(snap: Snapshot, node: Node, chains: seq<Chain>, routes: seq<Converter.ChainRoute>) {
    hide ResolveHopEndpoint, ChainOutboundTag, Text.TrimSpace;
    forall x: nat, i: nat | RelayHere(chains, node.id, x, i) ::
      && ResolveHopEndpoint(snap, chains[x], i + 1).Ok?
      && RouteOf(snap, node, chains, x, i) in routes
  }

  lemma {:induction false} TlsKeepsTags(snap: Snapshot, nodeId: string, before: seq<Inbound>, ins: seq<Inbound>)
    requires ApplyManagedTls(snap, nodeId, before) == Ok(ins)
    ensures Converter.DistinctIds(before) ==> Converter.DistinctIds(ins)
    ensures forall b | b in before ::
              exists c :: c in ins && c.id == b.id && c.enabled == b.enabled && Converter.InboundTag(c) == Converter.InboundTag(b)
  {
    ManagedTlsIff(snap, nodeId, before);
    hide Converter.InboundTag, ApplyManagedTls;
    forall b | b in before
      ensures exists c :: c in ins && c.id == b.id && c.enabled == b.enabled && Converter.InboundTag(c) == Converter.InboundTag(b)
    {
      var k :| 0 <= k < |before| && before[k] == b;
      assert ins[k] in ins && SameButCertificate(ins[k], b);
      SameTag(ins[k], b);
    }
  }

  lemma {:induction false} SameTag(c: Inbound, b: Inbound)
    requires SameButCertificate(c, b)
    ensures c.id == b.id && c.enabled == b.enabled && Converter.InboundTag(c) == Converter.InboundTag(b)
  {
    hide Text.TrimSpace, Text.ToLower, Text.Prefix, Converter.DashRuns, Converter.TrimDashes, Converter.TagCharsOnly;
  }

  lemma {:induction false} PartsOf(snap: Snapshot, nodeId: string, chains: seq<Chain>, parts: Parts)
    requires snap.Valid() && nodeId in snap.nodes
    requires AddChains(snap, snap.nodes[nodeId], chains, 0, Standalone(snap, nodeId)) == Ok(parts)
    ensures PartsExplained(snap, snap.nodes[nodeId], chains, |chains|, 0, parts)
  {
    hide AddChains;
    var start := Standalone(snap, nodeId);
    assert forall x: nat, i: nat :: !Passed(x, i, 0, 0);
    assert PartsExplained(snap, snap.nodes[nodeId], chains, 0, 0, start);
    AddChainsExplained(snap, snap.nodes[nodeId], chains, 0, start);
  }

  lemma {:induction false} HopTagged(snap: Snapshot, nodeId: string, chains: seq<Chain>, parts: Parts, ins: seq<Inbound>,
                  tags: map<string, string>, x: nat, i: nat)
    requires nodeId in snap.nodes && HopsIncluded(snap, snap.nodes[nodeId], chains, |chains|, 0, parts)
    requires snap.Valid()
    requires ApplyManagedTls(snap, nodeId, parts.inbounds) == Ok(ins)
    requires Converter.TagsInbounds(tags, ins)
    requires HopHere(chains, nodeId, x, i)
    ensures chains[x].hops[i].inboundId in tags
    ensures tags[chains[x].hops[i].inboundId] == HopTag(snap, chains, x, i)
  {
    hide Converter.InboundTag, ApplyManagedTls, ResolveHopEndpoint;
    assert Passed(x, i, |chains|, 0);
    var b := snap.inbounds[chains[x].hops[i].inboundId];
    assert b in parts.inbounds && b.enabled;
    TlsKeepsTags(snap, nodeId, parts.inbounds, ins);
    var c :| c in ins && c.id == b.id && c.enabled == b.enabled && Converter.InboundTag(c) == Converter.InboundTag(b);
  }

  lemma {:induction false} BuiltTable(snap: Snapshot, nodeId: string, chains: seq<Chain>, parts: Parts, ins: seq<Inbound>, doc: Converter.Document)
    returns (tags: map<string, string>)
    requires snap.Valid() && BuiltFrom(snap, nodeId, chains, parts, ins, doc)
    ensures Converter.TagsInbounds(tags, ins)
    ensures Table(snap, nodeId, chains, parts.routes, tags, doc)
    ensures Converter.NoDanglingRule(doc)
  {
    hide Converter.Convert, Converter.EmitRules, Converter.InboundTag, AddChains, ApplyManagedTls, ResolvePlanRules,
         ResolveHopEndpoint, ChainOutboundTag, Text.TrimSpace;
    var node := snap.nodes[nodeId];
    PartsOf(snap, nodeId, chains, parts);
    TlsKeepsTags(snap, nodeId, parts.inbounds, ins);
    tags := Converter.ConvertedTable(ins, OptionsFor(snap, node, chains, parts));
    forall x: nat, i: nat | HopHere(chains, nodeId, x, i)
      ensures chains[x].hops[i].inboundId in tags && tags[chains[x].hops[i].inboundId] == HopTag(snap, chains, x, i)
      ensures RelayHere(chains, nodeId, x, i) ==>
                ResolveHopEndpoint(snap, chains[x], i + 1).Ok? && RouteOf(snap, node, chains, x, i) in parts.routes
    {
      assert Passed(x, i, |chains|, 0);
      HopTagged(snap, nodeId, chains, parts, ins, tags, x, i);
    }
    forall r | r in parts.routes ensures exists x: nat, i: nat :: RouteFor(snap, node, chains, x, i, r) {
      var x: nat, i: nat :| RouteFor(snap, node, chains, x, i, r) && Passed(x, i, |chains|, 0);
    }
  }
}
