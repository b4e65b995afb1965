/** What happens when two inbound tags of one node are equal. */
module TagCollisions {
  import opened Outcomes
  import opened Fleet
  import opened NodeConfig
  import opened ForwardingTable
  import opened ChainTables
  import opened FrpListeners
  import opened NodeTables
  import opened HopDecisions
  import opened FleetRouting
  import opened RouteOrder
  import Converter
  import Text

  /** The first rule that names the inbound tag, or the number of rules. */
  function FirstRuleFor(rules: seq<Converter.Rule>, tag: string, k: nat): (r: nat)
    requires k <= |rules|
    ensures k <= r <= |rules|
    ensures r < |rules| ==> rules[r].InboundRule? && rules[r].inboundTag == tag
    ensures forall j | k <= j < r :: !(rules[j].InboundRule? && rules[j].inboundTag == tag)
    decreases |rules| - k
  {
    if k == |rules| || (rules[k].InboundRule? && rules[k].inboundTag == tag) then k else FirstRuleFor(rules, tag, k + 1)
  }

  lemma {:induction false} FirstRuleDecides(snap: Snapshot, nodeId: string, chains: seq<Chain>, routes: seq<Converter.ChainRoute>,
                         tags: map<string, string>, doc: Converter.Document, x: nat, i: nat, conn: Conn)
    requires snap.Valid() && Table(snap, nodeId, chains, routes, tags, doc)
    requires HopsOwnedOnce(chains) && RelayHere(chains, nodeId, x, i)
    ensures var m := FirstRuleFor(doc.rules, HopTag(snap, chains, x, i), 0);
            && m < |doc.rules|
            && (Decide(doc, HopTag(snap, chains, x, i), conn) == NextHop(snap, chains, x, i)
                <==> doc.rules[m].outboundTag == ChainOutboundTag(chains[x].id, i))
  {
    hide Converter.EmitRules, ResolvePlanRules, ResolveHopEndpoint, ChainOutboundTag, Text.TrimSpace, Converter.InboundTag;
    var tag := HopTag(snap, chains, x, i);
    var k := RelayIndex(snap, nodeId, chains, routes, tags, doc, x, i);
    var m := FirstRuleFor(doc.rules, tag, 0);
    assert m <= k;
    FirstTakenDecides(doc.rules, m, doc.outbounds, tag, conn);
    assert routes[m] in routes;
    var y: nat, j: nat :| RouteFor(snap, snap.nodes[nodeId], chains, y, j, routes[m]);
    ViaDistinct(doc.outbounds, m + 1);
    assert doc.rules[m].outboundTag == routes[m].outbound.Tag() == doc.outbounds[m + 1].Tag();
    assert doc.outbounds[k + 1].Tag() == ChainOutboundTag(chains[x].id, i);
    NextHopLeadsOn(snap, chains, x, i);
    NextHopLeadsOn(snap, chains, y, j);
    assert Decide(doc, tag, conn) == NextHop(snap, chains, y, j);
    if m != k {
      assert doc.outbounds[m + 1].Tag() != doc.outbounds[k + 1].Tag();
      assert y != x || j != i;
    }
  }

  /** No relay hop of the node before this one, in the order of the chains and their hops, has
      the same inbound tag. */
  ghost predicate FirstOfTag(snap: Snapshot, chains: seq<Chain>, nodeId: string, x: nat, i: nat)
    requires x < |chains| && i < |chains[x].hops|
  {
    hide Converter.InboundTag;
    forall y: nat, j: nat | RelayHere(chains, nodeId, y, j) && Passed(y, j, x, i) ::
      HopTag(snap, chains, y, j) != HopTag(snap, chains, x, i)
  }

  /** The q-th chain rule is that of the q-th relay hop. */
  lemma {:induction false} RuleOfRelay(snap: Snapshot, nodeId: string, chains: seq<Chain>, routes: seq<Converter.ChainRoute>,
                    tags: map<string, string>, doc: Converter.Document, relays: seq<(nat, nat)>, q: nat)
    requires snap.Valid() && Table(snap, nodeId, chains, routes, tags, doc)
    requires RoutesAre(snap, snap.nodes[nodeId], chains, relays, 0, routes) && q < |relays|
    ensures RelayHere(chains, nodeId, relays[q].0, relays[q].1)
    ensures doc.rules[q] == Converter.InboundRule(HopTag(snap, chains, relays[q].0, relays[q].1),
                                                  ChainOutboundTag(chains[relays[q].0].id, relays[q].1))
  {
    hide Converter.EmitRules, ResolvePlanRules, ResolveHopEndpoint, ChainOutboundTag, Text.TrimSpace, Converter.InboundTag;
    assert RouteFor(snap, snap.nodes[nodeId], chains, relays[q].0, relays[q].1, routes[q]);
  }

  /** The leading rules are those of these relay hops, each with an outbound of its own. */
  ghost predicate RelayRules(snap: Snapshot, chains: seq<Chain>, nodeId: string, relays: seq<(nat, nat)>, rules: seq<Converter.Rule>) {
    hide Converter.InboundTag, ChainOutboundTag;
    && |relays| <= |rules|
    && (forall q | 0 <= q < |relays| ::
          && RelayHere(chains, nodeId, relays[q].0, relays[q].1)
          && rules[q] == Converter.InboundRule(HopTag(snap, chains, relays[q].0, relays[q].1),
                                               ChainOutboundTag(chains[relays[q].0].id, relays[q].1)))
    && (forall m, k | 0 <= m < k < |relays| :: rules[m].outboundTag != rules[k].outboundTag)
  }

  lemma {:induction false} TableRules(snap: Snapshot, nodeId: string, chains: seq<Chain>, routes: seq<Converter.ChainRoute>,
                   tags: map<string, string>, doc: Converter.Document, relays: seq<(nat, nat)>)
    requires snap.Valid() && Table(snap, nodeId, chains, routes, tags, doc)
    requires RoutesAre(snap, snap.nodes[nodeId], chains, relays, 0, routes)
    ensures RelayRules(snap, chains, nodeId, relays, doc.rules)
  {
    assert |relays| == |routes| <= |doc.rules|;
    forall q | 0 <= q < |relays|
      ensures RelayHere(chains, nodeId, relays[q].0, relays[q].1)
      ensures doc.rules[q] == Converter.InboundRule(HopTag(snap, chains, relays[q].0, relays[q].1),
                                                    ChainOutboundTag(chains[relays[q].0].id, relays[q].1))
    {
      RuleOfRelay(snap, nodeId, chains, routes, tags, doc, relays, q);
    }
    forall m, k | 0 <= m < k < |relays| ensures doc.rules[m].outboundTag != doc.rules[k].outboundTag {
      OwnTagDiffers(snap, nodeId, chains, routes, tags, doc, m, k);
    }
    hide Table, RoutesAre, HopTag, ChainOutboundTag, RelayHere;
  }

  lemma {:induction false} FirstRuleIsOwn(snap: Snapshot, nodeId: string, chains: seq<Chain>, rules: seq<Converter.Rule>, x: nat, i: nat)
    requires RelayRules(snap, chains, nodeId, Relays(chains, nodeId, 0, 0), rules) && RelayHere(chains, nodeId, x, i)
    ensures var m := FirstRuleFor(rules, HopTag(snap, chains, x, i), 0);
            && m < |rules|
            && (rules[m].outboundTag == ChainOutboundTag(chains[x].id, i) <==> FirstOfTag(snap, chains, nodeId, x, i))
  {
    hide Relays, HopTag, ChainOutboundTag, FirstRuleFor, Passed;
    var relays := Relays(chains, nodeId, 0, 0);
    var k := RelayAt(chains, nodeId, x, i);
    var m := FirstRuleFor(rules, HopTag(snap, chains, x, i), 0);
    assert m <= k;
    if m < k {
      RelayBefore(chains, nodeId, m, k);
      assert HopTag(snap, chains, relays[m].0, relays[m].1) == HopTag(snap, chains, x, i);
    } else {
      forall y: nat, j: nat | RelayHere(chains, nodeId, y, j) && Passed(y, j, x, i)
        ensures HopTag(snap, chains, y, j) != HopTag(snap, chains, x, i)
      {
        var q := RelayAt(chains, nodeId, y, j);
        RelayBefore(chains, nodeId, q, k);
      }
    }
  }

  lemma {:induction false} OwnTagDiffers(snap: Snapshot, nodeId: string, chains: seq<Chain>, routes: seq<Converter.ChainRoute>,
                      tags: map<string, string>, doc: Converter.Document, m: nat, k: nat)
    requires Table(snap, nodeId, chains, routes, tags, doc) && m < k < |routes|
    ensures doc.rules[m].InboundRule? && doc.rules[k].InboundRule? && doc.rules[m].outboundTag != doc.rules[k].outboundTag
  {
    hide Converter.EmitRules, ResolvePlanRules, RoutesSourced, HopsTagged, RelaysRouted;
    assert doc.outbounds[m + 1].Tag() != doc.outbounds[k + 1].Tag();
  }

  /** Without assuming distinct tags: a relay hop serves its own chain exactly when no relay hop
      before it on the node, in the order of the chains and their hops, has the same tag. */
  lemma {:induction false} RelayFollowsChainIff(snap: Snapshot, nodeId: string, chains: seq<Chain>, x: nat, i: nat, conn: Conn)
    requires snap.Valid() && Build(snap, nodeId, chains).Ok?
    requires HopsOwnedOnce(chains) && RelayHere(chains, nodeId, x, i)
    ensures Decide(Build(snap, nodeId, chains).value.config, HopTag(snap, chains, x, i), conn) == NextHop(snap, chains, x, i)
            <==> FirstOfTag(snap, chains, nodeId, x, i)
  {
    hide Converter.InboundTag, AddChains, ApplyManagedTls, Converter.Convert, Build, ResolveHopEndpoint, OptionsFor,
         ChainOutboundTag, FirstRuleFor, FirstOfTag, RoutesAre, Relays;
    var parts, ins, doc := BuiltListeners(snap, nodeId, chains);
    var tags := BuiltTable(snap, nodeId, chains, parts, ins, doc);
    BuiltRoutes(snap, nodeId, chains, parts);
    FirstRuleDecides(snap, nodeId, chains, parts.routes, tags, doc, x, i, conn);
    TableRules(snap, nodeId, chains, parts.routes, tags, doc, Relays(chains, nodeId, 0, 0));
    FirstRuleIsOwn(snap, nodeId, chains, doc.rules, x, i);
    DecideByTable(Build(snap, nodeId, chains).value.config, doc, HopTag(snap, chains, x, i), conn);
  }

  lemma {:induction false} DecideByTable(a: Converter.Document, b: Converter.Document, tag: string, conn: Conn)
    requires a.rules == b.rules && a.outbounds == b.outbounds
    ensures Decide(a, tag, conn) == Decide(b, tag, conn)
  {
  }

  /** Equal names and equal first eight id characters, as two UUIDs may have, give equal tags. */
  lemma {:induction false} LongIdsCollide(a: Inbound, b: Inbound)
    requires a.name == b.name
    requires |a.id| >= 8 && |b.id| >= 8 && a.id[..8] == b.id[..8]
    requires forall k | 0 <= k < 8 :: Converter.IsTagChar(a.id[k])
    requires !Text.IsSpace(a.id[|a.id| - 1]) && !Text.IsSpace(b.id[|b.id| - 1])
    ensures Converter.InboundTag(a) == Converter.InboundTag(b)
  {
    hide Converter.DashRuns, Converter.TrimDashes, Converter.TagCharsOnly, Text.TrimSpace, Text.ToLower;
    IdPrefix(a.id);
    IdPrefix(b.id);
  }

  lemma {:induction false} IdPrefix(id: string)
    requires |id| >= 8 && (forall k | 0 <= k < 8 :: Converter.IsTagChar(id[k])) && !Text.IsSpace(id[|id| - 1])
    ensures Text.Prefix(Converter.TagCharsOnly(Text.ToLower(Text.TrimSpace(id))), 8) == id[..8]
  {
    Text.TrimSpaceIdentity(id);
    var lower := Text.ToLower(id);
    assert lower[..8] == id[..8];
    assert forall k | 0 <= k < 8 :: lower[k] == id[k];
    hide Text.TrimSpace, Text.ToLower;
    KeepsTagChars(lower, 8);
  }

  lemma {:induction false} KeepsTagChars(s: string, n: nat)
    requires n <= |s| && forall k | 0 <= k < n :: Converter.IsTagChar(s[k])
    ensures |Converter.TagCharsOnly(s)| >= n && Converter.TagCharsOnly(s)[..n] == s[..n]
    decreases n
  {
    if n > 0 {
      KeepsTagChars(s[1..], n - 1);
      var rest := Converter.TagCharsOnly(s[1..]);
      assert Converter.TagCharsOnly(s) == [s[0]] + rest;
      assert ([s[0]] + rest)[..n] == [s[0]] + rest[..n - 1];
    }
  }

  /** The node of the chain's first hop runs its built table, and the hop is the first relay hop
      with its tag. */
  ghost predicate EntryFirst(snap: Snapshot, chains: seq<Chain>, fleet: map<string, Converter.Document>, c: nat)
    requires c < |chains| && |chains[c].hops| == 2
  {
    hide Build, Converter.InboundTag;
    var node := chains[c].hops[0].nodeId;
    && Build(snap, node, chains).Ok?
    && node in fleet && fleet[node] == Build(snap, node, chains).value.config
    && FirstOfTag(snap, chains, node, c, 0)
  }

  /** Distinct tags are needed for termination: two 2-hop chains that cross, with each exit's
      tag equal to the other chain's entry tag, keep a connection circling for ever. */
  lemma {:induction false} CollidingTagsLoop(
    snap: Snapshot, chains: seq<Chain>, fleet: map<string, Converter.Document>, conn: Conn, a: nat, b: nat, n: nat)
    requires snap.Valid() && HopsOwnedOnce(chains)
    requires a < |chains| && b < |chains| && chains[a].enabled && chains[b].enabled
    requires |chains[a].hops| == 2 && |chains[b].hops| == 2
    requires chains[a].hops[0].nodeId == chains[b].hops[1].nodeId && chains[a].hops[1].nodeId == chains[b].hops[0].nodeId
    requires HopTag(snap, chains, a, 1) == HopTag(snap, chains, b, 0)
    requires HopTag(snap, chains, b, 1) == HopTag(snap, chains, a, 0)
    requires EntryFirst(snap, chains, fleet, a) && EntryFirst(snap, chains, fleet, b)
    ensures Walk(snap, fleet, conn, AtHop(snap, chains, a, 0), n) == AtHop(snap, chains, if n % 2 == 0 then a else b, 0)
    decreases n
  {
    hide Converter.InboundTag, EntryFirst, Step;
    if n > 0 {
      CrossingStep(snap, chains, fleet, conn, a);
      assert Step(snap, fleet, conn, AtHop(snap, chains, a, 0)) == AtHop(snap, chains, b, 0);
      CollidingTagsLoop(snap, chains, fleet, conn, b, a, n - 1);
    }
  }

  lemma {:induction false} CrossingStep(snap: Snapshot, chains: seq<Chain>, fleet: map<string, Converter.Document>, conn: Conn, c: nat)
    requires snap.Valid() && HopsOwnedOnce(chains)
    requires c < |chains| && chains[c].enabled && |chains[c].hops| == 2
    requires EntryFirst(snap, chains, fleet, c)
    ensures Step(snap, fleet, conn, AtHop(snap, chains, c, 0)) == AtHop(snap, chains, c, 1)
  {
    hide Converter.InboundTag, Build, Decide, ResolveHopEndpoint, ChainOutboundTag, FirstOfTag;
    var node := chains[c].hops[0].nodeId;
    assert RelayHere(chains, node, c, 0);
    RelayFollowsChainIff(snap, node, chains, c, 0, conn);
    RelayReady(snap, node, chains, c, 0);
    NextHopLeadsOn(snap, chains, c, 0);
  }

  lemma {:induction false} RelayReady(snap: Snapshot, nodeId: string, chains: seq<Chain>, x: nat, i: nat)
    requires snap.Valid() && Build(snap, nodeId, chains).Ok? && RelayHere(chains, nodeId, x, i)
    ensures ResolveHopEndpoint(snap, chains[x], i + 1).Ok?
  {
    hide Converter.InboundTag, AddChains, ApplyManagedTls, Converter.Convert, Build, ResolveHopEndpoint, OptionsFor;
    var parts, ins, doc := BuiltListeners(snap, nodeId, chains);
    var tags := BuiltTable(snap, nodeId, chains, parts, ins, doc);
    assert RelaysRouted(snap, snap.nodes[nodeId], chains, parts.routes);
  }
}
