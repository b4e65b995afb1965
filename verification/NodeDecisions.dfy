/** The decisions of a successfully built node configuration. */
module NodeDecisions {
  import opened Outcomes
  import opened Fleet
  import opened NodeConfig
  import opened ForwardingTable
  import opened ChainTables
  import opened FrpListeners
  import opened NodeTables
  import opened HopDecisions
  import Converter
  import Text

  lemma {:induction false} EmitConcat(a: seq<Converter.PlannedRule>, b: seq<Converter.PlannedRule>, outboundTags: set<string>)
    ensures Converter.EmitRules(a + b, outboundTags) == Converter.EmitRules(a, outboundTags) + Converter.EmitRules(b, outboundTags)
  {
    hide Converter.EmitRule;
    if a == [] {
      assert a + b == b;
    } else {
      assert (a + b)[0] == a[0] && (a + b)[1..] == a[1..] + b;
      EmitConcat(a[1..], b, outboundTags);
    }
  }

  function CompiledPlan(rules: seq<PlanRule>, chains: seq<Chain>, nodeId: string, outboundTags: set<string>): seq<Converter.Rule> {
    Converter.EmitRules(ResolvePlanRules(rules, chains, nodeId), outboundTags)
  }

  /** A compiled plan decides as the first plan rule that applies on the node. */
  lemma {:induction false} CompiledPlanDecides(
    rules: seq<PlanRule>, g: nat, snap: Snapshot, chains: seq<Chain>, nodeId: string,
    outbounds: seq<Converter.Outbound>, tag: string, conn: Conn)
    requires OutboundsServe(snap, chains, nodeId, outbounds) && g <= |rules|
    ensures var sel := Selected(rules, g, snap, chains, nodeId, conn);
            DecideFrom(CompiledPlan(rules[g..], chains, nodeId, Converter.Tags(outbounds)), outbounds, tag, conn)
            == if sel == |rules| then Leave else PlanAction(rules[sel], snap, chains, nodeId).value
    decreases |rules| - g
  {
    hide PlanAction, ResolvePlanRule, Converter.EmitRule, OutboundsServe, Converter.Tags, Text.TrimSpace, Via;
    if g < |rules| {
      var rest := rules[g..];
      var tags := Converter.Tags(outbounds);
      assert rest[0] == rules[g] && rest[1..] == rules[g + 1..];
      var first := Converter.EmitRules(ResolvePlanRule(rules[g], chains, nodeId), tags);
      EmitConcat(ResolvePlanRule(rules[g], chains, nodeId), ResolvePlanRules(rest[1..], chains, nodeId), tags);
      var tail := CompiledPlan(rest[1..], chains, nodeId, tags);
      assert CompiledPlan(rest, chains, nodeId, tags) == first + tail;
      PlanRuleCompiles(rules[g], snap, chains, nodeId, outbounds);
      CompiledPlanDecides(rules, g + 1, snap, chains, nodeId, outbounds, tag, conn);
      if PlanAction(rules[g], snap, chains, nodeId).None? {
        assert first + tail == tail;
      } else {
        assert (first + tail)[0] == first[0] && (first + tail)[1..] == tail;
      }
    } else {
      assert rules[g..] == [];
    }
  }

  /** Traffic whose inbound serves no relay hop follows the plans. */
  lemma {:induction false} TransitDecision(snap: Snapshot, nodeId: string, chains: seq<Chain>, routes: seq<Converter.ChainRoute>,
                        tags: map<string, string>, doc: Converter.Document, tag: string, conn: Conn)
    requires snap.Valid() && Table(snap, nodeId, chains, routes, tags, doc)
    requires forall y: nat, j: nat | RelayHere(chains, nodeId, y, j) :: HopTag(snap, chains, y, j) != tag
    ensures Decide(doc, tag, conn) == PlanDecision(snap, chains, nodeId, conn)
  {
    hide Converter.EmitRules, ResolvePlanRules, ResolveHopEndpoint, ChainOutboundTag, Text.TrimSpace, Converter.InboundTag,
         PlanAction, OutboundsServe;
    TableServes(snap, nodeId, chains, routes, tags, doc);
    forall j | 0 <= j < |routes| ensures !Takes(doc.rules[j], tag, conn) {
      assert routes[j] in routes;
      var y: nat, h: nat :| RouteFor(snap, snap.nodes[nodeId], chains, y, h, routes[j]);
      assert doc.rules[j] == Converter.InboundRule(HopTag(snap, chains, y, h), routes[j].outbound.Tag());
    }
    SkipUntaken(doc.rules, |routes|, doc.outbounds, tag, conn);
    var rules := FlatRules(snap.plans);
    assert rules[0..] == rules;
    CompiledPlanDecides(rules, 0, snap, chains, nodeId, doc.outbounds, tag, conn);
  }

  /** The enabled inbound behind an id the tag map knows. */
  lemma {:induction false} TagOwner(ins: seq<Inbound>, tags: map<string, string>, id: string) returns (k: nat)
    requires Converter.TagsInbounds(tags, ins) && id in tags
    ensures k < |Converter.Enabled(ins)|
    ensures Converter.Enabled(ins)[k].id == id
    ensures Converter.InboundTag(Converter.Enabled(ins)[k]) == tags[id]
  {
    hide Converter.InboundTag;
    var p :| p in ins && p.enabled && p.id == id;
    assert p in Converter.Enabled(ins);
    k :| 0 <= k < |Converter.Enabled(ins)| && Converter.Enabled(ins)[k] == p;
  }

  ghost predicate EntriesCarryTags(ins: seq<Inbound>, out: seq<Converter.Entry>) {
    hide Converter.InboundTag;
    && |out| == |Converter.Enabled(ins)|
    && forall k | 0 <= k < |out| :: out[k].tag == Converter.InboundTag(Converter.Enabled(ins)[k])
  }

  lemma {:induction false} EqualTagsSameHop(
    snap: Snapshot, nodeId: string, chains: seq<Chain>, ins: seq<Inbound>,
    tags: map<string, string>, out: seq<Converter.Entry>, x: nat, i: nat, y: nat, j: nat)
    requires Converter.TagsInbounds(tags, ins) && HopsTagged(snap, chains, nodeId, tags)
    requires HopsExclusive(chains, nodeId, |chains|, 0)
    requires EntriesCarryTags(ins, out)
    requires forall k, l | 0 <= k < l < |out| :: out[k].tag != out[l].tag
    requires HopHere(chains, nodeId, x, i) && HopHere(chains, nodeId, y, j)
    requires HopTag(snap, chains, x, i) == HopTag(snap, chains, y, j)
    ensures x == y && i == j
  {
    hide Converter.InboundTag, Converter.Enabled, Converter.TagsInbounds;
    var a, b := chains[x].hops[i].inboundId, chains[y].hops[j].inboundId;
    assert Passed(x, i, |chains|, 0) && Passed(y, j, |chains|, 0);
    var k := TagOwner(ins, tags, a);
    var l := TagOwner(ins, tags, b);
    assert out[k].tag == out[l].tag;
    assert k == l;
  }

  /** The table of a successful build whose inbound tags are distinct. */
  ghost predicate Decides(snap: Snapshot, nodeId: string, chains: seq<Chain>, config: Converter.Document) {
    hide Converter.InboundTag;
    && (forall x: nat, i: nat, conn: Conn | RelayHere(chains, nodeId, x, i) ::
          Decide(config, HopTag(snap, chains, x, i), conn) == NextHop(snap, chains, x, i))
    && (forall tag: string, conn: Conn |
          (forall y: nat, j: nat | RelayHere(chains, nodeId, y, j) :: HopTag(snap, chains, y, j) != tag) ::
          Decide(config, tag, conn) == PlanDecision(snap, chains, nodeId, conn))
    && (forall x: nat, i: nat, y: nat, j: nat |
          HopHere(chains, nodeId, x, i) && HopHere(chains, nodeId, y, j)
          && HopTag(snap, chains, x, i) == HopTag(snap, chains, y, j) ::
          x == y && i == j)
    && (forall x: nat, i: nat | RelayHere(chains, nodeId, x, i) :: ResolveHopEndpoint(snap, chains[x], i + 1).Ok?)
  }

  /** Chain meaning of one node: whatever the plans say, traffic on a relay hop's inbound goes
      to the next hop of that chain; traffic on any other inbound, a chain exit included, does
      what the first applicable plan rule says. Every rule names an outbound that exists. */
  lemma {:induction false} BuiltDecides(snap: Snapshot, nodeId: string, chains: seq<Chain>)
    requires snap.Valid() && Build(snap, nodeId, chains).Ok?
    requires DistinctTags(Build(snap, nodeId, chains).value.config)
    ensures Decides(snap, nodeId, chains, Build(snap, nodeId, chains).value.config)
    ensures Converter.NoDanglingRule(Build(snap, nodeId, chains).value.config)
  {
    hide Converter.InboundTag, AddChains, ApplyManagedTls, Converter.Convert, Build, PlanDecision, ResolveHopEndpoint, OptionsFor;
    var config := Build(snap, nodeId, chains).value.config;
    var parts, ins, doc := BuiltListeners(snap, nodeId, chains);
    var tags := BuiltTable(snap, nodeId, chains, parts, ins, doc);
    assert EntriesCarryTags(ins, config.inbounds) by {
      hide FrpPortsExclusive;
    }
    assert forall tag, conn :: Decide(config, tag, conn) == Decide(doc, tag, conn);
    forall x: nat, i: nat, y: nat, j: nat |
      HopHere(chains, nodeId, x, i) && HopHere(chains, nodeId, y, j) && HopTag(snap, chains, x, i) == HopTag(snap, chains, y, j)
      ensures x == y && i == j
    {
      EqualTagsSameHop(snap, nodeId, chains, ins, tags, config.inbounds, x, i, y, j);
    }
    forall x: nat, i: nat, conn: Conn | RelayHere(chains, nodeId, x, i)
      ensures Decide(config, HopTag(snap, chains, x, i), conn) == NextHop(snap, chains, x, i)
    {
      RelayDecision(snap, nodeId, chains, parts.routes, tags, doc, x, i, conn);
    }
    forall tag: string, conn: Conn |
      (forall y: nat, j: nat | RelayHere(chains, nodeId, y, j) :: HopTag(snap, chains, y, j) != tag)
      ensures Decide(config, tag, conn) == PlanDecision(snap, chains, nodeId, conn)
    {
      TransitDecision(snap, nodeId, chains, parts.routes, tags, doc, tag, conn);
    }
  }
}
