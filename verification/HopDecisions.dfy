/** Where one node sends a connection: a relay hop hands it to the next hop of its own chain,
    anything else follows the first applicable global rule. */
module HopDecisions {
  import opened Outcomes
  import opened Fleet
  import opened NodeConfig
  import opened ForwardingTable
  import opened ChainTables
  import opened NodeTables
  import Converter
  import Text

  // ----- The specification of a plan decision -----

  function EntryChain(chains: seq<Chain>, chainId: string, x: nat): nat
    requires x <= |chains|
    decreases |chains| - x
  {
    if x == |chains| || (chains[x].id == chainId && chains[x].enabled) then x else EntryChain(chains, chainId, x + 1)
  }

  function EntryHop(chain: Chain, nodeId: string, i: nat): nat
    requires i <= |chain.hops|
    decreases |chain.hops| - i
  {
    if i == |chain.hops| || chain.hops[i].nodeId == nodeId then i else EntryHop(chain, nodeId, i + 1)
  }

  /** What one plan rule does on a node, and nothing when the node's table has no such rule. */
  ghost function PlanAction(rule: PlanRule, snap: Snapshot, chains: seq<Chain>, nodeId: string): Option<Decision> {
    if !rule.enabled || !Converter.SupportedMatch(rule.matchType, rule.matchValue) then None
    else if rule.action == "direct" then Some(Leave)
    else if rule.action == "block" then Some(Drop)
    else if rule.action == "proxy" then
      var x := EntryChain(chains, rule.targetChainId, 0);
      if x >= |chains| then None
      else
        var i := EntryHop(chains[x], nodeId, 0);
        if i >= |chains[x].hops| then None
        else if i == |chains[x].hops| - 1 then Some(Leave)
        else Some(NextHop(snap, chains, x, i))
    else None
  }

  ghost predicate RuleApplies(rule: PlanRule, snap: Snapshot, chains: seq<Chain>, nodeId: string, conn: Conn) {
    PlanAction(rule, snap, chains, nodeId).Some? && conn(rule.matchType, Text.TrimSpace(rule.matchValue))
  }

  /** The index of the first plan rule that applies on the node, or the number of rules. */
  ghost function Selected(rules: seq<PlanRule>, g: nat, snap: Snapshot, chains: seq<Chain>, nodeId: string, conn: Conn): (r: nat)
    requires g <= |rules|
    ensures g <= r <= |rules|
    ensures r < |rules| ==> RuleApplies(rules[r], snap, chains, nodeId, conn)
    ensures forall k | g <= k < r :: !RuleApplies(rules[k], snap, chains, nodeId, conn)
    decreases |rules| - g
  {
    if g == |rules| || RuleApplies(rules[g], snap, chains, nodeId, conn) then g
    else Selected(rules, g + 1, snap, chains, nodeId, conn)
  }

  ghost function PlanDecision(snap: Snapshot, chains: seq<Chain>, nodeId: string, conn: Conn): Decision {
    var rules := FlatRules(snap.plans);
    var g := Selected(rules, 0, snap, chains, nodeId, conn);
    if g == |rules| then Leave else PlanAction(rules[g], snap, chains, nodeId).value
  }

  // ----- The outbounds of a table -----

  ghost predicate OutboundsServe(snap: Snapshot, chains: seq<Chain>, nodeId: string, outbounds: seq<Converter.Outbound>) {
    && "direct" in Converter.Tags(outbounds)
    && Via(outbounds, "direct") == Leave
    && forall x: nat, i: nat | RelayHere(chains, nodeId, x, i) ::
         && ChainOutboundTag(chains[x].id, i) in Converter.Tags(outbounds)
         && Via(outbounds, ChainOutboundTag(chains[x].id, i)) == NextHop(snap, chains, x, i)
  }

  lemma {:induction false} TableServes(snap: Snapshot, nodeId: string, chains: seq<Chain>, routes: seq<Converter.ChainRoute>,
                    tags: map<string, string>, doc: Converter.Document)
    requires snap.Valid() && Table(snap, nodeId, chains, routes, tags, doc)
    ensures OutboundsServe(snap, chains, nodeId, doc.outbounds)
  {
    hide Converter.EmitRules, ResolvePlanRules, ResolveHopEndpoint, ChainOutboundTag, Text.TrimSpace, RoutesSourced, HopsTagged;
    var outs := doc.outbounds;
    ViaDistinct(outs, 0);
    assert outs[0].Tag() == "direct";
    forall x: nat, i: nat | RelayHere(chains, nodeId, x, i)
      ensures ChainOutboundTag(chains[x].id, i) in Converter.Tags(outs)
      ensures Via(outs, ChainOutboundTag(chains[x].id, i)) == NextHop(snap, chains, x, i)
    {
      var r := RouteOf(snap, snap.nodes[nodeId], chains, x, i);
      var k :| 0 <= k < |routes| && routes[k] == r;
      assert outs[k + 1] == r.outbound && r.outbound.Tag() == ChainOutboundTag(chains[x].id, i);
      ViaDistinct(outs, k + 1);
    }
  }

  // ----- Relay hops -----

  /** The position of a relay's own rule among the chain rules. */
  lemma {:induction false} RelayIndex(snap: Snapshot, nodeId: string, chains: seq<Chain>, routes: seq<Converter.ChainRoute>,
                   tags: map<string, string>, doc: Converter.Document, x: nat, i: nat) returns (k: nat)
    requires snap.Valid() && Table(snap, nodeId, chains, routes, tags, doc)
    requires RelayHere(chains, nodeId, x, i)
    ensures k < |routes| && ResolveHopEndpoint(snap, chains[x], i + 1).Ok?
    ensures routes[k] == RouteOf(snap, snap.nodes[nodeId], chains, x, i)
    ensures doc.rules[k] == Converter.InboundRule(HopTag(snap, chains, x, i), ChainOutboundTag(chains[x].id, i))
    ensures Act(doc.rules[k], doc.outbounds) == NextHop(snap, chains, x, i)
  {
    hide Converter.EmitRules, ResolvePlanRules, ResolveHopEndpoint, ChainOutboundTag, Text.TrimSpace, RoutesSourced, Converter.InboundTag;
    TableServes(snap, nodeId, chains, routes, tags, doc);
    var r := RouteOf(snap, snap.nodes[nodeId], chains, x, i);
    k :| 0 <= k < |routes| && routes[k] == r;
  }

  /** No other hop of the node carries this hop's inbound tag. */
  ghost predicate TagUnshared(snap: Snapshot, chains: seq<Chain>, nodeId: string, x: nat, i: nat)
    requires x < |chains| && i < |chains[x].hops|
  {
    hide Converter.InboundTag;
    forall y: nat, j: nat | RelayHere(chains, nodeId, y, j) && HopTag(snap, chains, y, j) == HopTag(snap, chains, x, i) ::
      y == x && j == i
  }

  lemma {:induction false} RelayDecision(snap: Snapshot, nodeId: string, chains: seq<Chain>, routes: seq<Converter.ChainRoute>,
                      tags: map<string, string>, doc: Converter.Document, x: nat, i: nat, conn: Conn)
    requires snap.Valid() && Table(snap, nodeId, chains, routes, tags, doc)
    requires RelayHere(chains, nodeId, x, i) && TagUnshared(snap, chains, nodeId, x, i)
    ensures Decide(doc, HopTag(snap, chains, x, i), conn) == NextHop(snap, chains, x, i)
  {
    hide Converter.EmitRules, ResolvePlanRules, ResolveHopEndpoint, ChainOutboundTag, Text.TrimSpace, Converter.InboundTag;
    var k := RelayIndex(snap, nodeId, chains, routes, tags, doc, x, i);
    var tag := HopTag(snap, chains, x, i);
    forall j | 0 <= j < k ensures !Takes(doc.rules[j], tag, conn) {
      assert routes[j] in routes;
      var y: nat, h: nat :| RouteFor(snap, snap.nodes[nodeId], chains, y, h, routes[j]);
      assert doc.rules[j] == Converter.InboundRule(HopTag(snap, chains, y, h), routes[j].outbound.Tag());
      assert doc.outbounds[j + 1].Tag() != doc.outbounds[k + 1].Tag();
    }
    FirstTakenDecides(doc.rules, k, doc.outbounds, tag, conn);
  }

  // ----- Everything else follows the plans -----

  lemma {:induction false} EntryChainSpec(chains: seq<Chain>, chainId: string, nodeId: string, x: nat)
    requires x <= |chains|
    ensures var y := EntryChain(chains, chainId, x);
            && x <= y <= |chains|
            && (y < |chains| ==> chains[y].enabled && chains[y].id == chainId)
            && ChainOutboundForNode(chains[x..], chainId, nodeId)
               == if y < |chains| then HopOutbound(chains[y], nodeId, 0) else None
    decreases |chains| - x
  {
    hide HopOutbound;
    if x < |chains| {
      assert chains[x..][0] == chains[x] && chains[x..][1..] == chains[x + 1..];
      if !(chains[x].id == chainId && chains[x].enabled) {
        EntryChainSpec(chains, chainId, nodeId, x + 1);
      }
    }
  }

  lemma {:induction false} EntryHopSpec(chain: Chain, nodeId: string, i: nat)
    requires i <= |chain.hops|
    ensures var h := EntryHop(chain, nodeId, i);
            && i <= h <= |chain.hops|
            && (h < |chain.hops| ==> chain.hops[h].nodeId == nodeId)
            && HopOutbound(chain, nodeId, i)
               == if h == |chain.hops| then None
                  else if h == |chain.hops| - 1 then Some("direct")
                  else Some(ChainOutboundTag(chain.id, h))
    decreases |chain.hops| - i
  {
    hide ChainOutboundTag;
    if i < |chain.hops| && chain.hops[i].nodeId != nodeId {
      EntryHopSpec(chain, nodeId, i + 1);
    }
  }

  /** One plan rule compiles to at most one table rule, which does what the plan says. */
  lemma {:induction false} PlanRuleCompiles(rule: PlanRule, snap: Snapshot, chains: seq<Chain>, nodeId: string, outbounds: seq<Converter.Outbound>)
    requires OutboundsServe(snap, chains, nodeId, outbounds)
    ensures var act := PlanAction(rule, snap, chains, nodeId);
            var emitted := Converter.EmitRules(ResolvePlanRule(rule, chains, nodeId), Converter.Tags(outbounds));
            if act.None? then emitted == []
            else
              && |emitted| == 1 && !emitted[0].InboundRule?
              && emitted[0].matchType == rule.matchType
              && emitted[0].matchValue == Text.TrimSpace(rule.matchValue)
              && Act(emitted[0], outbounds) == act.value
  {
    hide ChainOutboundTag, Text.TrimSpace, Converter.Tags, Via, ResolveHopEndpoint;
    Text.TrimSpaceIdentity("direct");
    var resolved := ResolvePlanRule(rule, chains, nodeId);
    if rule.action == "proxy" {
      EntryChainSpec(chains, rule.targetChainId, nodeId, 0);
      assert chains[0..] == chains;
      var x := EntryChain(chains, rule.targetChainId, 0);
      if x < |chains| {
        EntryHopSpec(chains[x], nodeId, 0);
        var i := EntryHop(chains[x], nodeId, 0);
        if i + 1 < |chains[x].hops| {
          assert RelayHere(chains, nodeId, x, i);
          ChainTagTrimmed(chains[x].id, i);
        }
      }
    }
    if rule.matchType == "process_name" {
      ProcessNameUnsupported(rule);
    }
    if resolved != [] {
      assert resolved == [resolved[0]] && resolved[1..] == [];
      EmitSingle(resolved[0], Converter.Tags(outbounds));
    }
  }

  lemma {:induction false} ProcessNameUnsupported(rule: PlanRule)
    requires rule.matchType == "process_name"
    ensures !Converter.SupportedMatch(rule.matchType, rule.matchValue)
  {
  }

  lemma {:induction false} EmitSingle(rule: Converter.PlannedRule, outboundTags: set<string>)
    ensures Converter.EmitRules([rule], outboundTags) == Converter.EmitRule(rule, outboundTags)
  {
    hide Converter.EmitRule;
    assert [rule][1..] == [];
    assert Converter.EmitRules([rule][1..], outboundTags) == [];
  }
}
