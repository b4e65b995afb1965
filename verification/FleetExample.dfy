/** The hypotheses of the fleet theorems can be met: two nodes, one chain, one plan rule. */
module FleetExample {
  import opened Outcomes
  import opened Fleet
  import opened NodeConfig
  import opened NodeTables
  import opened HopDecisions
  import opened ForwardingTable
  import opened FleetRouting
  import Converter
  import Text

  const ENTRY := Node("a", "", "192.0.2.1", "", [])
  const EXIT := Node("b", "", "192.0.2.2", "", [])
  const FIRST := Inbound("i", "first", "trojan", true, "", Some(443), true, true, false, "", FrpOff)
  const SECOND := Inbound("j", "second", "trojan", true, "", Some(443), true, true, false, "", FrpOff)
  const CHAIN := Chain("c", "chain", true, [Hop("a", "i", "", 0, false), Hop("b", "j", "192.0.2.2", 8443, false)])
  const RULE := PlanRule(true, "domain", "example.org", "proxy", "c")
  const SNAPSHOT := Snapshot(map["a" := ENTRY, "b" := EXIT], map[], map["i" := FIRST, "j" := SECOND], map[], [Plan([RULE])])

  /** A node with one inbound and at most one route out of it converts. */
  lemma {:induction false} OneInbound(inb: Inbound, opts: Converter.Options)
    requires inb.enabled && inb.mappable && inb.port == Some(443)
    requires opts.chainRoutes == [] || (|opts.chainRoutes| == 1 && opts.chainRoutes[0].inboundId == inb.id
                                        && Text.TrimSpace(opts.chainRoutes[0].outbound.Tag()) != "" && opts.chainRoutes[0].outbound.Tag() != "direct")
    ensures Converter.Convert([inb], opts).Ok?
    ensures |Converter.Convert([inb], opts).value.inbounds| == 1 && Converter.Enabled([inb]) == [inb]
  {
    hide Converter.InboundTag, Converter.ListenerKey, Text.TrimSpace, Converter.EmitRules;
    assert Converter.Enabled([inb]) == [inb] by {
      assert [inb][..0] == [];
    }
    var entry := Converter.MapInbound(inb).value;
    var key := Converter.ListenerKey(entry.listen, entry.port);
    var listeners := Converter.Listeners([entry], map[inb.id := Converter.InboundTag(inb)], {key});
    assert Converter.AddInbounds([inb], 1, listeners) == Ok(listeners);
    assert Converter.AddInbounds([inb], 0, Converter.Listeners([], map[], {})) == Ok(listeners) by {
      assert [] + [entry] == [entry] && {} + {key} == {key};
    }
    var start := Converter.Outs([Converter.DirectOut(Text.TrimSpace(opts.bindInterface))], {"direct"}, []);
    assert Converter.AddRoutes(opts.chainRoutes, 0, listeners.tags, start).Ok? by {
      if opts.chainRoutes != [] {
        var route := opts.chainRoutes[0];
        var next := Converter.Outs(start.outbounds + [route.outbound], start.tags + {route.outbound.Tag()},
                                   start.rules + [Converter.InboundRule(listeners.tags[route.inboundId], route.outbound.Tag())]);
        assert Converter.AddRoutes(opts.chainRoutes, 1, listeners.tags, next) == Ok(next);
      }
    }
  }

  lemma {:induction false} OneInboundBuilds(snap: Snapshot, nodeId: string, chains: seq<Chain>, inb: Inbound, routes: seq<Converter.ChainRoute>)
    requires nodeId in snap.nodes && snap.nodes[nodeId].id == nodeId && snap.tls == map[]
    requires AddChains(snap, snap.nodes[nodeId], chains, 0, Standalone(snap, nodeId)) == Ok(Parts([inb], {inb.id}, routes))
    requires inb.enabled && inb.mappable && inb.port == Some(443) && inb.frp == FrpOff
    requires routes == [] || (|routes| == 1 && routes[0].inboundId == inb.id
                              && Text.TrimSpace(routes[0].outbound.Tag()) != "" && routes[0].outbound.Tag() != "direct")
    ensures Build(snap, nodeId, chains).Ok? && DistinctTags(Build(snap, nodeId, chains).value.config)
    ensures |Build(snap, nodeId, chains).value.config.inbounds| == 1
  {
    hide AddChains, Converter.Convert, ResolvePlanRules, Text.TrimSpace, PortsInUse, Converter.Enabled;
    var opts := OptionsFor(snap, snap.nodes[nodeId], chains, Parts([inb], {inb.id}, routes));
    OneInbound(inb, opts);
    assert ApplyManagedTls(snap, nodeId, [inb]) == Ok([inb]) by {
      assert [inb][..0] == [] && ApplyManagedTls(snap, nodeId, []) == Ok([]);
      assert ResolveManagedTls(snap, nodeId, inb) == Ok(inb);
      assert [] + [inb] == [inb];
    }
    var doc := ConvertParts([inb], opts).value;
    var start := StartRelocation(doc.inbounds);
    assert RelocateOne(inb, 0, start) == Ok(start);
    assert Relocate([inb], 0, start) == Ok(start);
  }

  /** Two nodes joined by a chain of the two inbounds, the second dialled as `hop` says. */
  ghost predicate Pair(snap: Snapshot, chain: Chain, second: Inbound, hop: Hop) {
    && snap.nodes == map["a" := ENTRY, "b" := EXIT] && snap.attachments == map[] && snap.tls == map[]
    && snap.inbounds == map["i" := FIRST, "j" := second]
    && second.id == "j" && second.enabled && second.mappable && second.dialable && second.port == Some(443) && second.frp == FrpOff
    && chain == Chain("c", "chain", true, [Hop("a", "i", "", 0, false), hop])
    && hop.nodeId == "b" && hop.inboundId == "j"
  }

  lemma {:induction false} EntryBuilds(snap: Snapshot, chain: Chain, second: Inbound, hop: Hop)
    requires Pair(snap, chain, second, hop) && ResolveHopEndpoint(snap, chain, 1).Ok?
    ensures Build(snap, "a", [chain]).Ok? && DistinctTags(Build(snap, "a", [chain]).value.config)
    ensures |Build(snap, "a", [chain]).value.config.inbounds| == 1
  {
    var tag := ChainOutboundTag("c", 0);
    ChainTagTrimmed("c", 0);
    assert tag[0] == 'c';
    var to := ResolveHopEndpoint(snap, chain, 1).value;
    assert to.inboundId == "j" by {
      hide FirstNonEmpty, Text.TrimSpace, MapPublicPort;
    }
    var out := Converter.DialOut(tag, to, Text.TrimSpace(""));
    var parts := Parts([FIRST], {"i"}, [Converter.ChainRoute("i", out)]);
    assert AddChains(snap, ENTRY, [chain], 0, Standalone(snap, "a")) == Ok(parts) by {
      hide ResolveHopEndpoint, ChainOutboundTag, Text.TrimSpace;
      var start := Standalone(snap, "a");
      assert start == Parts([], {}, []);
      assert start.inbounds + [FIRST] == [FIRST] && start.ids + {"i"} == {"i"} && start.routes + parts.routes == parts.routes;
      assert AddHop(snap, ENTRY, chain, 0, start) == Ok(parts);
      assert AddHop(snap, ENTRY, chain, 1, parts) == Ok(parts);
      assert AddHops(snap, ENTRY, chain, 2, parts) == Ok(parts);
      assert AddHops(snap, ENTRY, chain, 1, parts) == Ok(parts);
      assert AddHops(snap, ENTRY, chain, 0, start) == Ok(parts);
      assert AddChains(snap, ENTRY, [chain], 1, parts) == Ok(parts);
    }
    hide AddChains, Build, ChainOutboundTag, Text.TrimSpace;
    OneInboundBuilds(snap, "a", [chain], FIRST, parts.routes);
  }

  lemma {:induction false} ExitBuilds(snap: Snapshot, chain: Chain, second: Inbound, hop: Hop)
    requires Pair(snap, chain, second, hop)
    ensures Build(snap, "b", [chain]).Ok? && DistinctTags(Build(snap, "b", [chain]).value.config)
    ensures |Build(snap, "b", [chain]).value.config.inbounds| == 1
  {
    var parts := Parts([second], {"j"}, []);
    assert AddChains(snap, EXIT, [chain], 0, Standalone(snap, "b")) == Ok(parts) by {
      var start := Standalone(snap, "b");
      assert start == Parts([], {}, []);
      assert AddHop(snap, EXIT, chain, 0, start) == Ok(start);
      assert start.inbounds + [second] == [second] && start.ids + {"j"} == {"j"};
      assert AddHop(snap, EXIT, chain, 1, start) == Ok(parts);
      assert AddHops(snap, EXIT, chain, 2, parts) == Ok(parts);
      assert AddHops(snap, EXIT, chain, 1, start) == Ok(parts);
      assert AddHops(snap, EXIT, chain, 0, start) == Ok(parts);
      assert AddChains(snap, EXIT, [chain], 1, parts) == Ok(parts);
    }
    hide AddChains, Build;
    OneInboundBuilds(snap, "b", [chain], second, []);
  }

  lemma {:induction false} SecondDialled()
    ensures ResolveHopEndpoint(SNAPSHOT, CHAIN, 1) == Ok(Converter.Endpoint("b", "j", "192.0.2.2", 8443, false))
  {
    Text.TrimSpaceIdentity("192.0.2.2");
    hide Text.TrimSpace;
  }

  /** The rule means "into the chain" on the entry node and "leave" on the exit. */
  lemma {:induction false} RuleEnters()
    ensures FlatRules(SNAPSHOT.plans) == [RULE]
    ensures PlanAction(RULE, SNAPSHOT, [CHAIN], "a").Some? && PlanAction(RULE, SNAPSHOT, [CHAIN], "a").value.Forward?
    ensures PlanAction(RULE, SNAPSHOT, [CHAIN], "b") == Some(Leave)
    ensures forall conn: Conn | conn("domain", "example.org") ::
              PlanDecision(SNAPSHOT, [CHAIN], "a", conn).Forward? && PlanDecision(SNAPSHOT, [CHAIN], "b", conn) == Leave
  {
    Text.TrimSpaceIdentity("192.0.2.2");
    Text.TrimSpaceIdentity("example.org");
    hide Text.TrimSpace;
    assert ResolveHopEndpoint(SNAPSHOT, CHAIN, 1).Ok?;
    assert EntryChain([CHAIN], "c", 0) == 0;
    assert EntryHop(CHAIN, "a", 0) == 0 && EntryHop(CHAIN, "b", 0) == EntryHop(CHAIN, "b", 1) == 1;
    assert FlatRules(SNAPSHOT.plans) == [RULE];
  }

  /** Both nodes build, and the fleet that runs their tables is one the theorems speak of, with a
      rule that sends matching connections into the chain at its entry and out of it at its exit. */
  lemma {:induction false} FleetExists() returns (fleet: map<string, Converter.Document>)
    ensures BuiltFleet(SNAPSHOT, [CHAIN], fleet) && "a" in fleet && "b" in fleet
    ensures FlatRules(SNAPSHOT.plans) == [RULE]
    ensures PlanAction(RULE, SNAPSHOT, [CHAIN], "a").Some? && PlanAction(RULE, SNAPSHOT, [CHAIN], "a").value.Forward?
    ensures forall conn: Conn | conn("domain", "example.org") ::
              PlanDecision(SNAPSHOT, [CHAIN], "a", conn).Forward? && PlanDecision(SNAPSHOT, [CHAIN], "b", conn) == Leave
  {
    hide Build, DistinctTags, PlanAction, PlanDecision, FlatRules;
    SecondDialled();
    assert Pair(SNAPSHOT, CHAIN, SECOND, CHAIN.hops[1]);
    EntryBuilds(SNAPSHOT, CHAIN, SECOND, CHAIN.hops[1]);
    ExitBuilds(SNAPSHOT, CHAIN, SECOND, CHAIN.hops[1]);
    RuleEnters();
    fleet := map["a" := Build(SNAPSHOT, "a", [CHAIN]).value.config, "b" := Build(SNAPSHOT, "b", [CHAIN]).value.config];
  }
}
