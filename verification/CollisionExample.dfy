/** The rows behind a loop: two chains that cross on two nodes, and inbounds whose ids share their
    first eight characters. */
module CollisionExample {
  import opened Outcomes
  import opened Fleet
  import opened NodeConfig
  import opened ForwardingTable
  import opened ChainTables
  import opened NodeTables
  import opened FleetRouting
  import opened TagCollisions
  import Converter
  import Text

  const LEFT := Node("a", "", "192.0.2.1", "", [])
  const RIGHT := Node("b", "", "192.0.2.2", "", [])

  const I := "11111111-0000-4000-8000-000000000001"
  const J := "22222222-0000-4000-8000-000000000001"
  const K := "22222222-0000-4000-8000-000000000002"
  const L := "11111111-0000-4000-8000-000000000002"

  function Relay(id: string, port: int): Inbound {
    Inbound(id, "relay", "trojan", true, "", Some(port), true, true, false, "", FrpOff)
  }

  /** One chain enters at a and leaves at b, the other enters at b and leaves at a. */
  const EAST := Chain("c", "east", true, [Hop("a", I, "", 0, false), Hop("b", J, "192.0.2.2", 8443, false)])
  const WEST := Chain("d", "west", true, [Hop("b", K, "", 0, false), Hop("a", L, "192.0.2.1", 8443, false)])
  const CHAINS := [EAST, WEST]
  const ROWS := Snapshot(
    map["a" := LEFT, "b" := RIGHT], map[],
    map[I := Relay(I, 443), J := Relay(J, 8443), K := Relay(K, 443), L := Relay(L, 8443)], map[], [])

  lemma {:induction false} IdsDiffer()
    ensures I != J && I != K && I != L && J != K && J != L && K != L
  {
    assert I[0] == '1' && J[0] == '2' && K[0] == '2' && L[0] == '1';
    assert I[35] == '1' && J[35] == '1' && K[35] == '2' && L[35] == '2';
  }

  lemma {:induction false} RowsValid()
    ensures ROWS.Valid()
  {
    IdsDiffer();
  }

  lemma {:induction false} ChainsValid()
    ensures HopsOwnedOnce(CHAINS) && ValidChains(CHAINS)
  {
    IdsDiffer();
    assert CHAINS[0] == EAST && CHAINS[1] == WEST;
  }

  /** Two inbounds with distinct ports and one route out of one of them convert. */
  lemma {:induction false} TwoConvert(p: Inbound, q: Inbound, opts: Converter.Options)
    requires p.enabled && p.mappable && p.listen == "" && q.enabled && q.mappable && q.listen == "" && p.id != q.id
    requires p.port.Some? && q.port.Some? && 1 <= p.port.value <= 65535 && 1 <= q.port.value <= 65535 && p.port != q.port
    requires |opts.chainRoutes| == 1 && opts.chainRoutes[0].inboundId in [p.id, q.id]
             && Text.TrimSpace(opts.chainRoutes[0].outbound.Tag()) != "" && opts.chainRoutes[0].outbound.Tag() != "direct"
    ensures Converter.Convert([p, q], opts).Ok?
    ensures |Converter.Convert([p, q], opts).value.inbounds| == 2 && Converter.Enabled([p, q]) == [p, q]
  {
    hide Converter.InboundTag, Text.TrimSpace, Converter.EmitRules, Text.Decimal;
    assert Converter.Enabled([p, q]) == [p, q] by {
      assert [p, q][..1] == [p] && [p][..0] == [];
      assert Converter.Enabled([p]) == [p];
    }
    var first, second := Converter.MapInbound(p).value, Converter.MapInbound(q).value;
    var one, two := Converter.ListenerKey("0.0.0.0", p.port.value), Converter.ListenerKey("0.0.0.0", q.port.value);
    if one == two {
      Text.NumberedKeyInjective("0.0.0.0", p.port.value, "0.0.0.0", q.port.value);
    }
    hide Converter.ListenerKey;
    var start := Converter.Listeners([], map[], {});
    var half := Converter.Listeners([first], map[p.id := Converter.InboundTag(p)], {one});
    var full := Converter.Listeners([first, second], map[p.id := Converter.InboundTag(p)][q.id := Converter.InboundTag(q)], {one} + {two});
    assert Converter.AddInbounds([p, q], 2, full) == Ok(full);
    assert Converter.AddInbounds([p, q], 1, half) == Ok(full) by {
      assert [first] + [second] == [first, second];
    }
    assert Converter.AddInbounds([p, q], 0, start) == Ok(full) by {
      assert [] + [first] == [first] && {} + {one} == {one};
    }
    var outs := Converter.Outs([Converter.DirectOut(Text.TrimSpace(opts.bindInterface))], {"direct"}, []);
    var route := opts.chainRoutes[0];
    var next := Converter.Outs(outs.outbounds + [route.outbound], outs.tags + {route.outbound.Tag()},
                               outs.rules + [Converter.InboundRule(full.tags[route.inboundId], route.outbound.Tag())]);
    assert Converter.AddRoutes(opts.chainRoutes, 1, full.tags, next) == Ok(next);
    assert Converter.AddRoutes(opts.chainRoutes, 0, full.tags, outs) == Ok(next);
  }

  lemma {:induction false} TwoBuild(nodeId: string, p: Inbound, q: Inbound, route: Converter.ChainRoute)
    requires nodeId in ROWS.nodes && ROWS.nodes[nodeId].id == nodeId
    requires AddChains(ROWS, ROWS.nodes[nodeId], CHAINS, 0, Standalone(ROWS, nodeId)) == Ok(Parts([p, q], {p.id, q.id}, [route]))
    requires p.enabled && p.mappable && p.listen == "" && q.enabled && q.mappable && q.listen == "" && p.id != q.id
    requires p.port.Some? && q.port.Some? && 1 <= p.port.value <= 65535 && 1 <= q.port.value <= 65535 && p.port != q.port
    requires p.frp == FrpOff && q.frp == FrpOff
    requires route.inboundId in [p.id, q.id] && Text.TrimSpace(route.outbound.Tag()) != "" && route.outbound.Tag() != "direct"
    ensures Build(ROWS, nodeId, CHAINS).Ok?
  {
    hide AddChains, Converter.Convert, ResolvePlanRules, Text.TrimSpace, PortsInUse, Converter.Enabled;
    var opts := OptionsFor(ROWS, ROWS.nodes[nodeId], CHAINS, Parts([p, q], {p.id, q.id}, [route]));
    TwoConvert(p, q, opts);
    assert ApplyManagedTls(ROWS, nodeId, [p, q]) == Ok([p, q]) by {
      assert [p, q][..1] == [p] && [p][..0] == [];
      assert ApplyManagedTls(ROWS, nodeId, []) == Ok([]) && [] + [p] == [p];
      assert ApplyManagedTls(ROWS, nodeId, [p]) == Ok([p]);
      assert [p] + [q] == [p, q];
    }
    var start := StartRelocation(ConvertParts([p, q], opts).value.inbounds);
    assert RelocateOne(p, 0, start) == Ok(start) && RelocateOne(q, 1, start) == Ok(start);
    assert Relocate([p, q], 2, start) == Ok(start);
    assert Relocate([p, q], 1, start) == Ok(start);
    assert Relocate([p, q], 0, start) == Ok(start);
  }

  lemma {:induction false} TagFit(chainId: string)
    ensures Text.TrimSpace(ChainOutboundTag(chainId, 0)) != "" && ChainOutboundTag(chainId, 0) != "direct"
  {
    ChainTagTrimmed(chainId, 0);
    hide Text.TrimSpace, Text.Prefix, Text.Without, Text.ToLower, Text.Decimal;
    assert ChainOutboundTag(chainId, 0)[0] == 'c' && "direct"[0] == 'd';
  }

  lemma {:induction false} Endpoints()
    ensures ResolveHopEndpoint(ROWS, EAST, 1) == Ok(Converter.Endpoint("b", J, "192.0.2.2", 8443, false))
    ensures ResolveHopEndpoint(ROWS, WEST, 1) == Ok(Converter.Endpoint("a", L, "192.0.2.1", 8443, false))
  {
    IdsDiffer();
    Text.TrimSpaceIdentity("192.0.2.2");
    Text.TrimSpaceIdentity("192.0.2.1");
    hide Text.TrimSpace;
  }

  lemma {:induction false} LeftBuilds()
    ensures Build(ROWS, "a", CHAINS).Ok?
  {
    Endpoints();
    TagFit("c");
    IdsDiffer();
    var p, q := Relay(I, 443), Relay(L, 8443);
    var out := Converter.DialOut(ChainOutboundTag("c", 0), ResolveHopEndpoint(ROWS, EAST, 1).value, Text.TrimSpace(""));
    var route := Converter.ChainRoute(I, out);
    var one, two := Parts([p], {I}, [route]), Parts([p, q], {I, L}, [route]);
    assert AddChains(ROWS, LEFT, CHAINS, 0, Standalone(ROWS, "a")) == Ok(two) by {
      hide ResolveHopEndpoint, ChainOutboundTag, Text.TrimSpace;
      var start := Standalone(ROWS, "a");
      assert start == Parts([], {}, []);
      assert start.inbounds + [p] == [p] && start.ids + {I} == {I} && start.routes + [route] == [route];
      assert AddHop(ROWS, LEFT, EAST, 0, start) == Ok(one);
      assert AddHop(ROWS, LEFT, EAST, 1, one) == Ok(one);
      assert AddHops(ROWS, LEFT, EAST, 2, one) == AddHops(ROWS, LEFT, EAST, 1, one) == AddHops(ROWS, LEFT, EAST, 0, start) == Ok(one);
      assert one.inbounds + [q] == [p, q] && one.ids + {L} == {I, L};
      assert AddHop(ROWS, LEFT, WEST, 0, one) == Ok(one);
      assert AddHop(ROWS, LEFT, WEST, 1, one) == Ok(two);
      assert AddHops(ROWS, LEFT, WEST, 2, two) == AddHops(ROWS, LEFT, WEST, 1, one) == AddHops(ROWS, LEFT, WEST, 0, one) == Ok(two);
      assert AddChains(ROWS, LEFT, CHAINS, 2, two) == AddChains(ROWS, LEFT, CHAINS, 1, one) == Ok(two);
    }
    hide AddChains, Build, ChainOutboundTag, Text.TrimSpace, ResolveHopEndpoint;
    TwoBuild("a", p, q, route);
  }

  lemma {:induction false} RightBuilds()
    ensures Build(ROWS, "b", CHAINS).Ok?
  {
    Endpoints();
    TagFit("d");
    IdsDiffer();
    var p, q := Relay(J, 8443), Relay(K, 443);
    var out := Converter.DialOut(ChainOutboundTag("d", 0), ResolveHopEndpoint(ROWS, WEST, 1).value, Text.TrimSpace(""));
    var route := Converter.ChainRoute(K, out);
    var one, two := Parts([p], {J}, []), Parts([p, q], {J, K}, [route]);
    assert AddChains(ROWS, RIGHT, CHAINS, 0, Standalone(ROWS, "b")) == Ok(two) by {
      hide ResolveHopEndpoint, ChainOutboundTag, Text.TrimSpace;
      var start := Standalone(ROWS, "b");
      assert start == Parts([], {}, []);
      assert start.inbounds + [p] == [p] && start.ids + {J} == {J};
      assert AddHop(ROWS, RIGHT, EAST, 0, start) == Ok(start);
      assert AddHop(ROWS, RIGHT, EAST, 1, start) == Ok(one);
      assert AddHops(ROWS, RIGHT, EAST, 2, one) == AddHops(ROWS, RIGHT, EAST, 1, start) == AddHops(ROWS, RIGHT, EAST, 0, start) == Ok(one);
      assert one.inbounds + [q] == [p, q] && one.ids + {K} == {J, K} && one.routes + [route] == [route];
      assert AddHop(ROWS, RIGHT, WEST, 0, one) == Ok(two);
      assert AddHop(ROWS, RIGHT, WEST, 1, two) == Ok(two);
      assert AddHops(ROWS, RIGHT, WEST, 2, two) == AddHops(ROWS, RIGHT, WEST, 1, two) == AddHops(ROWS, RIGHT, WEST, 0, one) == Ok(two);
      assert AddChains(ROWS, RIGHT, CHAINS, 2, two) == AddChains(ROWS, RIGHT, CHAINS, 1, one) == Ok(two);
    }
    hide AddChains, Build, ChainOutboundTag, Text.TrimSpace, ResolveHopEndpoint;
    TwoBuild("b", p, q, route);
  }

  lemma {:induction false} LeftIds()
    ensures |I| == 36 == |L| && I[..8] == L[..8] && (forall k | 0 <= k < 8 :: Converter.IsTagChar(I[k]))
    ensures !Text.IsSpace(I[35]) && !Text.IsSpace(L[35])
  {
    assert I[..8] == "11111111" && L[..8] == "11111111";
    assert forall k | 0 <= k < 8 :: I[k] == I[..8][k] == '1';
  }

  lemma {:induction false} RightIds()
    ensures |J| == 36 == |K| && J[..8] == K[..8] && (forall k | 0 <= k < 8 :: Converter.IsTagChar(J[k]))
    ensures !Text.IsSpace(J[35]) && !Text.IsSpace(K[35])
  {
    assert J[..8] == "22222222" && K[..8] == "22222222";
    assert forall k | 0 <= k < 8 :: J[k] == J[..8][k] == '2';
  }

  lemma {:induction false} HopTags()
    ensures HopTag(ROWS, CHAINS, 0, 0) == Converter.InboundTag(Relay(I, 443))
    ensures HopTag(ROWS, CHAINS, 0, 1) == Converter.InboundTag(Relay(J, 8443))
    ensures HopTag(ROWS, CHAINS, 1, 0) == Converter.InboundTag(Relay(K, 443))
    ensures HopTag(ROWS, CHAINS, 1, 1) == Converter.InboundTag(Relay(L, 8443))
  {
    hide Converter.InboundTag;
    IdsDiffer();
    assert CHAINS[0] == EAST && CHAINS[1] == WEST;
  }

  lemma {:induction false} TagsCollide()
    ensures HopTag(ROWS, CHAINS, 0, 1) == HopTag(ROWS, CHAINS, 1, 0) && HopTag(ROWS, CHAINS, 1, 1) == HopTag(ROWS, CHAINS, 0, 0)
  {
    hide Converter.InboundTag, HopTag, Converter.IsTagChar, Text.IsSpace;
    HopTags();
    LeftIds();
    RightIds();
    LongIdsCollide(Relay(I, 443), Relay(L, 8443));
    LongIdsCollide(Relay(J, 8443), Relay(K, 443));
  }

  lemma {:induction false} EntriesFirst(fleet: map<string, Converter.Document>)
    requires Build(ROWS, "a", CHAINS).Ok? && Build(ROWS, "b", CHAINS).Ok?
    requires "a" in fleet && fleet["a"] == Build(ROWS, "a", CHAINS).value.config
    requires "b" in fleet && fleet["b"] == Build(ROWS, "b", CHAINS).value.config
    ensures EntryFirst(ROWS, CHAINS, fleet, 0) && EntryFirst(ROWS, CHAINS, fleet, 1)
  {
    hide Build, Converter.InboundTag;
    assert forall y: nat, j: nat | RelayHere(CHAINS, "b", y, j) :: y == 1 && j == 0;
    assert forall y: nat, j: nat | RelayHere(CHAINS, "a", y, j) :: y == 0 && j == 0;
  }

  /** Both nodes build, and traffic that enters one of the chains never leaves the fleet, as long as
      both boxes run their tables. The tables do repeat inbound tags, so with boxes that refuse such
      documents at least one of the two never runs and the loop is not there. */
  lemma {:induction false} LoopExists() returns (fleet: map<string, Converter.Document>)
    ensures ROWS.Valid() && ValidChains(CHAINS) && HopsOwnedOnce(CHAINS)
    ensures forall n | n in ["a", "b"] :: n in fleet && Build(ROWS, n, CHAINS).Ok? && fleet[n] == Build(ROWS, n, CHAINS).value.config
    ensures forall conn: Conn, n: nat :: Walk(ROWS, fleet, conn, AtHop(ROWS, CHAINS, 0, 0), n).At?
    ensures !(DistinctTags(fleet["a"]) && DistinctTags(fleet["b"]))
  {
    hide Build, Converter.InboundTag, EntryFirst, Walk, AtHop, HopTag, DistinctTags;
    RowsValid();
    ChainsValid();
    LeftBuilds();
    RightBuilds();
    TagsCollide();
    fleet := map["a" := Build(ROWS, "a", CHAINS).value.config, "b" := Build(ROWS, "b", CHAINS).value.config];
    EntriesFirst(fleet);
    forall conn: Conn, n: nat ensures Walk(ROWS, fleet, conn, AtHop(ROWS, CHAINS, 0, 0), n).At? {
      CollidingTagsLoop(ROWS, CHAINS, fleet, conn, 0, 1, n);
      HopIsPlace(n);
    }
    Repeats(fleet, (t, v) => true);
  }

  lemma {:induction false} Repeats(fleet: map<string, Converter.Document>, conn: Conn)
    requires ROWS.Valid() && ValidChains(CHAINS) && fleet.Keys == {"a", "b"}
    requires forall n | n in ["a", "b"] :: Build(ROWS, n, CHAINS).Ok? && fleet[n] == Build(ROWS, n, CHAINS).value.config
    requires forall n: nat :: Walk(ROWS, fleet, conn, AtHop(ROWS, CHAINS, 0, 0), n).At?
    ensures !(DistinctTags(fleet["a"]) && DistinctTags(fleet["b"]))
  {
    hide Build, Converter.InboundTag, Walk, HopTag, DistinctTags, AtHop;
    if DistinctTags(fleet["a"]) && DistinctTags(fleet["b"]) {
      DistinctSettles(fleet, conn);
    }
  }

  lemma {:induction false} DistinctSettles(fleet: map<string, Converter.Document>, conn: Conn)
    requires ROWS.Valid() && ValidChains(CHAINS) && fleet.Keys == {"a", "b"}
    requires forall n | n in ["a", "b"] :: Build(ROWS, n, CHAINS).Ok? && fleet[n] == Build(ROWS, n, CHAINS).value.config
    requires DistinctTags(fleet["a"]) && DistinctTags(fleet["b"])
    ensures !Walk(ROWS, fleet, conn, AtHop(ROWS, CHAINS, 0, 0), 8).At?
  {
    hide Build, Converter.InboundTag, Walk, HopTag, DistinctTags;
    assert BuiltFleet(ROWS, CHAINS, fleet);
    EveryConnectionSettles(ROWS, CHAINS, fleet, conn, "a", HopTag(ROWS, CHAINS, 0, 0));
    assert AtHop(ROWS, CHAINS, 0, 0) == At("a", HopTag(ROWS, CHAINS, 0, 0)) by {
      assert CHAINS[0] == EAST;
    }
    assert FlatRules(ROWS.plans) == [];
  }

  lemma {:induction false} HopIsPlace(n: nat)
    ensures AtHop(ROWS, CHAINS, if n % 2 == 0 then 0 else 1, 0).At?
  {
    hide HopTag;
  }
}
