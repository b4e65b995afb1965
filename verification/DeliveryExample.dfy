/** A fleet and a network the delivery theorems speak of, and a fleet that builds though one of its
    hops cannot be reached. */
module DeliveryExample {
  import opened Outcomes
  import opened Fleet
  import opened NodeConfig
  import opened ForwardingTable
  import opened ChainTables
  import opened NodeTables
  import opened FleetRouting
  import opened HopDial
  import opened ListenerRows
  import opened HopDelivery
  import opened FleetExample
  import Converter
  import Text

  ghost function DocsOf(snap: Snapshot, chain: Chain): map<string, NodeDocument>
    requires Build(snap, "a", [chain]).Ok? && Build(snap, "b", [chain]).Ok?
  {
    map["a" := Build(snap, "a", [chain]).value, "b" := Build(snap, "b", [chain]).value]
  }

  /** Each host is one node, which has one listener. */
  ghost function HostsOf(first: Inbound, second: Inbound): Network {
    (server, port) => if server == "192.0.2.1" then At("a", Converter.InboundTag(first)) else At("b", Converter.InboundTag(second))
  }

  /** Each node of the pair has one row to listen for. */
  lemma {:induction false} PairRow(snap: Snapshot, chain: Chain, second: Inbound, hop: Hop, n: string, b: Inbound)
    requires Pair(snap, chain, second, hop) && (n == "a" || n == "b") && Assigned(snap, [chain], n, b)
    ensures b == if n == "a" then FIRST else second
  {
    assert snap.StandaloneInbounds(n) == [];
    var x: nat, i: nat :| OnHop(snap, [chain], n, x, i, b);
    assert x == 0 && i == if n == "a" then 0 else 1;
  }

  /** A listener without an FRP client answers at the addresses of its node. */
  lemma {:induction false} AnswersDirectly(snap: Snapshot, n: string, doc: NodeDocument, b: Inbound, k: nat, server: string, port: int)
    requires n in snap.nodes && Listener(snap, n, b, doc, k) && !b.frp.FrpOn? && AnswersAt(snap, n, doc, k, server, port)
    ensures NodeAddress(snap, n, server) && doc.config.inbounds[k].tag == Converter.InboundTag(b)
  {
    hide Converter.InboundTag, Certificate, PublicPort, NodeAddress;
  }

  lemma {:induction false} PairAddress(snap: Snapshot, chain: Chain, second: Inbound, hop: Hop, n: string, server: string)
    requires Pair(snap, chain, second, hop) && (n == "a" || n == "b") && NodeAddress(snap, n, server)
    ensures server == if n == "a" then "192.0.2.1" else "192.0.2.2"
  {
    Text.TrimSpaceIdentity("192.0.2.1");
    Text.TrimSpaceIdentity("192.0.2.2");
    EmptyTrimmed();
    hide Text.TrimSpace;
  }

  /** A node of the pair answers at its own address only, under the tag of its inbound. */
  lemma {:induction false} PairAnswers(
    snap: Snapshot, chain: Chain, second: Inbound, hop: Hop, n: string, k: nat, server: string, port: int)
    requires snap.Valid() && Pair(snap, chain, second, hop)
    requires Build(snap, "a", [chain]).Ok? && Build(snap, "b", [chain]).Ok?
    requires n in DocsOf(snap, chain) && DistinctTags(DocsOf(snap, chain)[n].config)
    requires Answers(snap, DocsOf(snap, chain), n, k, server, port)
    ensures At(n, DocsOf(snap, chain)[n].config.inbounds[k].tag) == HostsOf(FIRST, second)(server, port)
  {
    hide Build, Converter.InboundTag, Listener, Assigned, AnswersAt, NodeAddress, DistinctTags;
    var doc := DocsOf(snap, chain)[n];
    BuiltListens(snap, n, [chain]);
    assert Wanted(snap, n, [chain], doc, k);
    var b :| Assigned(snap, [chain], n, b) && b.enabled && Listener(snap, n, b, doc, k);
    PairRow(snap, chain, second, hop, n, b);
    AnswersDirectly(snap, n, doc, b, k, server, port);
    PairAddress(snap, chain, second, hop, n, server);
  }

  lemma {:induction false} EmptyTrimmed()
    ensures Text.TrimSpace("") == ""
  {
  }

  ghost predicate PairBuilds(snap: Snapshot, chain: Chain) {
    hide Build;
    && Build(snap, "a", [chain]).Ok? && DistinctTags(Build(snap, "a", [chain]).value.config)
    && Build(snap, "b", [chain]).Ok? && DistinctTags(Build(snap, "b", [chain]).value.config)
  }

  lemma {:induction false} HostsFaithful()
    requires PairBuilds(SNAPSHOT, CHAIN)
    ensures Faithful(SNAPSHOT, [CHAIN], DocsOf(SNAPSHOT, CHAIN), HostsOf(FIRST, SECOND))
  {
    hide Build, Converter.InboundTag, AnswersAt, Dials, DistinctTags;
    var docs, net := DocsOf(SNAPSHOT, CHAIN), HostsOf(FIRST, SECOND);
    assert Pair(SNAPSHOT, CHAIN, SECOND, CHAIN.hops[1]);
    forall n: string, k: nat, server: string, port: int | Answers(SNAPSHOT, docs, n, k, server, port)
      ensures net(server, port) == At(n, docs[n].config.inbounds[k].tag)
    {
      PairAnswers(SNAPSHOT, CHAIN, SECOND, CHAIN.hops[1], n, k, server, port);
    }
    forall x: nat, i: nat, server: string, port: int |
      x < 1 && i < 2 && Manual(CHAIN.hops[i]) && Dials(SNAPSHOT, CHAIN.hops[i], server, port)
      ensures net(server, port) == AtHop(SNAPSHOT, [CHAIN], x, i)
    {
      ManualHops();
      SecondDialled();
      EndpointIff(SNAPSHOT, CHAIN, 1);
      hide ResolveHopEndpoint;
    }
    hide Manual;
  }

  /** The example fleet is one whose connections are delivered by address. */
  lemma {:induction false} AddressedFleet() returns (docs: map<string, NodeDocument>, net: Network)
    ensures FleetReady(SNAPSHOT, [CHAIN], docs) && Faithful(SNAPSHOT, [CHAIN], docs, net) && "a" in docs && "b" in docs
  {
    hide Build, Converter.InboundTag, ResolveHopEndpoint, Faithful, DistinctTags;
    SecondDialled();
    assert Pair(SNAPSHOT, CHAIN, SECOND, CHAIN.hops[1]);
    EntryBuilds(SNAPSHOT, CHAIN, SECOND, CHAIN.hops[1]);
    ExitBuilds(SNAPSHOT, CHAIN, SECOND, CHAIN.hops[1]);
    docs, net := DocsOf(SNAPSHOT, CHAIN), HostsOf(FIRST, SECOND);
    HostsFaithful();
    hide Manual;
  }

  lemma {:induction false} ManualHops()
    ensures !Manual(CHAIN.hops[0]) && Manual(CHAIN.hops[1])
  {
    EmptyTrimmed();
  }

  // ----- A hop on loopback -----

  const PINNED := SECOND.(listen := "127.0.0.1")
  const LAST := Hop("b", "j", "", 0, false)
  const BROKEN := Chain("c", "chain", true, [Hop("a", "i", "", 0, false), LAST])
  const PINNED_ROWS := SNAPSHOT.(inbounds := map["i" := FIRST, "j" := PINNED])

  lemma {:induction false} PinnedDialled()
    ensures Dials(PINNED_ROWS, LAST, "192.0.2.2", 443)
    ensures ResolveHopEndpoint(PINNED_ROWS, BROKEN, 1).Ok?
    ensures !Manual(LAST)
  {
    Text.TrimSpaceIdentity("192.0.2.2");
    EmptyTrimmed();
    hide Text.TrimSpace;
    assert Addresses(PINNED_ROWS, LAST)[4] == "192.0.2.2";
    assert forall j | 0 <= j < 4 :: Addresses(PINNED_ROWS, LAST)[j] == "";
    EndpointIff(PINNED_ROWS, BROKEN, 1);
  }

  /** Both nodes build and the entry dials the exit, where nothing answers. */
  lemma {:induction false} PinnedHopSilent() returns (docs: map<string, NodeDocument>)
    ensures PINNED_ROWS.Valid() && ValidChain(BROKEN) && DocsBuilt(PINNED_ROWS, [BROKEN], docs) && "a" in docs && "b" in docs
    ensures Dials(PINNED_ROWS, LAST, "192.0.2.2", 443)
    ensures !Reaches(PINNED_ROWS, [BROKEN], docs, 0, 1, "192.0.2.2", 443)
  {
    PinnedDialled();
    hide Build, Converter.InboundTag, ResolveHopEndpoint, Dials, Manual, Reaches;
    assert Pair(PINNED_ROWS, BROKEN, PINNED, LAST);
    EntryBuilds(PINNED_ROWS, BROKEN, PINNED, LAST);
    ExitBuilds(PINNED_ROWS, BROKEN, PINNED, LAST);
    docs := DocsOf(PINNED_ROWS, BROKEN);
    HopReachedIff(PINNED_ROWS, [BROKEN], docs, 0, 1, "192.0.2.2", 443);
  }
}
