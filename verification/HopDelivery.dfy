/** Delivery by address: the fleet as its network sees it. A relay dials a server and a port; the
    network brings the connection to the listener that answers there. */
module HopDelivery {
  import opened Outcomes
  import opened Fleet
  import opened NodeConfig
  import opened ForwardingTable
  import opened ChainTables
  import opened NodeTables
  import opened HopDecisions
  import opened NodeDecisions
  import opened FleetRouting
  import opened HopDial
  import opened ListenerRows
  import Converter
  import Text

  /** Where the network brings a connection to a server and a port. */
  type Network = (string, int) -> Place

  // ----- Who answers at an address -----

  /** The names and addresses of a node. */
  ghost predicate NodeAddress(snap: Snapshot, n: string, server: string)
    requires n in snap.nodes
  {
    server != "" &&
    (|| server == Text.TrimSpace(snap.nodes[n].publicAddress)
     || server == Text.TrimSpace(snap.nodes[n].address)
     || exists id :: (n, id) in snap.tls && snap.tls[(n, id)].Ready? && snap.tls[(n, id)].fqdn == server)
  }

  /** The listener answers at the public port of its node, or at the remote port of the FRPS that
      the client of its tag connects to. A loopback listener is reached through FRP only. */
  ghost predicate AnswersAt(snap: Snapshot, n: string, doc: NodeDocument, k: nat, server: string, port: int)
    requires n in snap.nodes && k < |doc.config.inbounds|
  {
    var entry := doc.config.inbounds[k];
    || (entry.listen != "127.0.0.1" && NodeAddress(snap, n, server) && PublicPort(snap.nodes[n].portMappings, entry.port, port))
    || (entry.tag in doc.frpc && doc.frpc[entry.tag].localPort == entry.port
        && doc.frpc[entry.tag].serverAddr == server && doc.frpc[entry.tag].remotePort == port)
  }

  ghost predicate Answers(snap: Snapshot, docs: map<string, NodeDocument>, n: string, k: nat, server: string, port: int) {
    n in docs && n in snap.nodes && k < |docs[n].config.inbounds| && AnswersAt(snap, n, docs[n], k, server, port)
  }

  /** The address or port of the hop was set by hand. */
  predicate Manual(hop: Hop) {
    Text.TrimSpace(hop.dialAddress) != "" || hop.dialPort != 0
  }

  /** What the network owes the fleet: a connection to an address at which a listener answers
      reaches that listener, and an address set by hand leads to the hop it was set for. */
  ghost predicate Faithful(snap: Snapshot, chains: seq<Chain>, docs: map<string, NodeDocument>, net: Network) {
    && (forall n: string, k: nat, server: string, port: int | Answers(snap, docs, n, k, server, port) ::
          net(server, port) == At(n, docs[n].config.inbounds[k].tag))
    && (forall x: nat, i: nat, server: string, port: int |
          x < |chains| && chains[x].enabled && i < |chains[x].hops| && Manual(chains[x].hops[i])
          && Dials(snap, chains[x].hops[i], server, port) ::
          net(server, port) == AtHop(snap, chains, x, i))
  }

  // ----- Hops answer where they are dialled -----

  /** FRP parameters that parsed name an FRPS and a remote port. */
  ghost predicate FrpParsed(snap: Snapshot) {
    forall id | id in snap.inbounds && snap.inbounds[id].frp.FrpOn? ::
      snap.inbounds[id].frp.serverAddr != "" && 1 <= snap.inbounds[id].frp.remotePort <= 65535
  }

  /** No row pins the inbound to the loopback address, unless FRP exposes it. */
  predicate Exposed(inb: Inbound) {
    inb.frp.FrpOn? || inb.listen != "127.0.0.1"
  }

  ghost predicate DocsBuilt(snap: Snapshot, chains: seq<Chain>, docs: map<string, NodeDocument>) {
    hide Build;
    forall n | n in docs :: Build(snap, n, chains) == Ok(docs[n]) && DistinctTags(docs[n].config)
  }

  function Configs(docs: map<string, NodeDocument>): map<string, Converter.Document> {
    map n | n in docs :: docs[n].config
  }

  lemma {:induction false} DialledAnswers(snap: Snapshot, n: string, b: Inbound, hop: Hop, doc: NodeDocument, k: nat, server: string, port: int)
    requires snap.Valid() && FrpParsed(snap)
    requires hop.nodeId == n && Dials(snap, hop, server, port) && !Manual(hop) && snap.inbounds[hop.inboundId] == b
    requires k < |doc.config.inbounds| && Listens(snap, n, b, doc.config.inbounds[k], doc.frpc)
    requires Exposed(b)
    ensures AnswersAt(snap, n, doc, k, server, port)
  {
    hide Text.TrimSpace, PublicPort, Converter.InboundTag, Certificate;
    var given := Addresses(snap, hop);
    assert given[0] == "";
    var j :| 0 <= j < |given| && given[j] == server != "" && forall i | 0 <= i < j :: given[i] == "";
    assert b.frp.FrpOn? ==> given[1] != "";
    assert !b.frp.FrpOn? ==> given[1] == "";
    if !b.frp.FrpOn? {
      assert j == 2 ==> (n, hop.inboundId) in snap.tls;
      assert NodeAddress(snap, n, server);
    } else {
      assert j == 1;
    }
  }

  lemma {:induction false} HopListener(snap: Snapshot, chains: seq<Chain>, docs: map<string, NodeDocument>, x: nat, i: nat) returns (k: nat)
    requires snap.Valid() && DocsBuilt(snap, chains, docs)
    requires x < |chains| && i < |chains[x].hops| && HopHere(chains, chains[x].hops[i].nodeId, x, i)
    requires chains[x].hops[i].nodeId in docs && chains[x].hops[i].inboundId in snap.inbounds
    ensures var n := chains[x].hops[i].nodeId;
            && Listener(snap, n, snap.inbounds[chains[x].hops[i].inboundId], docs[n], k)
            && docs[n].config.inbounds[k].tag == HopTag(snap, chains, x, i)
  {
    hide Build, Listens, Converter.InboundTag, Certificate;
    var hop := chains[x].hops[i];
    var n, b := hop.nodeId, snap.inbounds[hop.inboundId];
    BuiltListens(snap, n, chains);
    assert OnHop(snap, chains, n, x, i, b) && Assigned(snap, chains, n, b);
    HopEnabled(snap, chains, n, x, i);
    assert Served(snap, n, b, docs[n]);
    k :| Listener(snap, n, b, docs[n], k);
    ListenerTag(snap, n, b, docs[n], k);
  }

  /** The listener of a hop answers at the address and port its predecessor dials. */
  lemma {:induction false} HopAnswers(snap: Snapshot, chains: seq<Chain>, docs: map<string, NodeDocument>, x: nat, i: nat, server: string, port: int)
    returns (k: nat)
    requires snap.Valid() && FrpParsed(snap) && DocsBuilt(snap, chains, docs)
    requires x < |chains| && i < |chains[x].hops| && HopHere(chains, chains[x].hops[i].nodeId, x, i)
    requires chains[x].hops[i].nodeId in docs && Dials(snap, chains[x].hops[i], server, port)
    requires !Manual(chains[x].hops[i]) && Exposed(snap.inbounds[chains[x].hops[i].inboundId])
    ensures Answers(snap, docs, chains[x].hops[i].nodeId, k, server, port)
    ensures At(chains[x].hops[i].nodeId, docs[chains[x].hops[i].nodeId].config.inbounds[k].tag) == AtHop(snap, chains, x, i)
  {
    hide Build, Listens, Converter.InboundTag, Certificate, Text.TrimSpace, PublicPort, AnswersAt, FirstGiven, DialPort, DialServer;
    var hop := chains[x].hops[i];
    k := HopListener(snap, chains, docs, x, i);
    DialledAnswers(snap, hop.nodeId, snap.inbounds[hop.inboundId], hop, docs[hop.nodeId], k, server, port);
  }

  /** Some listener under the tag of the hop answers at the address. */
  ghost predicate Reaches(snap: Snapshot, chains: seq<Chain>, docs: map<string, NodeDocument>, x: nat, i: nat, server: string, port: int)
    requires x < |chains| && i < |chains[x].hops|
  {
    exists k: nat ::
      && Answers(snap, docs, chains[x].hops[i].nodeId, k, server, port)
      && docs[chains[x].hops[i].nodeId].config.inbounds[k].tag == HopTag(snap, chains, x, i)
  }

  /** A hop dialled by its rows is reached exactly when its inbound is not pinned to loopback. The
      build does not look at this: a chain through such an inbound builds, and breaks at it. */
  lemma {:induction false} HopReachedIff(snap: Snapshot, chains: seq<Chain>, docs: map<string, NodeDocument>, x: nat, i: nat, server: string, port: int)
    requires snap.Valid() && FrpParsed(snap) && DocsBuilt(snap, chains, docs)
    requires x < |chains| && i < |chains[x].hops| && HopHere(chains, chains[x].hops[i].nodeId, x, i)
    requires chains[x].hops[i].nodeId in docs && Dials(snap, chains[x].hops[i], server, port) && !Manual(chains[x].hops[i])
    ensures Reaches(snap, chains, docs, x, i, server, port) <==> Exposed(snap.inbounds[chains[x].hops[i].inboundId])
  {
    hide Build, Listens, Converter.InboundTag, Certificate, Text.TrimSpace, PublicPort, AnswersAt, FirstGiven, DialPort, DialServer;
    var hop := chains[x].hops[i];
    var n, b := hop.nodeId, snap.inbounds[hop.inboundId];
    if Exposed(b) {
      var k := HopAnswers(snap, chains, docs, x, i, server, port);
      assert Reaches(snap, chains, docs, x, i, server, port);
    } else if Reaches(snap, chains, docs, x, i, server, port) {
      var k: nat :| Answers(snap, docs, n, k, server, port) && docs[n].config.inbounds[k].tag == HopTag(snap, chains, x, i);
      var l := HopListener(snap, chains, docs, x, i);
      assert k == l;
      PinnedSilent(snap, n, b, docs[n], k, server, port);
    }
  }

  lemma {:induction false} PinnedSilent(snap: Snapshot, n: string, b: Inbound, doc: NodeDocument, k: nat, server: string, port: int)
    requires n in snap.nodes && Listener(snap, n, b, doc, k) && !Exposed(b)
    ensures !AnswersAt(snap, n, doc, k, server, port)
  {
    hide Converter.InboundTag, Certificate, PublicPort, NodeAddress;
  }

  lemma {:induction false} ListenerTag(snap: Snapshot, n: string, b: Inbound, doc: NodeDocument, k: nat)
    requires Listener(snap, n, b, doc, k)
    ensures doc.config.inbounds[k].tag == Converter.InboundTag(b)
  {
    hide Converter.InboundTag, Certificate;
  }

  lemma {:induction false} HopEnabled(snap: Snapshot, chains: seq<Chain>, n: string, x: nat, i: nat)
    requires snap.Valid() && Build(snap, n, chains).Ok? && HopHere(chains, n, x, i)
    ensures chains[x].hops[i].inboundId in snap.inbounds && snap.inbounds[chains[x].hops[i].inboundId].enabled
  {
    hide Build, AddChains, ApplyManagedTls, Converter.Convert, Relocate, OptionsFor, ResolveHopEndpoint;
    var parts, ins, doc := BuildStages(snap, n, chains);
    PartsOf(snap, n, chains, parts);
    assert Passed(x, i, |chains|, 0);
  }

  // ----- Walking by address -----

  ghost function StepBy(docs: map<string, NodeDocument>, net: Network, conn: Conn, p: Place): Place {
    if !p.At? then p
    else if p.node !in docs then Dropped(p.node)
    else
      match Decide(docs[p.node].config, p.tag, conn)
      case Leave => Left(p.node)
      case Drop => Dropped(p.node)
      case Forward(endpoint) => net(endpoint.server, endpoint.port)
  }

  ghost function WalkBy(docs: map<string, NodeDocument>, net: Network, conn: Conn, p: Place, n: nat): Place
    decreases n
  {
    if n == 0 then p else WalkBy(docs, net, conn, StepBy(docs, net, conn, p), n - 1)
  }

  /** Every node runs its build, and the hops a relay dials by their rows are exposed. */
  ghost predicate FleetReady(snap: Snapshot, chains: seq<Chain>, docs: map<string, NodeDocument>) {
    && BuiltFleet(snap, chains, Configs(docs)) && DocsBuilt(snap, chains, docs) && FrpParsed(snap)
    && (forall x, i | 0 <= x < |chains| && chains[x].enabled && 1 <= i < |chains[x].hops|
                      && !Manual(chains[x].hops[i]) && chains[x].hops[i].inboundId in snap.inbounds ::
          Exposed(snap.inbounds[chains[x].hops[i].inboundId]))
  }

  /** What a relay dials is where the next hop of its chain listens. */
  lemma {:induction false} DialledIsNext(
    snap: Snapshot, chains: seq<Chain>, docs: map<string, NodeDocument>, net: Network, x: nat, i: nat)
    requires FleetReady(snap, chains, docs) && Faithful(snap, chains, docs, net)
    requires x < |chains| && chains[x].enabled && i + 1 < |chains[x].hops|
    requires NextHop(snap, chains, x, i).Forward?
    ensures var endpoint := NextHop(snap, chains, x, i).endpoint;
            && Dials(snap, chains[x].hops[i + 1], endpoint.server, endpoint.port)
            && net(endpoint.server, endpoint.port) == AtHop(snap, chains, x, i + 1)
  {
    hide ResolveHopEndpoint, Dials, Answers, Build, Exposed, Manual, FrpParsed, RunsBuild, Converter.InboundTag;
    var hop := chains[x].hops[i + 1];
    EndpointIff(snap, chains[x], i + 1);
    var endpoint := NextHop(snap, chains, x, i).endpoint;
    if !Manual(hop) {
      assert hop.nodeId in Configs(docs);
      assert hop.inboundId in snap.inbounds by {
        assert Dials(snap, hop, endpoint.server, endpoint.port);
        DialsKnown(snap, hop, endpoint.server, endpoint.port);
      }
      var k := HopAnswers(snap, chains, docs, x, i + 1, endpoint.server, endpoint.port);
    }
  }

  lemma {:induction false} DialsKnown(snap: Snapshot, hop: Hop, server: string, port: int)
    requires Dials(snap, hop, server, port)
    ensures hop.inboundId in snap.inbounds
  {
    hide DialServer, DialPort;
  }

  /** In a built fleet traffic is only ever forwarded to the next hop of some chain. */
  lemma {:induction false} ForwardsAlongChains(
    snap: Snapshot, chains: seq<Chain>, fleet: map<string, Converter.Document>, conn: Conn, n: string, tag: string) returns (x: nat, i: nat)
    requires BuiltFleet(snap, chains, fleet) && n in fleet && Decide(fleet[n], tag, conn).Forward?
    ensures x < |chains| && chains[x].enabled && i + 1 < |chains[x].hops|
    ensures Decide(fleet[n], tag, conn) == NextHop(snap, chains, x, i)
  {
    hide Converter.InboundTag, Decide, RunsBuild, ResolveHopEndpoint, RuleApplies, PlanAction;
    if Transit(snap, chains, n, tag) {
      TransitStep(snap, chains, fleet, conn, n, tag);
      var g := SelectedAt(snap, chains, n, conn);
      x, i := RuleAtExit(snap, chains, n, conn, FlatRules(snap.plans)[g]);
    } else {
      x, i :| RelayHere(chains, n, x, i) && HopTag(snap, chains, x, i) == tag;
      RelayForwards(snap, chains, fleet, conn, n, x, i);
    }
  }

  lemma {:induction false} RelayForwards(
    snap: Snapshot, chains: seq<Chain>, fleet: map<string, Converter.Document>, conn: Conn, n: string, x: nat, i: nat)
    requires BuiltFleet(snap, chains, fleet) && n in fleet && RelayHere(chains, n, x, i)
    ensures Decide(fleet[n], HopTag(snap, chains, x, i), conn) == NextHop(snap, chains, x, i)
  {
    hide Converter.InboundTag, Build, Decide, PlanDecision, ResolveHopEndpoint;
    assert RunsBuild(snap, chains, fleet, n);
    BuiltDecides(snap, n, chains);
  }

  /** By address, a connection takes the very steps the labels of the tables say. */
  lemma {:induction false} StepByAddress(snap: Snapshot, chains: seq<Chain>, docs: map<string, NodeDocument>, net: Network, conn: Conn, p: Place)
    requires FleetReady(snap, chains, docs) && Faithful(snap, chains, docs, net)
    ensures StepBy(docs, net, conn, p) == Step(snap, Configs(docs), conn, p)
  {
    hide ResolveHopEndpoint, Dials, Answers, Build, FrpParsed, RunsBuild, Converter.InboundTag, Decide, Exposed, Faithful;
    if p.At? && p.node in docs {
      var d := Decide(docs[p.node].config, p.tag, conn);
      if d.Forward? {
        var x, i := ForwardsAlongChains(snap, chains, Configs(docs), conn, p.node, p.tag);
        NextHopLeadsOn(snap, chains, x, i);
        DialledIsNext(snap, chains, docs, net, x, i);
      }
    }
  }

  lemma {:induction false} WalkByAddress(
    snap: Snapshot, chains: seq<Chain>, docs: map<string, NodeDocument>, net: Network, conn: Conn, p: Place, n: nat)
    requires FleetReady(snap, chains, docs) && Faithful(snap, chains, docs, net)
    ensures WalkBy(docs, net, conn, p, n) == Walk(snap, Configs(docs), conn, p, n)
    decreases n
  {
    hide FleetReady, Faithful, Step, StepBy, Configs;
    if n > 0 {
      StepByAddress(snap, chains, docs, net, conn, p);
      WalkByAddress(snap, chains, docs, net, conn, StepBy(docs, net, conn, p), n - 1);
    }
  }

  /** Traffic on hop i of an enabled chain is brought by the addresses its relays dial to the
      listeners of hops i+1, i+2, ... of that chain, in order. */
  lemma {:induction false} DeliveredByAddress(
    snap: Snapshot, chains: seq<Chain>, docs: map<string, NodeDocument>, net: Network, conn: Conn, x: nat, i: nat, k: nat)
    requires FleetReady(snap, chains, docs) && Faithful(snap, chains, docs, net)
    requires x < |chains| && chains[x].enabled && i + k < |chains[x].hops|
    ensures WalkBy(docs, net, conn, AtHop(snap, chains, x, i), k) == AtHop(snap, chains, x, i + k)
  {
    hide Faithful, RunsBuild, Converter.InboundTag, Walk, WalkBy, Exposed, FrpParsed, DocsBuilt, Configs;
    WalkByAddress(snap, chains, docs, net, conn, AtHop(snap, chains, x, i), k);
    ChainDelivers(snap, chains, Configs(docs), conn, x, i, k);
  }

  /** Every connection that enters the fleet leaves it, or is rejected, after at most
      7 (R + 1) + 1 decisions when each forwarded connection goes where it is dialled. */
  lemma {:induction false} SettlesByAddress(
    snap: Snapshot, chains: seq<Chain>, docs: map<string, NodeDocument>, net: Network, conn: Conn, n: string, tag: string)
    requires FleetReady(snap, chains, docs) && Faithful(snap, chains, docs, net) && n in docs
    ensures !WalkBy(docs, net, conn, At(n, tag), 7 * (|FlatRules(snap.plans)| + 1) + 1).At?
  {
    hide Faithful, BuiltFleet, Walk, WalkBy, Exposed, FrpParsed, DocsBuilt;
    var total := 7 * (|FlatRules(snap.plans)| + 1) + 1;
    WalkByAddress(snap, chains, docs, net, conn, At(n, tag), total);
    EveryConnectionSettles(snap, chains, Configs(docs), conn, n, tag);
  }
}
