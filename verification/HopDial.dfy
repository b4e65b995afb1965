/** The address and port at which a hop is dialled, read off the rows of that hop alone. */
module HopDial {
  import opened Outcomes
  import opened Fleet
  import opened NodeConfig
  import Converter
  import Text

  /** The value is the first candidate that is not empty. */
  ghost predicate FirstGiven(candidates: seq<string>, value: string) {
    exists k | 0 <= k < |candidates| ::
      candidates[k] == value != "" && forall j | 0 <= j < k :: candidates[j] == ""
  }

  /** The port clients use for a listen port: that of the first usable mapping, or the same. */
  ghost predicate PublicPort(mappings: seq<PortMapping>, listenPort: int, port: int) {
    || (exists k | 0 <= k < |mappings| :: Maps(mappings[k], listenPort) && mappings[k].publicPort == port
                                          && forall j | 0 <= j < k :: !Maps(mappings[j], listenPort))
    || (port == listenPort && forall j | 0 <= j < |mappings| :: !Maps(mappings[j], listenPort))
  }

  predicate Maps(m: PortMapping, listenPort: int) {
    m.listenPort == listenPort && 1 <= m.publicPort <= 65535
  }

  /** The rows behind a hop exist and are usable. */
  ghost predicate HopKnown(snap: Snapshot, hop: Hop) {
    && hop.nodeId in snap.nodes && hop.inboundId in snap.inbounds
    && ((hop.nodeId, snap.inbounds[hop.inboundId].id) in snap.tls ==>
          snap.tls[(hop.nodeId, snap.inbounds[hop.inboundId].id)].Ready?)
    && !snap.inbounds[hop.inboundId].frp.FrpInvalid?
  }

  /** Where a hop can be dialled, in order of preference: the address given for the hop, the FRPS
      host of its inbound, the managed name of the inbound on its node, and the node's addresses. */
  ghost function Addresses(snap: Snapshot, hop: Hop): seq<string>
    requires HopKnown(snap, hop)
  {
    var node, frp, key := snap.nodes[hop.nodeId], snap.inbounds[hop.inboundId].frp, (hop.nodeId, hop.inboundId);
    [
      Text.TrimSpace(hop.dialAddress),
      if frp.FrpOn? then frp.serverAddr else "",
      if key in snap.tls && snap.tls[key].Ready? then snap.tls[key].fqdn else "",
      Text.TrimSpace(node.publicAddress),
      Text.TrimSpace(node.address)
    ]
  }

  ghost predicate DialServer(snap: Snapshot, hop: Hop, server: string)
    requires HopKnown(snap, hop)
  {
    FirstGiven(Addresses(snap, hop), server)
  }

  /** The port given for the hop, else the remote port of an FRP inbound, else the public port of
      the port the inbound listens on. */
  ghost predicate DialPort(snap: Snapshot, hop: Hop, port: int)
    requires HopKnown(snap, hop)
  {
    var node, inb := snap.nodes[hop.nodeId], snap.inbounds[hop.inboundId];
    if hop.dialPort != 0 then port == hop.dialPort
    else if inb.frp.FrpOn? && inb.frp.remotePort != 0 then port == inb.frp.remotePort
    else inb.port.Some? && 1 <= inb.port.value <= 65535 && PublicPort(node.portMappings, inb.port.value, port)
  }

  ghost predicate Dials(snap: Snapshot, hop: Hop, server: string, port: int) {
    HopKnown(snap, hop) && DialServer(snap, hop, server) && DialPort(snap, hop, port)
  }

  ghost predicate Dialable(snap: Snapshot, hop: Hop) {
    exists server, port :: Dials(snap, hop, server, port)
  }

  // ----- What resolving a hop means -----

  lemma {:induction false} FirstNonEmptySpec(values: seq<string>)
    ensures FirstNonEmpty(values) != "" ==> FirstGiven(values, FirstNonEmpty(values))
    ensures FirstNonEmpty(values) == "" <==> forall k | 0 <= k < |values| :: values[k] == ""
    decreases |values|
  {
    if values != [] {
      assert values == [values[0]] + values[1..];
      FirstNonEmptySpec(values[1..]);
      if values[0] == "" && FirstNonEmpty(values[1..]) != "" {
        var k :| 0 <= k < |values[1..]| && values[1..][k] == FirstNonEmpty(values) && forall j | 0 <= j < k :: values[1..][j] == "";
        assert values[k + 1] == FirstNonEmpty(values);
        forall j | 0 <= j < k + 1 ensures values[j] == "" {
          assert j > 0 ==> values[j] == values[1..][j - 1];
        }
      }
    }
  }

  lemma {:induction false} FirstGivenUnique(values: seq<string>, a: string, b: string)
    requires FirstGiven(values, a) && FirstGiven(values, b)
    ensures a == b
  {
  }

  lemma {:induction false} MapPublicPortSpec(mappings: seq<PortMapping>, listenPort: int)
    ensures PublicPort(mappings, listenPort, MapPublicPort(mappings, listenPort))
    decreases |mappings|
  {
    if mappings != [] {
      MapPublicPortSpec(mappings[1..], listenPort);
      var port := MapPublicPort(mappings, listenPort);
      if Maps(mappings[0], listenPort) {
        assert mappings[0].publicPort == port;
      } else if exists k | 0 <= k < |mappings[1..]| :: Maps(mappings[1..][k], listenPort) && mappings[1..][k].publicPort == port
                                                    && forall j | 0 <= j < k :: !Maps(mappings[1..][j], listenPort) {
        var k :| 0 <= k < |mappings[1..]| && Maps(mappings[1..][k], listenPort) && mappings[1..][k].publicPort == port
              && forall j | 0 <= j < k :: !Maps(mappings[1..][j], listenPort);
        assert Maps(mappings[k + 1], listenPort) && mappings[k + 1].publicPort == port;
        forall j | 0 <= j < k + 1 ensures !Maps(mappings[j], listenPort) {
          assert j > 0 ==> mappings[j] == mappings[1..][j - 1];
        }
      } else {
        forall j | 0 <= j < |mappings| ensures !Maps(mappings[j], listenPort) {
          assert j > 0 ==> mappings[j] == mappings[1..][j - 1];
        }
      }
    }
  }

  lemma {:induction false} PublicPortUnique(mappings: seq<PortMapping>, listenPort: int, p: int, q: int)
    requires PublicPort(mappings, listenPort, p) && PublicPort(mappings, listenPort, q)
    ensures p == q
  {
  }

  /** At most one address and one port serve a hop. */
  lemma {:induction false} DialsUnique(snap: Snapshot, hop: Hop, server: string, port: int, server': string, port': int)
    requires Dials(snap, hop, server, port) && Dials(snap, hop, server', port')
    ensures server == server' && port == port'
  {
    hide FirstGiven, Addresses, PublicPort;
    FirstGivenUnique(Addresses(snap, hop), server, server');
    var node, inb := snap.nodes[hop.nodeId], snap.inbounds[hop.inboundId];
    if inb.port.Some? && PublicPort(node.portMappings, inb.port.value, port) && PublicPort(node.portMappings, inb.port.value, port') {
      PublicPortUnique(node.portMappings, inb.port.value, port, port');
    }
  }

  /** A hop resolves exactly when its rows are usable and give an address and a port, and then to
      that address and port of that very hop. */
  lemma {:induction false} EndpointIff(snap: Snapshot, chain: Chain, position: nat)
    requires snap.Valid() && position < |chain.hops|
    ensures var hop, r := chain.hops[position], ResolveHopEndpoint(snap, chain, position);
            && (r.Ok? <==> Dialable(snap, hop))
            && (r.Ok? ==>
                  && Dials(snap, hop, r.value.server, r.value.port)
                  && r.value == Converter.Endpoint(hop.nodeId, hop.inboundId, r.value.server, r.value.port, hop.tlsSkipVerify))
            && (forall server, port | Dials(snap, hop, server, port) :: r.Ok? && r.value.server == server && r.value.port == port)
    ensures var hop, r := chain.hops[position], ResolveHopEndpoint(snap, chain, position);
            && (r == Err(NoDialAddress(chain.id, position)) <==>
                  HopKnown(snap, hop) && forall k | 0 <= k < 5 :: Addresses(snap, hop)[k] == "")
            && (r == Err(HopPortInvalid(chain.id, position)) <==>
                  HopKnown(snap, hop) && (exists server :: DialServer(snap, hop, server)) && forall port :: !DialPort(snap, hop, port))
  {
    var hop, r := chain.hops[position], ResolveHopEndpoint(snap, chain, position);
    if HopKnown(snap, hop) {
      KnownEndpoint(snap, chain, position);
    } else {
      hide FirstNonEmpty, MapPublicPort, Text.TrimSpace;
    }
    hide ResolveHopEndpoint, HopKnown, DialServer, DialPort, Addresses;
    forall server, port | Dials(snap, hop, server, port) ensures r.Ok? && r.value.server == server && r.value.port == port {
      DialsUnique(snap, hop, server, port, r.value.server, r.value.port);
    }
  }

  lemma {:induction false} KnownEndpoint(snap: Snapshot, chain: Chain, position: nat)
    requires snap.Valid() && position < |chain.hops| && HopKnown(snap, chain.hops[position])
    ensures var hop, r := chain.hops[position], ResolveHopEndpoint(snap, chain, position);
            && (r.Ok? ==>
                  && Dials(snap, hop, r.value.server, r.value.port)
                  && r.value == Converter.Endpoint(hop.nodeId, hop.inboundId, r.value.server, r.value.port, hop.tlsSkipVerify))
            && (r.Err? ==> r.error == NoDialAddress(chain.id, position) || r.error == HopPortInvalid(chain.id, position))
            && (r == Err(NoDialAddress(chain.id, position)) <==> forall k | 0 <= k < 5 :: Addresses(snap, hop)[k] == "")
            && (r == Err(NoDialAddress(chain.id, position)) <==> forall server :: !DialServer(snap, hop, server))
            && (r == Err(HopPortInvalid(chain.id, position)) <==>
                  (exists server :: DialServer(snap, hop, server)) && forall port :: !DialPort(snap, hop, port))
  {
    var hop := chain.hops[position];
    var node, inb := snap.nodes[hop.nodeId], snap.inbounds[hop.inboundId];
    var server := FirstNonEmpty(Addresses(snap, hop));
    FirstNonEmptySpec(Addresses(snap, hop));
    if inb.port.Some? {
      MapPublicPortSpec(node.portMappings, inb.port.value);
    }
    assert server != "" ==> DialServer(snap, hop, server);
    assert |Addresses(snap, hop)| == 5;
    hide FirstGiven, FirstNonEmpty, MapPublicPort, PublicPort, Text.TrimSpace;
    assert server == "" <==> forall k | 0 <= k < 5 :: Addresses(snap, hop)[k] == "";
    var port := if hop.dialPort != 0 then hop.dialPort
                else if inb.frp.FrpOn? && inb.frp.remotePort != 0 then inb.frp.remotePort
                else if inb.port.Some? then MapPublicPort(node.portMappings, inb.port.value)
                else 0;
    assert DialPort(snap, hop, port) <==> exists p :: DialPort(snap, hop, p);
    NoneGiven(Addresses(snap, hop));
  }

  lemma {:induction false} NoneGiven(values: seq<string>)
    ensures (forall k | 0 <= k < |values| :: values[k] == "") ==> forall value :: !FirstGiven(values, value)
  {
  }
}
