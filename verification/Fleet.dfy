/** Rows of the Panel store that the node configuration is compiled from. */
module Fleet {
  import opened Outcomes

  datatype PortMapping = PortMapping(listenPort: int, publicPort: int)

  datatype Node = Node(
    id: string,
    publicAddress: string,
    address: string,
    egressInterface: string,
    portMappings: seq<PortMapping>)

  /** What parsing the FRP parameters of an inbound yields. */
  datatype FrpParams =
    | FrpOff
    | FrpInvalid
    | FrpOn(serverAddr: string, serverPort: int, remotePort: int, user: string, proxyName: string)

  /** An inbound row. `mappable` says whether the protocol's own fields convert, and `dialable`
      whether an outbound can be rendered for it; both are facts of the row that the
      per-protocol mapping decides. `certPath` is the certificate its TLS parameters name. */
  datatype Inbound = Inbound(
    id: string,
    name: string,
    protocol: string,
    enabled: bool,
    listen: string,
    port: Option<int>,
    mappable: bool,
    dialable: bool,
    udpTransport: bool,
    certPath: string,
    frp: FrpParams)

  datatype Hop = Hop(nodeId: string, inboundId: string, dialAddress: string, dialPort: int, tlsSkipVerify: bool)

  datatype Chain = Chain(id: string, name: string, enabled: bool, hops: seq<Hop>)

  datatype PlanRule = PlanRule(
    enabled: bool, matchType: string, matchValue: string, action: string, targetChainId: string)

  datatype Plan = Plan(rules: seq<PlanRule>)

  /** The managed TLS binding of a (node, inbound) pair, once its rows are joined. */
  datatype ManagedTls = NotReady | Ready(fqdn: string, certPath: string)

  /** One consistent reading of the tables a build consults, apart from the chains.
      `attachments` holds each node's standalone inbounds with the node's FRP settings
      overlaid; `plans` are the enabled global plans in their stored order. */
  datatype Snapshot = Snapshot(
    nodes: map<string, Node>,
    attachments: map<string, seq<Inbound>>,
    inbounds: map<string, Inbound>,
    tls: map<(string, string), ManagedTls>,
    plans: seq<Plan>)
  {
    /** What the primary keys of the tables guarantee. */
    ghost predicate Valid() {
      && (forall k | k in nodes :: nodes[k].id == k)
      && (forall k | k in inbounds :: inbounds[k].id == k)
      && (forall n | n in attachments ::
            forall i, j | 0 <= i < j < |attachments[n]| :: attachments[n][i].id != attachments[n][j].id)
    }

    function StandaloneInbounds(nodeId: string): seq<Inbound> {
      if nodeId in attachments then attachments[nodeId] else []
    }
  }

  /** A stored chain: 2 to 8 hops on pairwise distinct nodes. */
  predicate ValidChain(c: Chain) {
    && 2 <= |c.hops| <= 8
    && forall i, j | 0 <= i < j < |c.hops| :: c.hops[i].nodeId != c.hops[j].nodeId
  }

  ghost predicate ValidChains(chains: seq<Chain>) {
    && (forall i | 0 <= i < |chains| :: ValidChain(chains[i]))
    && (forall i, j | 0 <= i < j < |chains| :: chains[i].id != chains[j].id)
  }

  /** A (node, inbound) pair belongs to at most one chain position: the stored chains are
      checked for this when they are created or replaced. */
  ghost predicate HopsOwnedOnce(chains: seq<Chain>) {
    forall x: nat, i: nat, y: nat, j: nat |
      x < |chains| && i < |chains[x].hops| && y < |chains| && j < |chains[y].hops|
      && chains[x].hops[i].nodeId == chains[y].hops[j].nodeId
      && chains[x].hops[i].inboundId == chains[y].hops[j].inboundId ::
      x == y && i == j
  }

  /** The client-facing port of an agent listen port: the first usable mapping. */
  function MapPublicPort(mappings: seq<PortMapping>, listenPort: int): int {
    if mappings == [] then listenPort
    else if mappings[0].listenPort == listenPort && 1 <= mappings[0].publicPort <= 65535 then mappings[0].publicPort
    else MapPublicPort(mappings[1..], listenPort)
  }
}
