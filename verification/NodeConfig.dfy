/** Assembles the complete configuration of one node: standalone inbounds, the hops of every
    effective chain that sit on the node, the global route plans, managed TLS, and the
    loopback relocation of FRP-exposed inbounds. */
module NodeConfig {
  import opened Outcomes
  import opened Fleet
  import Converter
  import LocalPorts
  import Text

  datatype Error =
    | NodeMissing(id: string)
    | InboundMissing(id: string)
    | HopInboundDisabled(chainId: string, position: nat)
    | HopConflict(chainId: string, position: nat)
    | HopNotDialable(chainId: string, position: nat)
    | CertificateNotReady(inboundId: string)
    | FrpParamsInvalid(inboundId: string)
    | NoDialAddress(chainId: string, position: nat)
    | HopPortInvalid(chainId: string, position: nat)
    | ConvertFailed(cause: Converter.Error)
    | FrpNotTcp(inboundId: string)
    | FrpRemotePortShared(inboundId: string)
    | FrpNameShared(inboundId: string)
    | NoLocalPort(inboundId: string)

  type Outcome<T> = Result<T, Error>

  /** The tag of the outbound that leaves hop `position` of a chain. */
  function ChainOutboundTag(chainId: string, position: nat): string {
    "chain-" + Text.Prefix(Text.Without(Text.ToLower(chainId), '-'), 12) + "-hop-" + Text.Decimal(position) + "-next"
  }

  function ResolveManagedTls(snap: Snapshot, nodeId: string, inb: Inbound): Outcome<Inbound> {
    if (nodeId, inb.id) !in snap.tls then Ok(inb)
    else
      match snap.tls[(nodeId, inb.id)]
      case NotReady => Err(CertificateNotReady(inb.id))
      case Ready(_, certPath) => Ok(inb.(certPath := certPath))
  }

  function ManagedHostname(snap: Snapshot, nodeId: string, inboundId: string): string {
    if (nodeId, inboundId) in snap.tls && snap.tls[(nodeId, inboundId)].Ready? then snap.tls[(nodeId, inboundId)].fqdn
    else ""
  }

  function FirstNonEmpty(values: seq<string>): string {
    if values == [] then "" else if values[0] != "" then values[0] else FirstNonEmpty(values[1..])
  }

  /** The address and port used to reach a hop from the hop before it. */
  function ResolveHopEndpoint(snap: Snapshot, chain: Chain, position: nat): Outcome<Converter.Endpoint>
    requires position < |chain.hops|
  {
    var hop := chain.hops[position];
    if hop.nodeId !in snap.nodes then Err(NodeMissing(hop.nodeId))
    else if hop.inboundId !in snap.inbounds then Err(InboundMissing(hop.inboundId))
    else
      var node := snap.nodes[hop.nodeId];
      var resolved := ResolveManagedTls(snap, hop.nodeId, snap.inbounds[hop.inboundId]);
      if resolved.Err? then Err(resolved.error)
      else
        var inb := resolved.value;
        if inb.frp.FrpInvalid? then Err(FrpParamsInvalid(inb.id))
        else
          var server := FirstNonEmpty([
                                        Text.TrimSpace(hop.dialAddress),
                                        if inb.frp.FrpOn? then inb.frp.serverAddr else "",
                                        ManagedHostname(snap, hop.nodeId, hop.inboundId),
                                        Text.TrimSpace(node.publicAddress),
                                        Text.TrimSpace(node.address)]);
          var dialled := if hop.dialPort == 0 && inb.frp.FrpOn? then inb.frp.remotePort else hop.dialPort;
          if server == "" then Err(NoDialAddress(chain.id, position))
          else if dialled != 0 then
            Ok(Converter.Endpoint(hop.nodeId, hop.inboundId, server, dialled, hop.tlsSkipVerify))
          else if inb.port.None? || !(1 <= inb.port.value <= 65535) then Err(HopPortInvalid(chain.id, position))
          else
            Ok(Converter.Endpoint(hop.nodeId, hop.inboundId, server,
                                  MapPublicPort(node.portMappings, inb.port.value), hop.tlsSkipVerify))
  }

  // ----- Chain hops on the node -----

  datatype Parts = Parts(inbounds: seq<Inbound>, ids: set<string>, routes: seq<Converter.ChainRoute>)

  function AddHop(snap: Snapshot, node: Node, chain: Chain, i: nat, acc: Parts): Outcome<Parts>
    requires i < |chain.hops|
  {
    var hop := chain.hops[i];
    if hop.nodeId != node.id then Ok(acc)
    else if hop.inboundId !in snap.inbounds then Err(InboundMissing(hop.inboundId))
    else
      var inb := snap.inbounds[hop.inboundId];
      if !inb.enabled then Err(HopInboundDisabled(chain.id, i))
      else if inb.id in acc.ids then Err(HopConflict(chain.id, i))
      else
        var joined := Parts(acc.inbounds + [inb], acc.ids + {inb.id}, acc.routes);
        if i == |chain.hops| - 1 then Ok(joined)
        else
          var endpoint := ResolveHopEndpoint(snap, chain, i + 1);
          if endpoint.Err? then Err(endpoint.error)
          else if !snap.inbounds[endpoint.value.inboundId].dialable then Err(HopNotDialable(chain.id, i))
          else
            var out := Converter.DialOut(ChainOutboundTag(chain.id, i), endpoint.value, Text.TrimSpace(node.egressInterface));
            Ok(joined.(routes := joined.routes + [Converter.ChainRoute(hop.inboundId, out)]))
  }

  function AddHops(snap: Snapshot, node: Node, chain: Chain, i: nat, acc: Parts): Outcome<Parts>
    requires i <= |chain.hops|
    decreases |chain.hops| - i
  {
    if i == |chain.hops| then Ok(acc)
    else
      var next := AddHop(snap, node, chain, i, acc);
      if next.Err? then next else AddHops(snap, node, chain, i + 1, next.value)
  }

  function AddChains(snap: Snapshot, node: Node, chains: seq<Chain>, i: nat, acc: Parts): Outcome<Parts>
    requires i <= |chains|
    decreases |chains| - i
  {
    if i == |chains| then Ok(acc)
    else
      var next := if chains[i].enabled then AddHops(snap, node, chains[i], 0, acc) else Ok(acc);
      if next.Err? then next else AddChains(snap, node, chains, i + 1, next.value)
  }

  function Standalone(snap: Snapshot, nodeId: string): Parts {
    var ins := snap.StandaloneInbounds(nodeId);
    Parts(ins, set k | 0 <= k < |ins| :: ins[k].id, [])
  }

  method CollectHops(snap: Snapshot, node: Node, chains: seq<Chain>) returns (r: Outcome<Parts>)
    ensures r == AddChains(snap, node, chains, 0, Standalone(snap, node.id))
  {
    hide AddHop;
    var acc := Standalone(snap, node.id);
    for i := 0 to |chains|
      invariant AddChains(snap, node, chains, i, acc) == AddChains(snap, node, chains, 0, Standalone(snap, node.id))
    {
      if chains[i].enabled {
        var before := acc;
        for j := 0 to |chains[i].hops|
          invariant AddHops(snap, node, chains[i], j, acc) == AddHops(snap, node, chains[i], 0, before)
        {
          var next := AddHop(snap, node, chains[i], j, acc);
          if next.Err? {
            return next;
          }
          acc := next.value;
        }
      }
    }
    return Ok(acc);
  }

  // ----- Managed TLS -----

  function ApplyManagedTls(snap: Snapshot, nodeId: string, ins: seq<Inbound>): Outcome<seq<Inbound>> {
    if ins == [] then Ok([])
    else
      var rest := ApplyManagedTls(snap, nodeId, ins[..|ins| - 1]);
      if rest.Err? then rest
      else
        var last := ResolveManagedTls(snap, nodeId, ins[|ins| - 1]);
        if last.Err? then Err(last.error) else Ok(rest.value + [last.value])
  }

  lemma {:induction false} ApplyManagedTlsFails(snap: Snapshot, nodeId: string, ins: seq<Inbound>, i: nat)
    requires i <= |ins| && ApplyManagedTls(snap, nodeId, ins[..i]).Err?
    ensures ApplyManagedTls(snap, nodeId, ins) == ApplyManagedTls(snap, nodeId, ins[..i])
    decreases |ins|
  {
    if i < |ins| {
      assert ins[..|ins| - 1][..i] == ins[..i];
      ApplyManagedTlsFails(snap, nodeId, ins[..|ins| - 1], i);
    } else {
      assert ins[..i] == ins;
    }
  }

  method OverlayManagedTls(snap: Snapshot, nodeId: string, ins: seq<Inbound>) returns (r: Outcome<seq<Inbound>>)
    ensures r == ApplyManagedTls(snap, nodeId, ins)
  {
    var out := [];
    for i := 0 to |ins|
      invariant ApplyManagedTls(snap, nodeId, ins[..i]) == Ok(out)
    {
      hide ResolveManagedTls;
      var resolved := ResolveManagedTls(snap, nodeId, ins[i]);
      assert ins[..i + 1][..i] == ins[..i];
      if resolved.Err? {
        ApplyManagedTlsFails(snap, nodeId, ins, i + 1);
        return Err(resolved.error);
      }
      out := out + [resolved.value];
    }
    assert ins[..|ins|] == ins;
    return Ok(out);
  }

  /** Everything about an inbound that managed TLS leaves alone. */
  ghost predicate SameButCertificate(a: Inbound, b: Inbound) {
    a.(certPath := "") == b.(certPath := "")
  }

  ghost predicate CertificateReady(snap: Snapshot, nodeId: string, inb: Inbound) {
    (nodeId, inb.id) in snap.tls ==> snap.tls[(nodeId, inb.id)].Ready?
  }

  /** The certificate an inbound serves on a node: that of its managed binding if it has one. */
  ghost function Certificate(snap: Snapshot, nodeId: string, inb: Inbound): string {
    var key := (nodeId, inb.id);
    if key in snap.tls && snap.tls[key].Ready? then snap.tls[key].certPath else inb.certPath
  }

  ghost predicate Overlaid(snap: Snapshot, nodeId: string, before: seq<Inbound>, after: seq<Inbound>) {
    && |before| == |after|
    && forall k | 0 <= k < |before| ::
         SameButCertificate(after[k], before[k]) && after[k].certPath == Certificate(snap, nodeId, before[k])
  }

  /** The overlay succeeds exactly when no inbound has a managed certificate that is not ready;
      then every inbound names its managed certificate and is otherwise what it was. The first
      inbound whose certificate is not ready is the one reported. */
  lemma {:induction false} ManagedTlsIff(snap: Snapshot, nodeId: string, ins: seq<Inbound>)
    ensures var r := ApplyManagedTls(snap, nodeId, ins);
            && (r.Ok? <==> forall k | 0 <= k < |ins| :: CertificateReady(snap, nodeId, ins[k]))
            && (r.Ok? ==> Overlaid(snap, nodeId, ins, r.value))
            && (r.Err? ==> exists k | 0 <= k < |ins| ::
                             && r.error == CertificateNotReady(ins[k].id) && !CertificateReady(snap, nodeId, ins[k])
                             && forall j | 0 <= j < k :: CertificateReady(snap, nodeId, ins[j]))
  {
    if ins != [] {
      var front := ins[..|ins| - 1];
      ManagedTlsIff(snap, nodeId, front);
      if ApplyManagedTls(snap, nodeId, front).Err? {
        var k :| 0 <= k < |front| && ApplyManagedTls(snap, nodeId, front).error == CertificateNotReady(front[k].id)
              && !CertificateReady(snap, nodeId, front[k]) && forall j | 0 <= j < k :: CertificateReady(snap, nodeId, front[j]);
        assert ins[k] == front[k] && forall j | 0 <= j < k :: ins[j] == front[j];
      }
    }
  }

  // ----- Global route plans -----

  /** Where traffic enters a chain from a node: its next-hop outbound there, "direct" at the
      exit, nothing when the node is not on the (effective) chain. */
  function HopOutbound(chain: Chain, nodeId: string, i: nat): Option<string>
    requires i <= |chain.hops|
    decreases |chain.hops| - i
  {
    if i == |chain.hops| then None
    else if chain.hops[i].nodeId != nodeId then HopOutbound(chain, nodeId, i + 1)
    else if i == |chain.hops| - 1 then Some("direct")
    else Some(ChainOutboundTag(chain.id, i))
  }

  function ChainOutboundForNode(chains: seq<Chain>, chainId: string, nodeId: string): Option<string> {
    if chains == [] then None
    else if chains[0].id != chainId || !chains[0].enabled then ChainOutboundForNode(chains[1..], chainId, nodeId)
    else HopOutbound(chains[0], nodeId, 0)
  }

  function ResolvePlanRule(rule: PlanRule, chains: seq<Chain>, nodeId: string): seq<Converter.PlannedRule> {
    if !rule.enabled || rule.matchType == "process_name" then []
    else if rule.action == "direct" then [Converter.PlannedRule(rule.matchType, rule.matchValue, "direct", false)]
    else if rule.action == "block" then [Converter.PlannedRule(rule.matchType, rule.matchValue, "", true)]
    else if rule.action == "proxy" then
      var out := ChainOutboundForNode(chains, rule.targetChainId, nodeId);
      if out.None? then [] else [Converter.PlannedRule(rule.matchType, rule.matchValue, out.value, false)]
    else []
  }

  function ResolvePlanRules(rules: seq<PlanRule>, chains: seq<Chain>, nodeId: string): seq<Converter.PlannedRule> {
    if rules == [] then []
    else ResolvePlanRule(rules[0], chains, nodeId) + ResolvePlanRules(rules[1..], chains, nodeId)
  }

  function FlatRules(plans: seq<Plan>): seq<PlanRule> {
    if plans == [] then [] else plans[0].rules + FlatRules(plans[1..])
  }

  lemma {:induction false} ResolveConcat(a: seq<PlanRule>, b: seq<PlanRule>, chains: seq<Chain>, nodeId: string)
    ensures ResolvePlanRules(a + b, chains, nodeId)
         == ResolvePlanRules(a, chains, nodeId) + ResolvePlanRules(b, chains, nodeId)
  {
    hide ResolvePlanRule;
    if a == [] {
      assert a + b == b;
    } else {
      assert (a + b)[0] == a[0] && (a + b)[1..] == a[1..] + b;
      ResolveConcat(a[1..], b, chains, nodeId);
    }
  }

  method GlobalRouteRules(plans: seq<Plan>, chains: seq<Chain>, nodeId: string) returns (out: seq<Converter.PlannedRule>)
    ensures out == ResolvePlanRules(FlatRules(plans), chains, nodeId)
  {
    hide ResolvePlanRule;
    out := [];
    for p := 0 to |plans|
      invariant out + ResolvePlanRules(FlatRules(plans[p..]), chains, nodeId) == ResolvePlanRules(FlatRules(plans), chains, nodeId)
    {
      var rules := plans[p].rules;
      ghost var before := out;
      for i := 0 to |rules|
        invariant out + ResolvePlanRules(rules[i..], chains, nodeId) == before + ResolvePlanRules(rules, chains, nodeId)
      {
        assert rules[i..][0] == rules[i] && rules[i..][1..] == rules[i + 1..];
        out := out + ResolvePlanRule(rules[i], chains, nodeId);
      }
      assert rules[|rules|..] == [] && out + [] == out;
      assert out == before + ResolvePlanRules(rules, chains, nodeId);
      assert plans[p..][0] == plans[p] && plans[p..][1..] == plans[p + 1..];
      ghost var rest := FlatRules(plans[p + 1..]);
      assert FlatRules(plans[p..]) == rules + rest;
      ResolveConcat(rules, rest, chains, nodeId);
      assert out + ResolvePlanRules(rest, chains, nodeId)
          == before + (ResolvePlanRules(rules, chains, nodeId) + ResolvePlanRules(rest, chains, nodeId));
    }
  }

  // ----- FRP relocation -----

  datatype FrpcEntry = FrpcEntry(
    serverAddr: string, serverPort: int, remotePort: int, user: string, proxyName: string, localPort: int)

  datatype Relocation = Relocation(
    entries: seq<Converter.Entry>,
    frpc: map<string, FrpcEntry>,
    remotePorts: set<string>,
    proxyNames: set<string>,
    used: set<int>)

  function RemotePortKey(frp: FrpParams): string
    requires frp.FrpOn?
  {
    frp.serverAddr + ":" + Text.Decimal(frp.serverPort) + ":" + Text.Decimal(frp.remotePort)
  }

  function ProxyNameKey(frp: FrpParams, tag: string): string
    requires frp.FrpOn?
  {
    var named := Text.TrimSpace(frp.proxyName);
    frp.serverAddr + ":" + Text.Decimal(frp.serverPort) + ":" + frp.user + ":" + if named == "" then tag else named
  }

  function RelocateOne(inb: Inbound, k: nat, acc: Relocation): Outcome<Relocation>
    requires k < |acc.entries|
  {
    if inb.frp.FrpInvalid? then Err(FrpParamsInvalid(inb.id))
    else if inb.frp.FrpOff? then Ok(acc)
    else if inb.protocol == "hysteria2" || inb.protocol == "tuic" || acc.entries[k].udpTransport then Err(FrpNotTcp(inb.id))
    else
      var tag := acc.entries[k].tag;
      if RemotePortKey(inb.frp) in acc.remotePorts then Err(FrpRemotePortShared(inb.id))
      else if ProxyNameKey(inb.frp, tag) in acc.proxyNames then Err(FrpNameShared(inb.id))
      else
        var port := LocalPorts.Allocate(tag, acc.used);
        if port.None? then Err(NoLocalPort(inb.id))
        else
          Ok(Relocation(
               acc.entries[k := acc.entries[k].(listen := "127.0.0.1", port := port.value)],
               acc.frpc[tag := FrpcEntry(inb.frp.serverAddr, inb.frp.serverPort, inb.frp.remotePort,
                                         inb.frp.user, inb.frp.proxyName, port.value)],
               acc.remotePorts + {RemotePortKey(inb.frp)},
               acc.proxyNames + {ProxyNameKey(inb.frp, tag)},
               acc.used + {port.value}))
  }

  function Relocate(enabled: seq<Inbound>, k: nat, acc: Relocation): Outcome<Relocation>
    requires k <= |enabled| == |acc.entries|
    decreases |enabled| - k
  {
    if k == |enabled| then Ok(acc)
    else
      var next := RelocateOne(enabled[k], k, acc);
      if next.Err? then next else Relocate(enabled, k + 1, next.value)
  }

  function PortsInUse(entries: seq<Converter.Entry>): set<int> {
    set k | 0 <= k < |entries| :: entries[k].port
  }

  function StartRelocation(entries: seq<Converter.Entry>): Relocation {
    Relocation(entries, map[], {}, {}, PortsInUse(entries))
  }

  method CollectPorts(entries: seq<Converter.Entry>) returns (used: set<int>)
    ensures used == PortsInUse(entries)
  {
    used := {};
    for k := 0 to |entries|
      invariant used == PortsInUse(entries[..k])
    {
      assert entries[..k + 1] == entries[..k] + [entries[k]];
      used := used + {entries[k].port};
    }
    assert entries[..|entries|] == entries;
  }

  method RelocateFrpListeners(ins: seq<Inbound>, entries: seq<Converter.Entry>) returns (r: Outcome<Relocation>)
    requires |entries| == |Converter.Enabled(ins)|
    ensures r == Relocate(Converter.Enabled(ins), 0, StartRelocation(entries))
  {
    hide RelocateOne, PortsInUse, Converter.Enabled;
    var used := CollectPorts(entries);
    var acc := Relocation(entries, map[], {}, {}, used);
    var convertedIndex := 0;
    ghost var enabled := Converter.Enabled(ins);
    NextEnabled(ins, 0);
    for i := 0 to |ins|
      invariant convertedIndex == |Converter.Enabled(ins[..i])| <= |enabled| == |acc.entries|
      invariant Relocate(enabled, convertedIndex, acc) == Relocate(enabled, 0, StartRelocation(entries))
    {
      NextEnabled(ins, i);
      if ins[i].enabled {
        var next := RelocateOne(ins[i], convertedIndex, acc);
        convertedIndex := convertedIndex + 1;
        if next.Err? {
          return next;
        }
        RelocateOneKeepsLength(ins[i], convertedIndex - 1, acc);
        acc := next.value;
      }
    }
    assert ins[..|ins|] == ins;
    return Ok(acc);
  }

  /** Walking the inbounds in order, the k-th enabled one is the k-th element of the filter. */
  lemma {:induction false} NextEnabled(ins: seq<Inbound>, i: nat)
    requires i <= |ins|
    ensures Converter.Enabled(ins[..0]) == []
    ensures |Converter.Enabled(ins[..i])| <= |Converter.Enabled(ins)|
    ensures i < |ins| && !ins[i].enabled ==> Converter.Enabled(ins[..i + 1]) == Converter.Enabled(ins[..i])
    ensures i < |ins| && ins[i].enabled ==>
              && |Converter.Enabled(ins[..i + 1])| == |Converter.Enabled(ins[..i])| + 1 <= |Converter.Enabled(ins)|
              && Converter.Enabled(ins)[|Converter.Enabled(ins[..i])|] == ins[i]
  {
    EnabledPrefix(ins, i);
    if i < |ins| {
      assert ins[..i + 1][..i] == ins[..i];
      EnabledPrefix(ins, i + 1);
    }
  }

  lemma {:induction false} EnabledPrefix(ins: seq<Inbound>, n: nat)
    requires n <= |ins|
    ensures Converter.Enabled(ins[..n]) <= Converter.Enabled(ins)
    decreases |ins| - n
  {
    if n < |ins| {
      assert ins[..n + 1][..n] == ins[..n];
      EnabledPrefix(ins, n + 1);
    } else {
      assert ins[..n] == ins;
    }
  }

  lemma {:induction false} RelocateOneKeepsLength(inb: Inbound, k: nat, acc: Relocation)
    requires k < |acc.entries| && RelocateOne(inb, k, acc).Ok?
    ensures |RelocateOne(inb, k, acc).value.entries| == |acc.entries|
  {
    hide RemotePortKey, ProxyNameKey, LocalPorts.Allocate;
  }

  // ----- The whole build -----

  datatype NodeDocument = NodeDocument(config: Converter.Document, frpc: map<string, FrpcEntry>)

  function OptionsFor(snap: Snapshot, node: Node, chains: seq<Chain>, parts: Parts): Converter.Options {
    Converter.Options(node.egressInterface, true, parts.routes, ResolvePlanRules(FlatRules(snap.plans), chains, node.id))
  }

  function Finish(inbounds: seq<Inbound>, converted: Outcome<Converter.Document>): Outcome<NodeDocument>
    requires converted.Ok? ==> |converted.value.inbounds| == |Converter.Enabled(inbounds)|
  {
    if converted.Err? then Err(converted.error)
    else
      var moved := Relocate(Converter.Enabled(inbounds), 0, StartRelocation(converted.value.inbounds));
      if moved.Err? then Err(moved.error)
      else Ok(NodeDocument(converted.value.(inbounds := moved.value.entries), moved.value.frpc))
  }

  function ConvertParts(inbounds: seq<Inbound>, opts: Converter.Options): (r: Outcome<Converter.Document>)
    ensures r.Ok? ==> |r.value.inbounds| == |Converter.Enabled(inbounds)|
  {
    hide Converter.Convert;
    var converted := Converter.Convert(inbounds, opts);
    if converted.Err? then Err(ConvertFailed(converted.error))
    else
      Converter.EntriesMatchInbounds(inbounds, opts);
      Ok(converted.value)
  }

  /** The node's configuration against an explicit effective chain set. */
  function Build(snap: Snapshot, nodeId: string, chains: seq<Chain>): Outcome<NodeDocument> {
    if nodeId !in snap.nodes then Err(NodeMissing(nodeId))
    else
      var node := snap.nodes[nodeId];
      var parts := AddChains(snap, node, chains, 0, Standalone(snap, node.id));
      if parts.Err? then Err(parts.error)
      else
        var inbounds := ApplyManagedTls(snap, node.id, parts.value.inbounds);
        if inbounds.Err? then Err(inbounds.error)
        else Finish(inbounds.value, ConvertParts(inbounds.value, OptionsFor(snap, node, chains, parts.value)))
  }

  method BuildWithChains(snap: Snapshot, nodeId: string, chains: seq<Chain>) returns (r: Outcome<NodeDocument>)
    ensures r == Build(snap, nodeId, chains)
  {
    if nodeId !in snap.nodes {
      return Err(NodeMissing(nodeId));
    }
    hide AddChains, ApplyManagedTls, ResolvePlanRules, Converter.Convert, Relocate;
    var node := snap.nodes[nodeId];
    var parts := CollectHops(snap, node, chains);
    if parts.Err? {
      return Err(parts.error);
    }
    var inbounds := OverlayManagedTls(snap, node.id, parts.value.inbounds);
    if inbounds.Err? {
      return Err(inbounds.error);
    }
    var rules := GlobalRouteRules(snap.plans, chains, node.id);
    var opts := Converter.Options(node.egressInterface, true, parts.value.routes, rules);
    var converted := Converter.ConvertDocument(inbounds.value, opts);
    assert ConvertParts(inbounds.value, opts).Err? <==> converted.Err?;
    if converted.Err? {
      return Err(ConvertFailed(converted.error));
    }
    var moved := RelocateFrpListeners(inbounds.value, converted.value.inbounds);
    if moved.Err? {
      return Err(moved.error);
    }
    return Ok(NodeDocument(converted.value.(inbounds := moved.value.entries), moved.value.frpc));
  }

  function EnabledChains(chains: seq<Chain>): seq<Chain> {
    if chains == [] then []
    else (if chains[0].enabled then [chains[0]] else []) + EnabledChains(chains[1..])
  }
}
