/** When a node's configuration builds, on the rows: the stages of the build taken together. */
module BuildOutcomes {
  import opened Outcomes
  import opened Fleet
  import opened NodeConfig
  import opened ChainTables
  import opened NodeTables
  import opened RouteOrder
  import opened FrpProxies
  import opened HopDial
  import opened ListenerRows
  import opened StageOutcomes
  import Converter
  import LocalPorts
  import Text

  /** Every hop of the node is usable, on an inbound that is neither one of the node's own nor that of
      another of its hops. */
  ghost predicate HopsUsable(snap: Snapshot, nodeId: string, chains: seq<Chain>) {
    && (forall x: nat, i: nat | HopHere(chains, nodeId, x, i) ::
          && HopUsable(snap, chains, x, i)
          && forall b | b in snap.StandaloneInbounds(nodeId) :: b.id != chains[x].hops[i].inboundId)
    && (forall x: nat, i: nat, y: nat, j: nat |
          HopHere(chains, nodeId, x, i) && HopHere(chains, nodeId, y, j) && chains[x].hops[i].inboundId == chains[y].hops[j].inboundId ::
          x == y && i == j)
  }

  /** The relay hops of the node leave under names of their own. */
  ghost predicate NamesApart(nodeId: string, chains: seq<Chain>) {
    hide ChainOutboundTag;
    forall x: nat, i: nat, y: nat, j: nat |
      RelayHere(chains, nodeId, x, i) && RelayHere(chains, nodeId, y, j)
      && ChainOutboundTag(chains[x].id, i) == ChainOutboundTag(chains[y].id, j) ::
      x == y && i == j
  }

  /** An enabled row the node listens for. */
  ghost predicate Active(snap: Snapshot, chains: seq<Chain>, nodeId: string, b: Inbound) {
    Assigned(snap, chains, nodeId, b) && b.enabled
  }

  /** The row converts, and its FRP settings are valid and fit its transport. */
  predicate RowGood(b: Inbound) {
    && Convertible(b) && !b.frp.FrpInvalid?
    && (b.frp.FrpOn? ==> b.protocol != "hysteria2" && b.protocol != "tuic" && !b.udpTransport)
  }

  /** The rows listen at different places, and do not ask an FRPS for the same port or for names
      rendered alike. */
  ghost predicate RowsFit(b: Inbound, c: Inbound) {
    hide Converter.InboundTag, ProxyNameKey;
    && ListenAt(b) != ListenAt(c)
    && (b.frp.FrpOn? && c.frp.FrpOn? ==>
          !SamePort(b.frp, c.frp) && ProxyNameKey(b.frp, Converter.InboundTag(b)) != ProxyNameKey(c.frp, Converter.InboundTag(c)))
  }

  /** The tables allow the node to be built. */
  ghost predicate Buildable(snap: Snapshot, nodeId: string, chains: seq<Chain>) {
    && nodeId in snap.nodes
    && HopsUsable(snap, nodeId, chains)
    && NamesApart(nodeId, chains)
    && (forall b | Assigned(snap, chains, nodeId, b) :: CertificateReady(snap, nodeId, b))
    && (forall b | Active(snap, chains, nodeId, b) :: RowGood(b))
    && (forall b, c | Active(snap, chains, nodeId, b) && Active(snap, chains, nodeId, c) && b != c :: RowsFit(b, c))
  }

  // ----- Collecting and certificates -----

  lemma {:induction false} CollectIff(snap: Snapshot, nodeId: string, chains: seq<Chain>)
    requires snap.Valid() && nodeId in snap.nodes
    ensures AddChains(snap, snap.nodes[nodeId], chains, 0, Standalone(snap, nodeId)).Ok? <==> HopsUsable(snap, nodeId, chains)
  {
    hide AddChains, HopUsable;
    var start := Standalone(snap, nodeId);
    ChainsIff(snap, snap.nodes[nodeId], chains, 0, start);
    assert forall x: nat, i: nat :: !Passed(x, i, 0, 0);
    hide Passed;
    StandaloneIds(snap, nodeId);
    assert UsableFrom(snap, chains, nodeId, 0, 0, start.ids) <==> HopsUsable(snap, nodeId, chains);
  }

  lemma {:induction false} StandaloneIds(snap: Snapshot, nodeId: string)
    ensures forall id :: id in Standalone(snap, nodeId).ids <==> exists b :: b in snap.StandaloneInbounds(nodeId) && b.id == id
  {
    var ins := snap.StandaloneInbounds(nodeId);
    forall id | id in Standalone(snap, nodeId).ids ensures exists b :: b in ins && b.id == id {
      var k :| 0 <= k < |ins| && ins[k].id == id;
      assert ins[k] in ins;
    }
  }

  lemma {:induction false} CertificatesIff(snap: Snapshot, nodeId: string, chains: seq<Chain>, rows: seq<Inbound>)
    requires forall b :: b in rows <==> Assigned(snap, chains, nodeId, b)
    ensures ApplyManagedTls(snap, nodeId, rows).Ok? <==> forall b | Assigned(snap, chains, nodeId, b) :: CertificateReady(snap, nodeId, b)
  {
    ManagedTlsIff(snap, nodeId, rows);
    hide ApplyManagedTls, Assigned, CertificateReady, Overlaid;
    forall k | 0 <= k < |rows| ensures Assigned(snap, chains, nodeId, rows[k]) {
      assert rows[k] in rows;
    }
  }

  // ----- Rows and enabled inbounds -----

  /** The same row but for the certificate. */
  lemma {:induction false} SameRow(c: Inbound, b: Inbound)
    requires SameButCertificate(c, b)
    ensures Convertible(c) == Convertible(b) && ListenAt(c) == ListenAt(b) && c.frp == b.frp && c.protocol == b.protocol
    ensures c.udpTransport == b.udpTransport && c.enabled == b.enabled && c.id == b.id && Converter.InboundTag(c) == Converter.InboundTag(b)
  {
    SameTag(c, b);
    hide Converter.InboundTag;
  }

  ghost predicate RowsOf(snap: Snapshot, nodeId: string, chains: seq<Chain>, rows: seq<Inbound>, ins: seq<Inbound>) {
    && (forall b :: b in rows <==> Assigned(snap, chains, nodeId, b))
    && Converter.DistinctIds(rows) && Overlaid(snap, nodeId, rows, ins)
  }

  /** The enabled inbound behind an active row, and back. */
  lemma {:induction false} ActivePlace(snap: Snapshot, nodeId: string, chains: seq<Chain>, rows: seq<Inbound>, ins: seq<Inbound>, b: Inbound)
    returns (k: nat)
    requires RowsOf(snap, nodeId, chains, rows, ins) && Active(snap, chains, nodeId, b)
    ensures k < |Converter.Enabled(ins)| && SameButCertificate(Converter.Enabled(ins)[k], b)
  {
    hide Assigned;
    var j :| 0 <= j < |rows| && rows[j] == b;
    SameRow(ins[j], b);
    k := EnabledPlace(ins, j);
  }

  lemma {:induction false} ActiveOrigin(snap: Snapshot, nodeId: string, chains: seq<Chain>, rows: seq<Inbound>, ins: seq<Inbound>, k: nat)
    returns (b: Inbound)
    requires RowsOf(snap, nodeId, chains, rows, ins) && k < |Converter.Enabled(ins)|
    ensures Active(snap, chains, nodeId, b) && SameButCertificate(Converter.Enabled(ins)[k], b)
  {
    hide Assigned;
    var j := EnabledOrigin(ins, k);
    b := rows[j];
    assert b in rows;
    SameRow(ins[j], b);
  }

  lemma {:induction false} EnabledIdsApart(snap: Snapshot, nodeId: string, chains: seq<Chain>, rows: seq<Inbound>, ins: seq<Inbound>)
    requires RowsOf(snap, nodeId, chains, rows, ins)
    ensures Converter.DistinctIds(ins) && Converter.DistinctIds(Converter.Enabled(ins))
  {
    hide Assigned;
    forall j, k | 0 <= j < k < |ins| ensures ins[j].id != ins[k].id {
      SameRow(ins[j], rows[j]);
      SameRow(ins[k], rows[k]);
    }
    Converter.EnabledKeepsIdsDistinct(ins);
  }

  /** Two active rows behind two enabled inbounds. */
  lemma {:induction false} RowsDiffer(snap: Snapshot, nodeId: string, chains: seq<Chain>, rows: seq<Inbound>, ins: seq<Inbound>,
                                      j: nat, k: nat, b: Inbound, c: Inbound)
    requires RowsOf(snap, nodeId, chains, rows, ins) && j < |Converter.Enabled(ins)| && k < |Converter.Enabled(ins)|
    requires Active(snap, chains, nodeId, b) && SameButCertificate(Converter.Enabled(ins)[j], b)
    requires Active(snap, chains, nodeId, c) && SameButCertificate(Converter.Enabled(ins)[k], c)
    ensures j == k <==> b == c
  {
    EnabledIdsApart(snap, nodeId, chains, rows, ins);
    hide Assigned;
    SameRow(Converter.Enabled(ins)[j], b);
    SameRow(Converter.Enabled(ins)[k], c);
    hide Converter.InboundTag, Overlaid, Convertible, ListenAt;
    if j == k {
      var p :| 0 <= p < |rows| && rows[p] == b;
      var q :| 0 <= q < |rows| && rows[q] == c;
      assert p == q;
    }
  }

  // ----- Listening -----

  ghost predicate RowsListenApart(snap: Snapshot, nodeId: string, chains: seq<Chain>) {
    && (forall b | Active(snap, chains, nodeId, b) :: Convertible(b))
    && (forall b, c | Active(snap, chains, nodeId, b) && Active(snap, chains, nodeId, c) && b != c :: ListenAt(b) != ListenAt(c))
  }

  lemma {:induction false} ListenIff(snap: Snapshot, nodeId: string, chains: seq<Chain>, rows: seq<Inbound>, ins: seq<Inbound>)
    requires RowsOf(snap, nodeId, chains, rows, ins)
    ensures ListenFrom(Converter.Enabled(ins), 0, {}) <==> RowsListenApart(snap, nodeId, chains)
  {
    hide RowsOf, Active, Convertible, ListenAt, KeyOf, SameButCertificate, Converter.Enabled;
    var enabled := Converter.Enabled(ins);
    if ListenFrom(enabled, 0, {}) {
      forall b | Active(snap, chains, nodeId, b) ensures Convertible(b) {
        var k := ActivePlace(snap, nodeId, chains, rows, ins, b);
        SameRow(enabled[k], b);
      }
      forall b, c | Active(snap, chains, nodeId, b) && Active(snap, chains, nodeId, c) && b != c ensures ListenAt(b) != ListenAt(c) {
        var j := ActivePlace(snap, nodeId, chains, rows, ins, b);
        var k := ActivePlace(snap, nodeId, chains, rows, ins, c);
        RowsDiffer(snap, nodeId, chains, rows, ins, j, k, b, c);
        SameRow(enabled[j], b);
        SameRow(enabled[k], c);
      }
    }
    if RowsListenApart(snap, nodeId, chains) {
      forall k | 0 <= k < |enabled| ensures Convertible(enabled[k]) {
        var b := ActiveOrigin(snap, nodeId, chains, rows, ins, k);
        SameRow(enabled[k], b);
      }
      forall j, k | 0 <= j < k < |enabled| ensures ListenAt(enabled[j]) != ListenAt(enabled[k]) {
        var b := ActiveOrigin(snap, nodeId, chains, rows, ins, j);
        var c := ActiveOrigin(snap, nodeId, chains, rows, ins, k);
        RowsDiffer(snap, nodeId, chains, rows, ins, j, k, b, c);
        SameRow(enabled[j], b);
        SameRow(enabled[k], c);
      }
    }
  }

  // ----- Leaving -----

  lemma {:induction false} TagNamed(chainId: string, position: nat)
    ensures Text.TrimSpace(ChainOutboundTag(chainId, position)) != "" && ChainOutboundTag(chainId, position) != "direct"
  {
    ChainTagTrimmed(chainId, position);
    hide Text.Decimal, Text.Without, Text.Prefix, Text.ToLower, Text.TrimSpace;
    assert ChainOutboundTag(chainId, position)[0] == 'c';
  }

  /** The routes of a node leave under names of their own exactly if its relay hops do. */
  lemma {:induction false} RoutesIff(snap: Snapshot, nodeId: string, chains: seq<Chain>, parts: Parts, ins: seq<Inbound>, known: map<string, string>)
    requires snap.Valid() && nodeId in snap.nodes
    requires AddChains(snap, snap.nodes[nodeId], chains, 0, Standalone(snap, nodeId)) == Ok(parts)
    requires ApplyManagedTls(snap, nodeId, parts.inbounds) == Ok(ins) && Converter.TagsInbounds(known, ins)
    ensures RouteFrom(parts.routes, 0, known, {"direct"}) <==> NamesApart(nodeId, chains)
  {
    hide AddChains, ApplyManagedTls, Relays, ChainOutboundTag, Text.TrimSpace, ResolveHopEndpoint, Converter.InboundTag, Converter.TagsInbounds;
    var relays := Relays(chains, nodeId, 0, 0);
    BuiltRoutes(snap, nodeId, chains, parts);
    RelaysMembers(chains, nodeId, 0, 0);
    PartsOf(snap, nodeId, chains, parts);
    forall k | 0 <= k < |relays|
      ensures RelayHere(chains, nodeId, relays[k].0, relays[k].1)
      ensures parts.routes[k].outbound.Tag() == ChainOutboundTag(chains[relays[k].0].id, relays[k].1)
      ensures parts.routes[k].inboundId in known && Text.TrimSpace(parts.routes[k].outbound.Tag()) != "" && parts.routes[k].outbound.Tag() != "direct"
    {
      assert relays[k] in relays;
      var x, i := relays[k].0, relays[k].1;
      assert RouteFor(snap, snap.nodes[nodeId], chains, x, i, parts.routes[k]);
      TagNamed(chains[x].id, i);
      HopTagged(snap, nodeId, chains, parts, ins, known, x, i);
    }
    RelayNames(nodeId, chains, parts.routes);
  }

  lemma {:induction false} RelayNames(nodeId: string, chains: seq<Chain>, routes: seq<Converter.ChainRoute>)
    requires var relays := Relays(chains, nodeId, 0, 0);
             |routes| == |relays| && forall k | 0 <= k < |relays| ::
               && RelayHere(chains, nodeId, relays[k].0, relays[k].1)
               && routes[k].outbound.Tag() == ChainOutboundTag(chains[relays[k].0].id, relays[k].1)
    ensures NamesApart(nodeId, chains) <==> forall j, k | 0 <= j < k < |routes| :: routes[j].outbound.Tag() != routes[k].outbound.Tag()
  {
    hide Relays, ChainOutboundTag;
    var relays := Relays(chains, nodeId, 0, 0);
    if NamesApart(nodeId, chains) {
      forall j, k | 0 <= j < k < |routes| ensures routes[j].outbound.Tag() != routes[k].outbound.Tag() {
        RelayBefore(chains, nodeId, j, k);
        assert relays[j] != relays[k];
      }
    } else {
      var x: nat, i: nat, y: nat, j: nat :| RelayHere(chains, nodeId, x, i) && RelayHere(chains, nodeId, y, j)
        && ChainOutboundTag(chains[x].id, i) == ChainOutboundTag(chains[y].id, j) && !(x == y && i == j);
      var m := RelayAt(chains, nodeId, x, i);
      var n := RelayAt(chains, nodeId, y, j);
      assert m != n;
      assert routes[m].outbound.Tag() == routes[n].outbound.Tag();
    }
  }

  // ----- FRP -----

  ghost predicate ProxiesFit(snap: Snapshot, nodeId: string, chains: seq<Chain>) {
    hide ProxyNameKey, Converter.InboundTag;
    && (forall b | Active(snap, chains, nodeId, b) ::
          !b.frp.FrpInvalid? && (b.frp.FrpOn? ==> b.protocol != "hysteria2" && b.protocol != "tuic" && !b.udpTransport))
    && (forall b, c | Active(snap, chains, nodeId, b) && Active(snap, chains, nodeId, c) && b != c && b.frp.FrpOn? && c.frp.FrpOn? ::
          !SamePort(b.frp, c.frp) && ProxyNameKey(b.frp, Converter.InboundTag(b)) != ProxyNameKey(c.frp, Converter.InboundTag(c)))
  }

  ghost predicate Mapped(enabled: seq<Inbound>, entries: seq<Converter.Entry>) {
    && |entries| == |enabled|
    && forall k | 0 <= k < |enabled| ::
         entries[k].tag == Converter.InboundTag(enabled[k]) && entries[k].udpTransport == enabled[k].udpTransport
  }

  lemma {:induction false} MappedAt(enabled: seq<Inbound>, entries: seq<Converter.Entry>, k: nat)
    requires Mapped(enabled, entries) && k < |enabled|
    ensures entries[k].tag == Converter.InboundTag(enabled[k]) && entries[k].udpTransport == enabled[k].udpTransport
  {
    hide Converter.InboundTag;
  }

  lemma {:induction false} ProxiesIff(snap: Snapshot, nodeId: string, chains: seq<Chain>, rows: seq<Inbound>, ins: seq<Inbound>, entries: seq<Converter.Entry>)
    requires RowsOf(snap, nodeId, chains, rows, ins) && Mapped(Converter.Enabled(ins), entries)
    ensures (forall k | 0 <= k < |entries| :: Fits(Converter.Enabled(ins), entries, k)) <==> ProxiesFit(snap, nodeId, chains)
  {
    hide RowsOf, Active, Convertible, ListenAt, SameButCertificate, Converter.Enabled, Mapped, SamePort, ProxyNameKey, Converter.InboundTag;
    var enabled := Converter.Enabled(ins);
    assert |entries| == |enabled| by {
      MappedLength(enabled, entries);
    }
    if forall k | 0 <= k < |entries| :: Fits(enabled, entries, k) {
      forall b | Active(snap, chains, nodeId, b)
        ensures !b.frp.FrpInvalid? && (b.frp.FrpOn? ==> b.protocol != "hysteria2" && b.protocol != "tuic" && !b.udpTransport)
      {
        var k := ActivePlace(snap, nodeId, chains, rows, ins, b);
        SameRow(enabled[k], b);
        MappedAt(enabled, entries, k);
        assert Fits(enabled, entries, k);
      }
      forall b, c | Active(snap, chains, nodeId, b) && Active(snap, chains, nodeId, c) && b != c && b.frp.FrpOn? && c.frp.FrpOn?
        ensures !SamePort(b.frp, c.frp) && ProxyNameKey(b.frp, Converter.InboundTag(b)) != ProxyNameKey(c.frp, Converter.InboundTag(c))
      {
        var j := ActivePlace(snap, nodeId, chains, rows, ins, b);
        var k := ActivePlace(snap, nodeId, chains, rows, ins, c);
        RowsDiffer(snap, nodeId, chains, rows, ins, j, k, b, c);
        SameRow(enabled[j], b);
        SameRow(enabled[k], c);
        MappedAt(enabled, entries, j);
        MappedAt(enabled, entries, k);
        assert Fits(enabled, entries, j) && Fits(enabled, entries, k);
        SamePortSymmetric(b.frp, c.frp);
      }
    }
    if ProxiesFit(snap, nodeId, chains) {
      forall k | 0 <= k < |entries| ensures Fits(enabled, entries, k) {
        var c := ActiveOrigin(snap, nodeId, chains, rows, ins, k);
        SameRow(enabled[k], c);
        MappedAt(enabled, entries, k);
        forall i | 0 <= i < k && enabled[i].frp.FrpOn? && enabled[k].frp.FrpOn?
          ensures !SamePort(enabled[i].frp, enabled[k].frp)
          ensures ProxyNameKey(enabled[i].frp, entries[i].tag) != ProxyNameKey(enabled[k].frp, entries[k].tag)
        {
          var b := ActiveOrigin(snap, nodeId, chains, rows, ins, i);
          RowsDiffer(snap, nodeId, chains, rows, ins, i, k, b, c);
          SameRow(enabled[i], b);
          MappedAt(enabled, entries, i);
        }
      }
    }
  }

  lemma {:induction false} MappedLength(enabled: seq<Inbound>, entries: seq<Converter.Entry>)
    requires Mapped(enabled, entries)
    ensures |entries| == |enabled|
  {
    hide Converter.InboundTag;
  }

  lemma {:induction false} SamePortSymmetric(a: FrpParams, b: FrpParams)
    ensures SamePort(a, b) <==> SamePort(b, a)
  {
  }

  lemma {:induction false} ConvertMaps(ins: seq<Inbound>, opts: Converter.Options)
    requires Converter.Convert(ins, opts).Ok?
    ensures Mapped(Converter.Enabled(ins), Converter.Convert(ins, opts).value.inbounds)
  {
    hide Converter.Convert, Converter.InboundTag;
    Converter.EntriesMatchInbounds(ins, opts);
  }

  // ----- What a built node dials -----

  /** The outbound leaves through the node's interface for the address and port of the hop after
      hop i of chain x. */
  ghost predicate LeadsOn(snap: Snapshot, node: Node, chains: seq<Chain>, x: nat, i: nat, out: Converter.Outbound) {
    hide Dials, ChainOutboundTag;
    && RelayHere(chains, node.id, x, i) && out.DialOut?
    && out.dialTag == ChainOutboundTag(chains[x].id, i) && out.bindInterface == Text.TrimSpace(node.egressInterface)
    && var hop := chains[x].hops[i + 1];
       && Dials(snap, hop, out.endpoint.server, out.endpoint.port)
       && out.endpoint == Converter.Endpoint(hop.nodeId, hop.inboundId, out.endpoint.server, out.endpoint.port, hop.tlsSkipVerify)
  }

  ghost predicate OutboundsAre(snap: Snapshot, nodeId: string, chains: seq<Chain>, outbounds: seq<Converter.Outbound>) {
    var relays := Relays(chains, nodeId, 0, 0);
    && nodeId in snap.nodes && |outbounds| == |relays| + 1
    && outbounds[0] == Converter.DirectOut(Text.TrimSpace(snap.nodes[nodeId].egressInterface))
    && forall k | 0 <= k < |relays| :: LeadsOn(snap, snap.nodes[nodeId], chains, relays[k].0, relays[k].1, outbounds[k + 1])
  }

  /** The outbounds of a built node: "direct", and one for each relay hop in the order of the chains,
      to the very address and port of the hop that follows. */
  lemma {:induction false} BuiltOutbounds(snap: Snapshot, nodeId: string, chains: seq<Chain>)
    requires snap.Valid() && Build(snap, nodeId, chains).Ok?
    ensures OutboundsAre(snap, nodeId, chains, Build(snap, nodeId, chains).value.config.outbounds)
  {
    hide Build, AddChains, ApplyManagedTls, Converter.Convert, Relocate, OptionsFor, Relays, ChainOutboundTag, Text.TrimSpace, ResolveHopEndpoint,
         Dials, Converter.EmitRules, ResolvePlanRules;
    var parts, ins, doc := BuildStages(snap, nodeId, chains);
    var node, relays := snap.nodes[nodeId], Relays(chains, nodeId, 0, 0);
    BuiltRoutes(snap, nodeId, chains, parts);
    RoutesBecomeOutbounds(snap, nodeId, chains, parts, ins, doc);
    forall k | 0 <= k < |relays| ensures LeadsOn(snap, node, chains, relays[k].0, relays[k].1, doc.outbounds[k + 1]) {
      var x, i := relays[k].0, relays[k].1;
      assert RouteFor(snap, node, chains, x, i, parts.routes[k]);
      EndpointIff(snap, chains[x], i + 1);
    }
  }

  lemma {:induction false} RoutesBecomeOutbounds(snap: Snapshot, nodeId: string, chains: seq<Chain>, parts: Parts, ins: seq<Inbound>, doc: Converter.Document)
    requires snap.Valid() && BuiltFrom(snap, nodeId, chains, parts, ins, doc)
    ensures |doc.outbounds| == |parts.routes| + 1
    ensures doc.outbounds[0] == Converter.DirectOut(Text.TrimSpace(snap.nodes[nodeId].egressInterface))
    ensures forall k | 0 <= k < |parts.routes| :: doc.outbounds[k + 1] == parts.routes[k].outbound
  {
    hide AddChains, ApplyManagedTls, Converter.Convert, Text.TrimSpace, Converter.EmitRules, ResolvePlanRules, Converter.TagsInbounds;
    var opts := OptionsFor(snap, snap.nodes[nodeId], chains, parts);
    Converter.DirectBound(ins, opts);
    PartsOf(snap, nodeId, chains, parts);
    TlsKeepsTags(snap, nodeId, parts.inbounds, ins);
    var tags := Converter.ConvertedTable(ins, opts);
  }

  // ----- The whole build -----

  lemma {:induction false} BuildableSplits(snap: Snapshot, nodeId: string, chains: seq<Chain>)
    ensures Buildable(snap, nodeId, chains) <==>
              && nodeId in snap.nodes && HopsUsable(snap, nodeId, chains) && NamesApart(nodeId, chains)
              && (forall b | Assigned(snap, chains, nodeId, b) :: CertificateReady(snap, nodeId, b))
              && RowsListenApart(snap, nodeId, chains) && ProxiesFit(snap, nodeId, chains)
  {
    hide HopsUsable, NamesApart, Assigned, CertificateReady, Convertible, ListenAt, SamePort, ProxyNameKey, Converter.InboundTag;
    assert forall b | Active(snap, chains, nodeId, b) :: Assigned(snap, chains, nodeId, b);
    hide Active;
  }

  /** The stages that follow once the hops are collected and the certificates are ready. */
  lemma {:induction false} LaterStages(snap: Snapshot, nodeId: string, chains: seq<Chain>, parts: Parts, ins: seq<Inbound>)
    requires snap.Valid() && nodeId in snap.nodes
    requires AddChains(snap, snap.nodes[nodeId], chains, 0, Standalone(snap, nodeId)) == Ok(parts)
    requires ApplyManagedTls(snap, nodeId, parts.inbounds) == Ok(ins)
    ensures var converted := Converter.Convert(ins, OptionsFor(snap, snap.nodes[nodeId], chains, parts));
            && (converted.Ok? <==> RowsListenApart(snap, nodeId, chains) && NamesApart(nodeId, chains))
            && (converted.Ok? ==>
                  && |converted.value.inbounds| == |Converter.Enabled(ins)|
                  && var moved := Relocate(Converter.Enabled(ins), 0, StartRelocation(converted.value.inbounds));
                     && (moved.Ok? ==> ProxiesFit(snap, nodeId, chains))
                     && (moved.Err? && ProxiesFit(snap, nodeId, chains) ==> moved.error.NoLocalPort? && LocalPorts.COUNT <= 2 * |Converter.Enabled(ins)|))
  {
    hide AddChains, ApplyManagedTls, Converter.Convert, Relocate, Assigned, RowsListenApart, NamesApart, ProxiesFit, ListenFrom, RouteFrom,
         Converter.TagsInbounds, Fits, Mapped, Overlaid, Converter.Enabled, HopsIncluded, RoutesExplained, HopsExclusive, CertificateReady;
    var opts := OptionsFor(snap, snap.nodes[nodeId], chains, parts);
    PartsAre(snap, nodeId, chains, parts);
    PartsOf(snap, nodeId, chains, parts);
    ManagedTlsIff(snap, nodeId, parts.inbounds);
    assert RowsOf(snap, nodeId, chains, parts.inbounds, ins);
    EnabledIdsApart(snap, nodeId, chains, parts.inbounds, ins);
    ListenIff(snap, nodeId, chains, parts.inbounds, ins);
    var known := ConvertIff(ins, opts);
    if ListenFrom(Converter.Enabled(ins), 0, {}) {
      RoutesIff(snap, nodeId, chains, parts, ins, known);
    }
    var converted := Converter.Convert(ins, opts);
    if converted.Ok? {
      ConvertMaps(ins, opts);
      MappedLength(Converter.Enabled(ins), converted.value.inbounds);
      ProxiesIff(snap, nodeId, chains, parts.inbounds, ins, converted.value.inbounds);
      RelocateIff(Converter.Enabled(ins), converted.value.inbounds);
    }
  }

  /** A node builds exactly when its rows allow it: its hops are usable, its certificates ready, its
      rows convert and listen apart, its relays have names of their own, and its FRP settings fit.
      The one other reason to refuse is a want of local ports, which takes thousands of inbounds. */
  lemma {:induction false} BuildIff(snap: Snapshot, nodeId: string, chains: seq<Chain>)
    requires snap.Valid()
    ensures var r := Build(snap, nodeId, chains);
            && (r.Ok? ==> Buildable(snap, nodeId, chains))
            && (r.Err? && Buildable(snap, nodeId, chains) ==>
                  r.error.NoLocalPort? && ManyRows(snap, nodeId, chains))
  {
    hide AddChains, ApplyManagedTls, Converter.Convert, Relocate, Buildable, OptionsFor, Assigned, CertificateReady, HopsUsable, NamesApart,
         RowsListenApart, ProxiesFit;
    BuildableSplits(snap, nodeId, chains);
    if nodeId in snap.nodes {
      CollectIff(snap, nodeId, chains);
      var collected := AddChains(snap, snap.nodes[nodeId], chains, 0, Standalone(snap, nodeId));
      if collected.Ok? {
        PartsAre(snap, nodeId, chains, collected.value);
        CertificatesIff(snap, nodeId, chains, collected.value.inbounds);
        var overlaid := ApplyManagedTls(snap, nodeId, collected.value.inbounds);
        if overlaid.Ok? {
          LaterStages(snap, nodeId, chains, collected.value, overlaid.value);
          Many(snap, nodeId, chains, collected.value, overlaid.value);
        }
      }
    }
  }

  /** The node has at least as many active rows as half the local port range. */
  ghost predicate ManyRows(snap: Snapshot, nodeId: string, chains: seq<Chain>) {
    exists rows: seq<Inbound> ::
      && LocalPorts.COUNT <= 2 * |rows|
      && Converter.DistinctIds(rows) && forall k | 0 <= k < |rows| :: Active(snap, chains, nodeId, rows[k])
  }

  lemma {:induction false} Many(snap: Snapshot, nodeId: string, chains: seq<Chain>, parts: Parts, ins: seq<Inbound>)
    requires snap.Valid() && nodeId in snap.nodes
    requires AddChains(snap, snap.nodes[nodeId], chains, 0, Standalone(snap, nodeId)) == Ok(parts)
    requires ApplyManagedTls(snap, nodeId, parts.inbounds) == Ok(ins)
    ensures LocalPorts.COUNT <= 2 * |Converter.Enabled(ins)| ==> ManyRows(snap, nodeId, chains)
  {
    PartsAre(snap, nodeId, chains, parts);
    PartsOf(snap, nodeId, chains, parts);
    ManagedTlsIff(snap, nodeId, parts.inbounds);
    hide AddChains, ApplyManagedTls, Assigned, HopsIncluded, RoutesExplained, HopsExclusive;
    EnabledRows(snap, nodeId, parts.inbounds, ins);
    var rows := Converter.Enabled(parts.inbounds);
    Converter.EnabledKeepsIdsDistinct(parts.inbounds);
    forall k | 0 <= k < |rows| ensures Active(snap, chains, nodeId, rows[k]) {
      assert rows[k] in rows;
    }
  }

  lemma {:induction false} EnabledRows(snap: Snapshot, nodeId: string, rows: seq<Inbound>, ins: seq<Inbound>)
    requires Overlaid(snap, nodeId, rows, ins)
    ensures |Converter.Enabled(ins)| == |Converter.Enabled(rows)|
    decreases |rows|
  {
    hide Certificate;
    if rows != [] {
      var n := |rows| - 1;
      assert SameButCertificate(ins[n], rows[n]);
      assert ins[n].enabled == rows[n].enabled;
      EnabledRows(snap, nodeId, rows[..n], ins[..n]);
      hide Overlaid;
    }
  }
}
