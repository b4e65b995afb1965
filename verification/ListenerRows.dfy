/** The listeners of a built node, traced back to the inbound rows they come from. */
module ListenerRows {
  import opened Outcomes
  import opened Fleet
  import opened NodeConfig
  import opened ChainTables
  import opened NodeTables
  import opened FrpListeners
  import opened FrpProxies
  import Converter
  import Text

  ghost predicate OnHop(snap: Snapshot, chains: seq<Chain>, nodeId: string, x: nat, i: nat, b: Inbound) {
    HopHere(chains, nodeId, x, i) && chains[x].hops[i].inboundId in snap.inbounds && snap.inbounds[chains[x].hops[i].inboundId] == b
  }

  /** The rows a node listens for: its own inbounds, and those of its hops on enabled chains. */
  ghost predicate Assigned(snap: Snapshot, chains: seq<Chain>, nodeId: string, b: Inbound) {
    b in snap.StandaloneInbounds(nodeId) || exists x: nat, i: nat :: OnHop(snap, chains, nodeId, x, i, b)
  }

  /** The listener serves the row: under the row's tag and its certificate, at the row's own
      address and port, or on loopback behind the FRP client of the row. */
  ghost predicate Listens(snap: Snapshot, nodeId: string, b: Inbound, entry: Converter.Entry, frpc: map<string, FrpcEntry>) {
    hide Converter.InboundTag;
    && entry.tag == Converter.InboundTag(b)
    && entry.certPath == Certificate(snap, nodeId, b)
    && entry.udpTransport == b.udpTransport
    && if b.frp.FrpOn? then
         && entry.listen == "127.0.0.1" && 49152 <= entry.port <= 65535
         && entry.tag in frpc && Forwards(frpc[entry.tag], b.frp, entry)
       else
         && entry.tag !in frpc
         && b.port == Some(entry.port) && 1 <= entry.port <= 65535
         && entry.listen == if b.listen == "" then "0.0.0.0" else b.listen
  }

  // ----- The rows that reach the converter -----

  ghost predicate PartsAssigned(snap: Snapshot, nodeId: string, chains: seq<Chain>, acc: Parts) {
    && (forall b | b in snap.StandaloneInbounds(nodeId) :: b in acc.inbounds)
    && (forall b | b in acc.inbounds :: Assigned(snap, chains, nodeId, b))
  }

  lemma {:induction false} AddHopsAssigned(snap: Snapshot, node: Node, chains: seq<Chain>, a: nat, h: nat, acc: Parts)
    requires a < |chains| && chains[a].enabled && h <= |chains[a].hops|
    requires PartsAssigned(snap, node.id, chains, acc)
    requires AddHops(snap, node, chains[a], h, acc).Ok?
    ensures PartsAssigned(snap, node.id, chains, AddHops(snap, node, chains[a], h, acc).value)
    decreases |chains[a].hops| - h
  {
    hide ResolveHopEndpoint, ChainOutboundTag, Text.TrimSpace;
    if h < |chains[a].hops| {
      var next := AddHop(snap, node, chains[a], h, acc).value;
      if chains[a].hops[h].nodeId == node.id {
        var b := snap.inbounds[chains[a].hops[h].inboundId];
        assert OnHop(snap, chains, node.id, a, h, b);
        assert next.inbounds == acc.inbounds + [b];
      }
      AddHopsAssigned(snap, node, chains, a, h + 1, next);
    }
  }

  lemma {:induction false} AddChainsAssigned(snap: Snapshot, node: Node, chains: seq<Chain>, a: nat, acc: Parts)
    requires a <= |chains|
    requires PartsAssigned(snap, node.id, chains, acc)
    requires AddChains(snap, node, chains, a, acc).Ok?
    ensures PartsAssigned(snap, node.id, chains, AddChains(snap, node, chains, a, acc).value)
    decreases |chains| - a
  {
    hide AddHops, PartsAssigned;
    if a < |chains| {
      if chains[a].enabled {
        AddHopsAssigned(snap, node, chains, a, 0, acc);
        AddChainsAssigned(snap, node, chains, a + 1, AddHops(snap, node, chains[a], 0, acc).value);
      } else {
        AddChainsAssigned(snap, node, chains, a + 1, acc);
      }
    }
  }

  /** The inbounds a build collects are exactly the node's assigned rows. */
  lemma {:induction false} PartsAre(snap: Snapshot, nodeId: string, chains: seq<Chain>, parts: Parts)
    requires snap.Valid() && nodeId in snap.nodes
    requires AddChains(snap, snap.nodes[nodeId], chains, 0, Standalone(snap, nodeId)) == Ok(parts)
    ensures forall b :: b in parts.inbounds <==> Assigned(snap, chains, nodeId, b)
  {
    hide AddChains;
    AddChainsAssigned(snap, snap.nodes[nodeId], chains, 0, Standalone(snap, nodeId));
    PartsOf(snap, nodeId, chains, parts);
    forall b | Assigned(snap, chains, nodeId, b) ensures b in parts.inbounds {
      if b !in snap.StandaloneInbounds(nodeId) {
        var x: nat, i: nat :| OnHop(snap, chains, nodeId, x, i, b);
        assert Passed(x, i, |chains|, 0);
      }
    }
  }

  // ----- The listeners -----

  ghost predicate Listener(snap: Snapshot, nodeId: string, b: Inbound, doc: NodeDocument, k: nat) {
    k < |doc.config.inbounds| && Listens(snap, nodeId, b, doc.config.inbounds[k], doc.frpc)
  }

  ghost predicate Served(snap: Snapshot, nodeId: string, b: Inbound, doc: NodeDocument) {
    exists k: nat :: Listener(snap, nodeId, b, doc, k)
  }

  ghost predicate Wanted(snap: Snapshot, nodeId: string, chains: seq<Chain>, doc: NodeDocument, k: nat) {
    exists b :: Assigned(snap, chains, nodeId, b) && b.enabled && Listener(snap, nodeId, b, doc, k)
  }

  ghost predicate AllListen(snap: Snapshot, nodeId: string, chains: seq<Chain>, doc: NodeDocument) {
    && (forall b | Assigned(snap, chains, nodeId, b) && b.enabled :: Served(snap, nodeId, b, doc))
    && (forall k: nat | k < |doc.config.inbounds| :: Wanted(snap, nodeId, chains, doc, k))
    && (forall tag | tag in doc.frpc :: exists k :: 0 <= k < |doc.config.inbounds| && doc.config.inbounds[k].tag == tag)
  }

  lemma {:induction false} EntryListens(snap: Snapshot, nodeId: string, b: Inbound, c: Inbound,
                                        before: Converter.Entry, after: Converter.Entry, frpc: map<string, FrpcEntry>)
    requires SameButCertificate(c, b) && c.certPath == Certificate(snap, nodeId, b)
    requires Converter.MapInbound(c) == Ok(before) && MovedEntry(c, before, after)
    requires if c.frp.FrpOn? then after.tag in frpc && Forwards(frpc[after.tag], c.frp, after) else after.tag !in frpc
    ensures Listens(snap, nodeId, b, after, frpc)
  {
    SameTag(c, b);
    hide Converter.InboundTag, Certificate;
  }

  /** The place of an enabled inbound among the enabled ones, and back. */
  lemma {:induction false} EnabledPlace(ins: seq<Inbound>, j: nat) returns (k: nat)
    requires j < |ins| && ins[j].enabled
    ensures k < |Converter.Enabled(ins)| && Converter.Enabled(ins)[k] == ins[j]
  {
    assert ins[j] in Converter.Enabled(ins);
    k :| 0 <= k < |Converter.Enabled(ins)| && Converter.Enabled(ins)[k] == ins[j];
  }

  lemma {:induction false} EnabledOrigin(ins: seq<Inbound>, k: nat) returns (j: nat)
    requires k < |Converter.Enabled(ins)|
    ensures j < |ins| && ins[j].enabled && ins[j] == Converter.Enabled(ins)[k]
  {
    assert Converter.Enabled(ins)[k] in ins;
    j :| 0 <= j < |ins| && ins[j] == Converter.Enabled(ins)[k];
  }

  /** What the stages of a build say about its k-th listener. */
  ghost predicate Placed(enabled: seq<Inbound>, entries: seq<Converter.Entry>, out: seq<Converter.Entry>, frpc: map<string, FrpcEntry>) {
    hide Converter.MapInbound;
    && |enabled| == |entries| == |out|
    && (forall k | 0 <= k < |out| :: Converter.MapInbound(enabled[k]) == Ok(entries[k]) && MovedEntry(enabled[k], entries[k], out[k]))
    && ClientsMatch(enabled, out, |enabled|, frpc)
    && EntryTagsDistinct(out)
    && ProxiesApart(enabled, entries, |enabled|)
  }

  lemma {:induction false} BuiltPlaced(snap: Snapshot, nodeId: string, chains: seq<Chain>)
    returns (parts: Parts, ins: seq<Inbound>, entries: seq<Converter.Entry>)
    requires snap.Valid() && Build(snap, nodeId, chains).Ok? && DistinctTags(Build(snap, nodeId, chains).value.config)
    ensures nodeId in snap.nodes && AddChains(snap, snap.nodes[nodeId], chains, 0, Standalone(snap, nodeId)) == Ok(parts)
    ensures ApplyManagedTls(snap, nodeId, parts.inbounds) == Ok(ins)
    ensures var doc := Build(snap, nodeId, chains).value;
            Placed(Converter.Enabled(ins), entries, doc.config.inbounds, doc.frpc)
  {
    hide Converter.Convert, Converter.MapInbound, Relocate, Build, AddChains, ApplyManagedTls, OptionsFor, ClientsMatch, ProxiesApart, Reason;
    var doc: Converter.Document;
    parts, ins, doc := BuildStages(snap, nodeId, chains);
    entries := doc.inbounds;
    Converter.EntriesMatchInbounds(ins, OptionsFor(snap, snap.nodes[nodeId], chains, parts));
    RelocateSpec(Converter.Enabled(ins), entries);
    var out := Build(snap, nodeId, chains).value.config.inbounds;
    forall i, j | 0 <= i < j < |entries| ensures entries[i].tag != entries[j].tag {
      assert entries[i].tag == out[i].tag && entries[j].tag == out[j].tag;
    }
    ProxiesSpec(Converter.Enabled(ins), entries);
  }

  /** A listener has a client under its tag exactly when its inbound is FRP-exposed. */
  lemma {:induction false} ClientOf(enabled: seq<Inbound>, out: seq<Converter.Entry>, frpc: map<string, FrpcEntry>, k: nat)
    requires |enabled| == |out| && ClientsMatch(enabled, out, |enabled|, frpc) && EntryTagsDistinct(out) && k < |out|
    ensures out[k].tag in frpc <==> enabled[k].frp.FrpOn?
  {
    hide Forwards;
    if out[k].tag in frpc {
      var j :| 0 <= j < |enabled| && enabled[j].frp.FrpOn? && out[j].tag == out[k].tag;
      assert j == k;
    }
  }

  /** The listener of the j-th collected row, and the row of the k-th listener. */
  lemma {:induction false} ListenerAt(snap: Snapshot, nodeId: string, rows: seq<Inbound>, ins: seq<Inbound>, entries: seq<Converter.Entry>,
                                      out: seq<Converter.Entry>, frpc: map<string, FrpcEntry>, j: nat) returns (k: nat)
    requires Overlaid(snap, nodeId, rows, ins) && Placed(Converter.Enabled(ins), entries, out, frpc)
    requires j < |rows| && rows[j].enabled
    ensures k < |out| && Converter.Enabled(ins)[k] == ins[j] && Listens(snap, nodeId, rows[j], out[k], frpc)
  {
    k := EnabledPlace(ins, j);
    hide Converter.MapInbound, Certificate, MovedEntry, Forwards, Listens, ProxiesApart;
    ClientOf(Converter.Enabled(ins), out, frpc, k);
    EntryListens(snap, nodeId, rows[j], ins[j], entries[k], out[k], frpc);
  }

  lemma {:induction false} RowAt(snap: Snapshot, nodeId: string, rows: seq<Inbound>, ins: seq<Inbound>, entries: seq<Converter.Entry>,
                                 out: seq<Converter.Entry>, frpc: map<string, FrpcEntry>, k: nat) returns (j: nat)
    requires Overlaid(snap, nodeId, rows, ins) && Placed(Converter.Enabled(ins), entries, out, frpc)
    requires k < |out|
    ensures j < |rows| && rows[j].enabled && Listens(snap, nodeId, rows[j], out[k], frpc)
  {
    j := EnabledOrigin(ins, k);
    hide Converter.MapInbound, Certificate, MovedEntry, Forwards, Listens, ProxiesApart;
    ClientOf(Converter.Enabled(ins), out, frpc, k);
    EntryListens(snap, nodeId, rows[j], ins[j], entries[k], out[k], frpc);
  }

  /** In a built node whose tags are distinct there is a listener for every enabled row assigned
      to the node and none besides, each with its row's certificate and place. */
  lemma {:induction false} BuiltListens(snap: Snapshot, nodeId: string, chains: seq<Chain>)
    requires snap.Valid() && Build(snap, nodeId, chains).Ok? && DistinctTags(Build(snap, nodeId, chains).value.config)
    ensures AllListen(snap, nodeId, chains, Build(snap, nodeId, chains).value)
  {
    hide Build, AddChains, ApplyManagedTls, Assigned, Overlaid, Placed, Listens, DistinctTags, Snapshot.Valid;
    var doc := Build(snap, nodeId, chains).value;
    var parts, ins, entries := BuiltPlaced(snap, nodeId, chains);
    PartsAre(snap, nodeId, chains, parts);
    ManagedTlsIff(snap, nodeId, parts.inbounds);
    RowsListen(snap, nodeId, chains, parts.inbounds, ins, entries, doc);
  }

  lemma {:induction false} RowsListen(snap: Snapshot, nodeId: string, chains: seq<Chain>, rows: seq<Inbound>, ins: seq<Inbound>,
                                      entries: seq<Converter.Entry>, doc: NodeDocument)
    requires forall b :: b in rows <==> Assigned(snap, chains, nodeId, b)
    requires Overlaid(snap, nodeId, rows, ins) && Placed(Converter.Enabled(ins), entries, doc.config.inbounds, doc.frpc)
    ensures AllListen(snap, nodeId, chains, doc)
  {
    assert forall tag | tag in doc.frpc :: exists k :: 0 <= k < |doc.config.inbounds| && doc.config.inbounds[k].tag == tag by {
      hide MovedEntry, ProxiesApart, Forwards;
    }
    hide Assigned, Overlaid, Placed, Listens, Converter.Enabled;
    forall b | Assigned(snap, chains, nodeId, b) && b.enabled ensures Served(snap, nodeId, b, doc) {
      var j :| 0 <= j < |rows| && rows[j] == b;
      var k := ListenerAt(snap, nodeId, rows, ins, entries, doc.config.inbounds, doc.frpc, j);
      assert Listener(snap, nodeId, b, doc, k);
    }
    forall k: nat | k < |doc.config.inbounds| ensures Wanted(snap, nodeId, chains, doc, k) {
      var j := RowAt(snap, nodeId, rows, ins, entries, doc.config.inbounds, doc.frpc, k);
      assert Assigned(snap, chains, nodeId, rows[j]) && Listener(snap, nodeId, rows[j], doc, k);
    }
  }

  /** A node with a row whose managed certificate is not ready does not build. */
  lemma {:induction false} CertificatesReady(snap: Snapshot, nodeId: string, chains: seq<Chain>, b: Inbound)
    requires snap.Valid() && Build(snap, nodeId, chains).Ok? && Assigned(snap, chains, nodeId, b)
    ensures CertificateReady(snap, nodeId, b)
  {
    hide Build, AddChains, ApplyManagedTls, Assigned, Converter.Convert, Relocate, OptionsFor;
    var parts, ins, doc := BuildStages(snap, nodeId, chains);
    PartsAre(snap, nodeId, chains, parts);
    ManagedTlsIff(snap, nodeId, parts.inbounds);
    var j :| 0 <= j < |parts.inbounds| && parts.inbounds[j] == b;
  }

  /** Two rows served through FRP by one node ask their FRPS for different ports, and names. */
  lemma {:induction false} BuiltApart(snap: Snapshot, nodeId: string, chains: seq<Chain>, b: Inbound, c: Inbound)
    requires snap.Valid() && Build(snap, nodeId, chains).Ok? && DistinctTags(Build(snap, nodeId, chains).value.config)
    requires Assigned(snap, chains, nodeId, b) && b.enabled && Assigned(snap, chains, nodeId, c) && c.enabled && b != c
    ensures !SamePort(b.frp, c.frp)
    ensures !SameName(b.frp, Converter.InboundTag(b), c.frp, Converter.InboundTag(c))
  {
    hide Build, AddChains, ApplyManagedTls, Assigned, Overlaid, Placed, DistinctTags, SamePort, SameName, HopsIncluded, RoutesExplained, HopsExclusive,
         Converter.Enabled, Converter.InboundTag, Snapshot.Valid;
    var doc := Build(snap, nodeId, chains).value;
    var parts, ins, entries := BuiltPlaced(snap, nodeId, chains);
    PartsAre(snap, nodeId, chains, parts);
    PartsOf(snap, nodeId, chains, parts);
    ManagedTlsIff(snap, nodeId, parts.inbounds);
    var i :| 0 <= i < |parts.inbounds| && parts.inbounds[i] == b;
    var j :| 0 <= j < |parts.inbounds| && parts.inbounds[j] == c;
    assert b.id != c.id by {
      assert Converter.DistinctIds(parts.inbounds);
    }
    RowsApart(snap, nodeId, parts.inbounds, ins, entries, doc, i, j);
  }

  lemma {:induction false} RowsApart(snap: Snapshot, nodeId: string, rows: seq<Inbound>, ins: seq<Inbound>,
                                     entries: seq<Converter.Entry>, doc: NodeDocument, i: nat, j: nat)
    requires Overlaid(snap, nodeId, rows, ins) && Placed(Converter.Enabled(ins), entries, doc.config.inbounds, doc.frpc)
    requires i < |rows| && j < |rows| && rows[i].enabled && rows[j].enabled && rows[i].id != rows[j].id
    ensures !SamePort(rows[i].frp, rows[j].frp)
    ensures !SameName(rows[i].frp, Converter.InboundTag(rows[i]), rows[j].frp, Converter.InboundTag(rows[j]))
  {
    var k := EnabledPlace(ins, i);
    var l := EnabledPlace(ins, j);
    hide SamePort, SameName, ClientsMatch, MovedEntry, Converter.Enabled, Converter.InboundTag, Converter.MapInbound;
    assert k != l;
    TagMapped(ins[i], rows[i], entries[k]);
    TagMapped(ins[j], rows[j], entries[l]);
    ApartSymmetric(rows[i].frp, entries[k].tag, rows[j].frp, entries[l].tag);
  }

  lemma {:induction false} TagMapped(c: Inbound, b: Inbound, entry: Converter.Entry)
    requires SameButCertificate(c, b) && Converter.MapInbound(c) == Ok(entry)
    ensures entry.tag == Converter.InboundTag(b)
  {
    SameTag(c, b);
    hide Converter.InboundTag;
  }

  lemma {:induction false} ApartSymmetric(a: FrpParams, aTag: string, b: FrpParams, bTag: string)
    ensures SamePort(a, b) <==> SamePort(b, a)
    ensures SameName(a, aTag, b, bTag) <==> SameName(b, bTag, a, aTag)
  {
    hide RegisteredName;
  }
}
