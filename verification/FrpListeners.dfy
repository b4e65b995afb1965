/** What the loopback relocation of FRP-exposed inbounds keeps, and what it guarantees. */
module FrpListeners {
  import opened Outcomes
  import opened Fleet
  import opened NodeConfig
  import opened ChainTables
  import Converter
  import LocalPorts

  /** Entry j is the converted entry, moved to loopback when the inbound is FRP-exposed. */
  ghost predicate MovedEntry(inb: Inbound, before: Converter.Entry, after: Converter.Entry) {
    if inb.frp.FrpOn? then
      after == before.(listen := "127.0.0.1", port := after.port) && 49152 <= after.port <= 65535
    else after == before
  }

  /** No other listener of the node uses the port of an FRP-exposed inbound. */
  ghost predicate FrpPortsExclusive(enabled: seq<Inbound>, entries: seq<Converter.Entry>, k: nat)
    requires k <= |enabled| == |entries|
  {
    forall i, j | 0 <= i < k && enabled[i].frp.FrpOn? && 0 <= j < |entries| && j != i :: entries[i].port != entries[j].port
  }

  ghost predicate RelocatedUpTo(enabled: seq<Inbound>, entries: seq<Converter.Entry>, k: nat, acc: Relocation) {
    && k <= |enabled| == |entries| == |acc.entries|
    && (forall j | 0 <= j < k :: MovedEntry(enabled[j], entries[j], acc.entries[j]))
    && (forall j | k <= j < |entries| :: acc.entries[j] == entries[j])
    && (forall j | 0 <= j < |entries| :: entries[j].port in acc.used && acc.entries[j].port in acc.used)
    && FrpPortsExclusive(enabled, acc.entries, k)
  }

  lemma {:induction false} RelocateOneStep(enabled: seq<Inbound>, entries: seq<Converter.Entry>, k: nat, acc: Relocation)
    requires RelocatedUpTo(enabled, entries, k, acc) && k < |enabled|
    requires RelocateOne(enabled[k], k, acc).Ok?
    ensures RelocatedUpTo(enabled, entries, k + 1, RelocateOne(enabled[k], k, acc).value)
  {
    hide RemotePortKey, ProxyNameKey, LocalPorts.Allocate;
    if enabled[k].frp.FrpOn? {
      LocalPorts.AllocateSpec(acc.entries[k].tag, acc.used);
    }
  }

  lemma {:induction false} RelocateKeeps(enabled: seq<Inbound>, entries: seq<Converter.Entry>, k: nat, acc: Relocation)
    requires RelocatedUpTo(enabled, entries, k, acc)
    requires Relocate(enabled, k, acc).Ok?
    ensures RelocatedUpTo(enabled, entries, |enabled|, Relocate(enabled, k, acc).value)
    decreases |enabled| - k
  {
    hide RelocateOne;
    if k < |enabled| {
      RelocateOneStep(enabled, entries, k, acc);
      RelocateKeeps(enabled, entries, k + 1, RelocateOne(enabled[k], k, acc).value);
    }
  }

  lemma {:induction false} RelocateSpec(enabled: seq<Inbound>, entries: seq<Converter.Entry>)
    requires |enabled| == |entries|
    requires Relocate(enabled, 0, StartRelocation(entries)).Ok?
    ensures var out := Relocate(enabled, 0, StartRelocation(entries)).value.entries;
            && |out| == |entries|
            && (forall j | 0 <= j < |out| :: MovedEntry(enabled[j], entries[j], out[j]))
            && FrpPortsExclusive(enabled, out, |enabled|)
            && (Converter.DistinctListeners(entries) ==> Converter.DistinctListeners(out))
  {
    hide Relocate;
    RelocateKeeps(enabled, entries, 0, StartRelocation(entries));
    var out := Relocate(enabled, 0, StartRelocation(entries)).value.entries;
    if Converter.DistinctListeners(entries) {
      forall i, j | 0 <= i < j < |out| ensures (out[i].listen, out[i].port) != (out[j].listen, out[j].port) {
        if !enabled[i].frp.FrpOn? && !enabled[j].frp.FrpOn? {
          assert out[i] == entries[i] && out[j] == entries[j];
        }
      }
    }
  }

  /** In every successful build the k-th listener belongs to the k-th enabled inbound, the
      (listen, port) pairs are pairwise distinct, and every FRP-exposed inbound listens on
      loopback at a port of 49152..65535 that no other listener of the node uses. */
  lemma {:induction false} BuiltListeners(snap: Snapshot, nodeId: string, chains: seq<Chain>)
    returns (parts: Parts, ins: seq<Inbound>, doc: Converter.Document)
    requires snap.Valid() && Build(snap, nodeId, chains).Ok?
    ensures BuiltFrom(snap, nodeId, chains, parts, ins, doc)
    ensures var enabled, out := Converter.Enabled(ins), Build(snap, nodeId, chains).value.config.inbounds;
            && |out| == |enabled| == |doc.inbounds|
            && (forall k | 0 <= k < |out| ::
                  && Converter.MapInbound(enabled[k]) == Ok(doc.inbounds[k])
                  && MovedEntry(enabled[k], doc.inbounds[k], out[k]))
            && FrpPortsExclusive(enabled, out, |enabled|)
            && Converter.DistinctListeners(out)
    ensures var built := Build(snap, nodeId, chains).value.config;
            built.rules == doc.rules && built.outbounds == doc.outbounds
  {
    hide Converter.Convert, Converter.MapInbound, Relocate, Build, AddChains, ApplyManagedTls, OptionsFor;
    parts, ins, doc := BuildStages(snap, nodeId, chains);
    Converter.EntriesMatchInbounds(ins, OptionsFor(snap, snap.nodes[nodeId], chains, parts));
    RelocateSpec(Converter.Enabled(ins), doc.inbounds);
  }
}
