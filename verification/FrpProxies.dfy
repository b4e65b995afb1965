/** The FRP clients of a node: each forwards the remote port of its inbound to the loopback port
    that inbound was moved to, and no two of them ask an FRPS for the same port or name. */
module FrpProxies {
  import opened Outcomes
  import opened Fleet
  import opened NodeConfig
  import opened ChainTables
  import opened FrpListeners
  import Converter
  import LocalPorts
  import Text

  ghost predicate EntryTagsDistinct(entries: seq<Converter.Entry>) {
    forall i, j | 0 <= i < j < |entries| :: entries[i].tag != entries[j].tag
  }

  /** The client connects to the FRPS of the inbound and forwards to the listener. */
  ghost predicate Forwards(client: FrpcEntry, frp: FrpParams, listener: Converter.Entry) {
    && frp.FrpOn?
    && client == FrpcEntry(frp.serverAddr, frp.serverPort, frp.remotePort, frp.user, frp.proxyName, listener.port)
  }

  /** Among the first k enabled inbounds, exactly the FRP-exposed ones have a client. */
  ghost predicate ClientsMatch(enabled: seq<Inbound>, entries: seq<Converter.Entry>, k: nat, frpc: map<string, FrpcEntry>)
    requires k <= |enabled| == |entries|
  {
    && (forall j | 0 <= j < k && enabled[j].frp.FrpOn? :: entries[j].tag in frpc && Forwards(frpc[entries[j].tag], enabled[j].frp, entries[j]))
    && (forall tag | tag in frpc :: exists j :: 0 <= j < k && enabled[j].frp.FrpOn? && entries[j].tag == tag)
  }

  ghost predicate SamePort(a: FrpParams, b: FrpParams) {
    a.FrpOn? && b.FrpOn? && a.serverAddr == b.serverAddr && a.serverPort == b.serverPort && a.remotePort == b.remotePort
  }

  /** The name under which a client registers: the one given, or the tag of its listener. */
  ghost function RegisteredName(frp: FrpParams, tag: string): string
    requires frp.FrpOn?
  {
    if Text.TrimSpace(frp.proxyName) == "" then tag else Text.TrimSpace(frp.proxyName)
  }

  ghost predicate SameName(a: FrpParams, aTag: string, b: FrpParams, bTag: string) {
    && a.FrpOn? && b.FrpOn?
    && a.serverAddr == b.serverAddr && a.serverPort == b.serverPort && a.user == b.user
    && RegisteredName(a, aTag) == RegisteredName(b, bTag)
  }

  /** Among the first k enabled inbounds, no two FRP-exposed ones share a remote port or a name,
      and each has a stream transport. */
  ghost predicate ProxiesApart(enabled: seq<Inbound>, entries: seq<Converter.Entry>, k: nat)
    requires k <= |enabled| == |entries|
  {
    && (forall j | 0 <= j < k && enabled[j].frp.FrpOn? ::
          enabled[j].protocol != "hysteria2" && enabled[j].protocol != "tuic" && !entries[j].udpTransport)
    && (forall i, j | 0 <= i < j < k ::
          && !SamePort(enabled[i].frp, enabled[j].frp)
          && !SameName(enabled[i].frp, entries[i].tag, enabled[j].frp, entries[j].tag))
  }

  /** The remote ports and names taken by the FRP-exposed inbounds among the first k. */
  ghost function PortKeys(enabled: seq<Inbound>, k: nat): set<string>
    requires k <= |enabled|
  {
    if k == 0 then {}
    else PortKeys(enabled, k - 1) + if enabled[k - 1].frp.FrpOn? then {RemotePortKey(enabled[k - 1].frp)} else {}
  }

  ghost function NameKeys(enabled: seq<Inbound>, entries: seq<Converter.Entry>, k: nat): set<string>
    requires k <= |enabled| == |entries|
  {
    if k == 0 then {}
    else
      NameKeys(enabled, entries, k - 1)
      + if enabled[k - 1].frp.FrpOn? then {ProxyNameKey(enabled[k - 1].frp, entries[k - 1].tag)} else {}
  }

  lemma {:induction false} KeysTaken(enabled: seq<Inbound>, entries: seq<Converter.Entry>, k: nat, i: nat)
    requires i < k <= |enabled| == |entries| && enabled[i].frp.FrpOn?
    ensures RemotePortKey(enabled[i].frp) in PortKeys(enabled, k)
    ensures ProxyNameKey(enabled[i].frp, entries[i].tag) in NameKeys(enabled, entries, k)
    decreases k
  {
    hide RemotePortKey, ProxyNameKey;
    if i < k - 1 {
      KeysTaken(enabled, entries, k - 1, i);
    }
  }

  lemma {:induction false} PortTaker(enabled: seq<Inbound>, k: nat, key: string) returns (i: nat)
    requires k <= |enabled| && key in PortKeys(enabled, k)
    ensures i < k && enabled[i].frp.FrpOn? && RemotePortKey(enabled[i].frp) == key
    decreases k
  {
    hide RemotePortKey;
    if key in PortKeys(enabled, k - 1) {
      i := PortTaker(enabled, k - 1, key);
    } else {
      i := k - 1;
    }
  }

  lemma {:induction false} NameTaker(enabled: seq<Inbound>, entries: seq<Converter.Entry>, k: nat, key: string) returns (i: nat)
    requires k <= |enabled| == |entries| && key in NameKeys(enabled, entries, k)
    ensures i < k && enabled[i].frp.FrpOn? && ProxyNameKey(enabled[i].frp, entries[i].tag) == key
    decreases k
  {
    hide ProxyNameKey;
    if key in NameKeys(enabled, entries, k - 1) {
      i := NameTaker(enabled, entries, k - 1, key);
    } else {
      i := k - 1;
    }
  }

  lemma {:induction false} KeysApart(a: FrpParams, aTag: string, b: FrpParams, bTag: string)
    requires a.FrpOn? && b.FrpOn?
    ensures SamePort(a, b) <==> RemotePortKey(a) == RemotePortKey(b)
    ensures SameName(a, aTag, b, bTag) ==> ProxyNameKey(a, aTag) == ProxyNameKey(b, bTag)
  {
    if RemotePortKey(a) == RemotePortKey(b) {
      Text.NumberedKeyInjective(a.serverAddr + ":" + Text.Decimal(a.serverPort), a.remotePort,
                                b.serverAddr + ":" + Text.Decimal(b.serverPort), b.remotePort);
      Text.NumberedKeyInjective(a.serverAddr, a.serverPort, b.serverAddr, b.serverPort);
    }
    hide Text.Decimal, Text.TrimSpace;
  }

  lemma {:induction false} NotShared(a: FrpParams, aTag: string, b: FrpParams, bTag: string)
    requires !(a.FrpOn? && b.FrpOn?)
    ensures !SamePort(a, b) && !SameName(a, aTag, b, bTag)
  {
    hide RegisteredName;
  }

  // ----- One inbound -----

  ghost predicate SameTags(a: seq<Converter.Entry>, b: seq<Converter.Entry>) {
    |a| == |b| && forall j | 0 <= j < |a| :: a[j].tag == b[j].tag && a[j].udpTransport == b[j].udpTransport
  }

  /** One listener may have moved, and nothing else. */
  ghost predicate Moves(before: seq<Converter.Entry>, after: seq<Converter.Entry>, k: nat) {
    && k < |before| == |after|
    && (forall j | 0 <= j < |before| && j != k :: after[j] == before[j])
    && after[k] == before[k].(listen := "127.0.0.1", port := after[k].port)
  }

  lemma {:induction false} TagsStay(a: seq<Converter.Entry>, b: seq<Converter.Entry>, c: seq<Converter.Entry>, k: nat)
    requires SameTags(a, b) && Moves(b, c, k)
    ensures SameTags(a, c)
  {
    forall j | 0 <= j < |a| ensures a[j].tag == c[j].tag && a[j].udpTransport == c[j].udpTransport {
      assert j != k ==> c[j] == b[j];
    }
  }

  lemma {:induction false} TagAt(a: seq<Converter.Entry>, b: seq<Converter.Entry>, k: nat)
    requires SameTags(a, b) && k < |a|
    ensures a[k].tag == b[k].tag && a[k].udpTransport == b[k].udpTransport
  {
  }

  lemma {:induction false} TagsDistinct(a: seq<Converter.Entry>, b: seq<Converter.Entry>)
    requires SameTags(a, b) && EntryTagsDistinct(a)
    ensures EntryTagsDistinct(b)
  {
  }

  ghost predicate ProxiesUpTo(enabled: seq<Inbound>, entries: seq<Converter.Entry>, k: nat, acc: Relocation) {
    hide RemotePortKey, ProxyNameKey;
    && k <= |enabled| == |entries| == |acc.entries|
    && SameTags(entries, acc.entries)
    && ClientsMatch(enabled, acc.entries, k, acc.frpc)
    && ProxiesApart(enabled, entries, k)
    && acc.remotePorts == PortKeys(enabled, k) && acc.proxyNames == NameKeys(enabled, entries, k)
    && |acc.used| <= |entries| + k
  }

  /** What one more FRP-exposed inbound adds. */
  lemma {:induction false} RelocateOnePlaces(inb: Inbound, k: nat, acc: Relocation)
    requires k < |acc.entries| && RelocateOne(inb, k, acc).Ok? && inb.frp.FrpOn?
    ensures var next, tag := RelocateOne(inb, k, acc).value, acc.entries[k].tag;
            && inb.protocol != "hysteria2" && inb.protocol != "tuic" && !acc.entries[k].udpTransport
            && RemotePortKey(inb.frp) !in acc.remotePorts && ProxyNameKey(inb.frp, tag) !in acc.proxyNames
            && Moves(acc.entries, next.entries, k)
            && tag in next.frpc && Forwards(next.frpc[tag], inb.frp, next.entries[k])
            && next.frpc == acc.frpc[tag := next.frpc[tag]]
            && next.remotePorts == acc.remotePorts + {RemotePortKey(inb.frp)}
            && next.proxyNames == acc.proxyNames + {ProxyNameKey(inb.frp, tag)}
            && |next.used| <= |acc.used| + 1
  {
    hide RemotePortKey, ProxyNameKey, LocalPorts.Allocate;
  }

  lemma {:induction false} ApartGrows(enabled: seq<Inbound>, entries: seq<Converter.Entry>, k: nat)
    requires k < |enabled| == |entries| && ProxiesApart(enabled, entries, k)
    requires enabled[k].frp.FrpOn? ==>
               && enabled[k].protocol != "hysteria2" && enabled[k].protocol != "tuic" && !entries[k].udpTransport
               && RemotePortKey(enabled[k].frp) !in PortKeys(enabled, k)
               && ProxyNameKey(enabled[k].frp, entries[k].tag) !in NameKeys(enabled, entries, k)
    ensures ProxiesApart(enabled, entries, k + 1)
  {
    hide RemotePortKey, ProxyNameKey, SameName, SamePort;
    var frp, tag := enabled[k].frp, entries[k].tag;
    forall i | 0 <= i < k ensures !SamePort(enabled[i].frp, frp) && !SameName(enabled[i].frp, entries[i].tag, frp, tag) {
      if enabled[i].frp.FrpOn? && frp.FrpOn? {
        KeysApart(enabled[i].frp, entries[i].tag, frp, tag);
        KeysTaken(enabled, entries, k, i);
      } else {
        NotShared(enabled[i].frp, entries[i].tag, frp, tag);
      }
    }
  }

  lemma {:induction false} ProxiesStep(enabled: seq<Inbound>, entries: seq<Converter.Entry>, k: nat, acc: Relocation)
    requires EntryTagsDistinct(entries) && ProxiesUpTo(enabled, entries, k, acc) && k < |enabled|
    requires RelocateOne(enabled[k], k, acc).Ok?
    ensures ProxiesUpTo(enabled, entries, k + 1, RelocateOne(enabled[k], k, acc).value)
  {
    hide RemotePortKey, ProxyNameKey, ProxiesApart, ClientsMatch, Forwards, LocalPorts.Allocate, EntryTagsDistinct, SameTags;
    var next := RelocateOne(enabled[k], k, acc).value;
    assert acc.entries[k].tag == entries[k].tag && acc.entries[k].udpTransport == entries[k].udpTransport by {
      assert SameTags(entries, acc.entries);
      TagAt(entries, acc.entries, k);
    }
    TagsDistinct(entries, acc.entries);
    if enabled[k].frp.FrpOn? {
      RelocateOnePlaces(enabled[k], k, acc);
      hide RelocateOne, Moves;
      TagsStay(entries, acc.entries, next.entries, k);
      ApartGrows(enabled, entries, k);
      ClientsGrow(enabled, acc, k, next);
    } else {
      assert next == acc;
      hide RelocateOne;
      ApartGrows(enabled, entries, k);
      ClientsStay(enabled, acc.entries, k, acc.frpc);
    }
  }

  lemma {:induction false} ClientsStay(enabled: seq<Inbound>, entries: seq<Converter.Entry>, k: nat, frpc: map<string, FrpcEntry>)
    requires k < |enabled| == |entries| && ClientsMatch(enabled, entries, k, frpc) && !enabled[k].frp.FrpOn?
    ensures ClientsMatch(enabled, entries, k + 1, frpc)
  {
    hide Forwards;
    forall tag | tag in frpc ensures exists j :: 0 <= j < k + 1 && enabled[j].frp.FrpOn? && entries[j].tag == tag {
      var j :| 0 <= j < k && enabled[j].frp.FrpOn? && entries[j].tag == tag;
    }
  }

  lemma {:induction false} ClientsGrow(enabled: seq<Inbound>, acc: Relocation, k: nat, next: Relocation)
    requires k < |enabled| == |acc.entries| == |next.entries| && EntryTagsDistinct(acc.entries)
    requires ClientsMatch(enabled, acc.entries, k, acc.frpc)
    requires Moves(acc.entries, next.entries, k)
    requires var tag := acc.entries[k].tag;
             tag in next.frpc && Forwards(next.frpc[tag], enabled[k].frp, next.entries[k]) && next.frpc == acc.frpc[tag := next.frpc[tag]]
    ensures ClientsMatch(enabled, next.entries, k + 1, next.frpc)
  {
    assert enabled[k].frp.FrpOn?;
    hide Forwards;
    var own := acc.entries[k].tag;
    forall j | 0 <= j < k + 1 && enabled[j].frp.FrpOn?
      ensures next.entries[j].tag in next.frpc && Forwards(next.frpc[next.entries[j].tag], enabled[j].frp, next.entries[j])
    {
      if j < k {
        assert next.entries[j] == acc.entries[j];
        assert acc.entries[j].tag != own;
        assert acc.entries[j].tag in acc.frpc;
      }
    }
    forall tag | tag in next.frpc ensures exists j :: 0 <= j < k + 1 && enabled[j].frp.FrpOn? && next.entries[j].tag == tag {
      if tag != own {
        assert tag in acc.frpc;
        var j :| 0 <= j < k && enabled[j].frp.FrpOn? && acc.entries[j].tag == tag;
        assert next.entries[j].tag == tag;
      } else {
        assert next.entries[k].tag == tag;
      }
    }
  }

  // ----- All of them -----

  lemma {:induction false} ProxiesKept(enabled: seq<Inbound>, entries: seq<Converter.Entry>, k: nat, acc: Relocation)
    requires k <= |enabled| == |entries| == |acc.entries|
    requires EntryTagsDistinct(entries) && ProxiesUpTo(enabled, entries, k, acc)
    requires Relocate(enabled, k, acc).Ok?
    ensures ProxiesUpTo(enabled, entries, |enabled|, Relocate(enabled, k, acc).value)
    decreases |enabled| - k
  {
    hide RelocateOne, ProxiesUpTo, EntryTagsDistinct;
    if k < |enabled| {
      ProxiesStep(enabled, entries, k, acc);
      RelocateOneKeepsLength(enabled[k], k, acc);
      ProxiesKept(enabled, entries, k + 1, RelocateOne(enabled[k], k, acc).value);
    }
  }

  /** Why a relocation is refused. */
  ghost predicate Reason(enabled: seq<Inbound>, entries: seq<Converter.Entry>, error: Error)
    requires |enabled| == |entries|
  {
    hide RemotePortKey, ProxyNameKey;
    exists j :: 0 <= j < |enabled| &&
      (match error
       case FrpParamsInvalid(id) => id == enabled[j].id && enabled[j].frp.FrpInvalid?
       case FrpNotTcp(id) =>
         && id == enabled[j].id && enabled[j].frp.FrpOn?
         && (enabled[j].protocol == "hysteria2" || enabled[j].protocol == "tuic" || entries[j].udpTransport)
       case FrpRemotePortShared(id) =>
         id == enabled[j].id && exists i :: 0 <= i < j && SamePort(enabled[i].frp, enabled[j].frp)
       case FrpNameShared(id) =>
         && id == enabled[j].id && enabled[j].frp.FrpOn?
         && exists i :: 0 <= i < j && enabled[i].frp.FrpOn?
                        && ProxyNameKey(enabled[i].frp, entries[i].tag) == ProxyNameKey(enabled[j].frp, entries[j].tag)
       case NoLocalPort(id) => id == enabled[j].id && enabled[j].frp.FrpOn? && LocalPorts.COUNT <= |entries| + j
       case _ => false)
  }

  lemma {:induction false} RefusedAt(enabled: seq<Inbound>, entries: seq<Converter.Entry>, k: nat, acc: Relocation)
    requires EntryTagsDistinct(entries) && ProxiesUpTo(enabled, entries, k, acc) && k < |enabled|
    requires RelocateOne(enabled[k], k, acc).Err?
    ensures Reason(enabled, entries, RelocateOne(enabled[k], k, acc).error)
  {
    hide RemotePortKey, ProxyNameKey, LocalPorts.Allocate, ClientsMatch, ProxiesApart, EntryTagsDistinct, SamePort, PortKeys, NameKeys;
    var error := RelocateOne(enabled[k], k, acc).error;
    if error.FrpRemotePortShared? {
      var i := PortTaker(enabled, k, RemotePortKey(enabled[k].frp));
      KeysApart(enabled[i].frp, "", enabled[k].frp, "");
      assert SamePort(enabled[i].frp, enabled[k].frp);
    } else if error.NoLocalPort? {
      LocalPorts.AllocateSpec(acc.entries[k].tag, acc.used);
      RangeFits(LocalPorts.FIRST, LocalPorts.COUNT, acc.used);
    } else if error.FrpNameShared? {
      var i := NameTaker(enabled, entries, k, ProxyNameKey(enabled[k].frp, entries[k].tag));
    }
  }

  /** A set that holds n consecutive numbers has at least n elements. */
  lemma {:induction false} RangeFits(first: int, n: nat, s: set<int>)
    requires forall p | first <= p < first + n :: p in s
    ensures n <= |s|
  {
    if n > 0 {
      RangeFits(first, n - 1, s - {first + n - 1});
    }
  }

  lemma {:induction false} PortsInUseSize(entries: seq<Converter.Entry>)
    ensures |PortsInUse(entries)| <= |entries|
  {
    if entries == [] {
      assert PortsInUse(entries) == {};
    } else {
      var n := |entries| - 1;
      PortsInUseSize(entries[..n]);
      assert PortsInUse(entries) == PortsInUse(entries[..n]) + {entries[n].port};
    }
  }

  lemma {:induction false} RefusedFor(enabled: seq<Inbound>, entries: seq<Converter.Entry>, k: nat, acc: Relocation)
    requires k <= |enabled| == |entries| == |acc.entries|
    requires EntryTagsDistinct(entries) && ProxiesUpTo(enabled, entries, k, acc)
    requires Relocate(enabled, k, acc).Err?
    ensures Reason(enabled, entries, Relocate(enabled, k, acc).error)
    decreases |enabled| - k
  {
    hide RelocateOne, ProxiesUpTo, EntryTagsDistinct, Reason;
    if k < |enabled| {
      if RelocateOne(enabled[k], k, acc).Err? {
        RefusedAt(enabled, entries, k, acc);
      } else {
        ProxiesStep(enabled, entries, k, acc);
        RelocateOneKeepsLength(enabled[k], k, acc);
        RefusedFor(enabled, entries, k + 1, RelocateOne(enabled[k], k, acc).value);
      }
    }
  }

  /** With distinct listener tags: after a relocation the FRP clients are those of the
      FRP-exposed inbounds, each forwarding its remote port to the moved listener, and no two
      want the same remote port or name of one FRPS; a relocation is refused only for a reason
      found in the rows or for want of a local port. */
  lemma {:induction false} ProxiesSpec(enabled: seq<Inbound>, entries: seq<Converter.Entry>)
    requires |enabled| == |entries| && EntryTagsDistinct(entries)
    ensures var r := Relocate(enabled, 0, StartRelocation(entries));
            if r.Ok? then
              && |r.value.entries| == |entries|
              && ClientsMatch(enabled, r.value.entries, |enabled|, r.value.frpc)
              && ProxiesApart(enabled, entries, |enabled|)
            else Reason(enabled, entries, r.error)
  {
    hide Relocate, Reason, RemotePortKey, ProxyNameKey, PortsInUse;
    var start := StartRelocation(entries);
    PortsInUseSize(entries);
    assert ProxiesUpTo(enabled, entries, 0, start);
    if Relocate(enabled, 0, start).Ok? {
      ProxiesKept(enabled, entries, 0, start);
    } else {
      RefusedFor(enabled, entries, 0, start);
    }
  }

  /** The name check is on a rendering that joins user and name by a colon: two clients whose
      registered names differ are refused as one. */
  lemma {:induction false} NamesConfused() returns (a: FrpParams, b: FrpParams)
    ensures a.FrpOn? && b.FrpOn? && !SameName(a, "x", b, "y")
    ensures ProxyNameKey(a, "x") == ProxyNameKey(b, "y")
  {
    a := FrpOn("f", 7000, 1, "u", "v:w");
    b := FrpOn("f", 7000, 2, "u:v", "w");
    Text.TrimSpaceIdentity("v:w");
    Text.TrimSpaceIdentity("w");
    hide Text.TrimSpace, Text.Decimal;
    assert "u" + ":" + "v:w" == "u:v" + ":" + "w";
    var lead := "f" + ":" + Text.Decimal(7000) + ":";
    assert ProxyNameKey(a, "x") == lead + ("u" + ":" + "v:w");
    assert ProxyNameKey(b, "y") == lead + ("u:v" + ":" + "w");
  }
}
