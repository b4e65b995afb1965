/** When each stage of a build goes through: collecting the hops, converting, moving FRP listeners. */
module StageOutcomes {
  import opened Outcomes
  import opened Fleet
  import opened NodeConfig
  import opened ChainTables
  import opened NodeTables
  import opened FrpProxies
  import opened HopDial
  import Converter
  import LocalPorts
  import Text

  // ----- Collecting -----

  /** The row of the hop exists and is enabled; a relay's next hop can be dialled and rendered. */
  ghost predicate HopUsable(snap: Snapshot, chains: seq<Chain>, x: nat, i: nat)
    requires x < |chains| && i < |chains[x].hops|
  {
    var hops := chains[x].hops;
    && hops[i].inboundId in snap.inbounds && snap.inbounds[hops[i].inboundId].enabled
    && (i + 1 < |hops| ==> Dialable(snap, hops[i + 1]) && Renders(snap, hops[i + 1]))
  }

  predicate Renders(snap: Snapshot, hop: Hop) {
    hop.inboundId in snap.inbounds && snap.inbounds[hop.inboundId].dialable
  }

  /** From hop h of chain a on, the node's hops are usable, use none of these inbounds, and no two
      of them use the same one. */
  ghost predicate UsableFrom(snap: Snapshot, chains: seq<Chain>, nodeId: string, a: nat, h: nat, ids: set<string>) {
    hide Dials;
    && (forall x: nat, i: nat | HopHere(chains, nodeId, x, i) && !Passed(x, i, a, h) ::
          HopUsable(snap, chains, x, i) && chains[x].hops[i].inboundId !in ids)
    && (forall x: nat, i: nat, y: nat, j: nat |
          HopHere(chains, nodeId, x, i) && !Passed(x, i, a, h) && HopHere(chains, nodeId, y, j) && !Passed(y, j, a, h)
          && chains[x].hops[i].inboundId == chains[y].hops[j].inboundId ::
          x == y && i == j)
  }

  lemma {:induction false} AddHopIff(snap: Snapshot, node: Node, chains: seq<Chain>, a: nat, h: nat, acc: Parts)
    requires snap.Valid() && HopHere(chains, node.id, a, h)
    ensures var r := AddHop(snap, node, chains[a], h, acc);
            && (r.Ok? <==> HopUsable(snap, chains, a, h) && chains[a].hops[h].inboundId !in acc.ids)
            && (r.Ok? ==> r.value.ids == acc.ids + {chains[a].hops[h].inboundId})
  {
    if h + 1 < |chains[a].hops| {
      EndpointIff(snap, chains[a], h + 1);
    }
    hide ResolveHopEndpoint, ChainOutboundTag, Text.TrimSpace, Dialable;
  }

  lemma {:induction false} UsableStep(snap: Snapshot, chains: seq<Chain>, nodeId: string, a: nat, h: nat, ids: set<string>)
    requires a < |chains| && chains[a].enabled && h < |chains[a].hops|
    ensures UsableFrom(snap, chains, nodeId, a, h, ids) <==>
              if HopHere(chains, nodeId, a, h) then
                && HopUsable(snap, chains, a, h) && chains[a].hops[h].inboundId !in ids
                && UsableFrom(snap, chains, nodeId, a, h + 1, ids + {chains[a].hops[h].inboundId})
              else UsableFrom(snap, chains, nodeId, a, h + 1, ids)
  {
    hide HopUsable, Passed;
    PassedNext(a, h);
    if HopHere(chains, nodeId, a, h) {
      hide UsableFrom;
      StepHere(snap, chains, nodeId, a, h, ids);
    } else {
      assert forall x: nat, i: nat | HopHere(chains, nodeId, x, i) :: Passed(x, i, a, h + 1) <==> Passed(x, i, a, h);
    }
  }

  lemma {:induction false} PassedNext(a: nat, h: nat)
    ensures forall x: nat, i: nat :: Passed(x, i, a, h + 1) <==> Passed(x, i, a, h) || (x == a && i == h)
    ensures !Passed(a, h, a, h)
  {
  }

  lemma {:induction false} StepHere(snap: Snapshot, chains: seq<Chain>, nodeId: string, a: nat, h: nat, ids: set<string>)
    requires HopHere(chains, nodeId, a, h)
    ensures UsableFrom(snap, chains, nodeId, a, h, ids) <==>
              && HopUsable(snap, chains, a, h) && chains[a].hops[h].inboundId !in ids
              && UsableFrom(snap, chains, nodeId, a, h + 1, ids + {chains[a].hops[h].inboundId})
  {
    hide HopUsable, Passed;
    PassedNext(a, h);
    var id := chains[a].hops[h].inboundId;
    if UsableFrom(snap, chains, nodeId, a, h, ids) {
      forall x: nat, i: nat | HopHere(chains, nodeId, x, i) && !Passed(x, i, a, h + 1)
        ensures HopUsable(snap, chains, x, i) && chains[x].hops[i].inboundId !in ids + {id}
      {
        assert chains[x].hops[i].inboundId == id ==> x == a && i == h;
      }
    } else if HopUsable(snap, chains, a, h) && id !in ids && UsableFrom(snap, chains, nodeId, a, h + 1, ids + {id}) {
      forall x: nat, i: nat | HopHere(chains, nodeId, x, i) && !Passed(x, i, a, h)
        ensures HopUsable(snap, chains, x, i) && chains[x].hops[i].inboundId !in ids
        ensures chains[x].hops[i].inboundId == id ==> x == a && i == h
      {
        if !(x == a && i == h) {
          assert chains[x].hops[i].inboundId !in ids + {id};
        }
      }
      assert false;
    }
  }

  lemma {:induction false} UsableChain(snap: Snapshot, chains: seq<Chain>, nodeId: string, a: nat, h: nat, ids: set<string>)
    requires a < |chains| && (if chains[a].enabled then h == |chains[a].hops| else h == 0)
    ensures UsableFrom(snap, chains, nodeId, a, h, ids) <==> UsableFrom(snap, chains, nodeId, a + 1, 0, ids)
  {
    hide HopUsable;
    assert forall x: nat, i: nat | HopHere(chains, nodeId, x, i) :: Passed(x, i, a, h) <==> Passed(x, i, a + 1, 0);
    hide Passed, HopHere;
  }

  lemma {:induction false} HopsIff(snap: Snapshot, node: Node, chains: seq<Chain>, a: nat, h: nat, acc: Parts)
    requires snap.Valid() && a < |chains| && chains[a].enabled && h <= |chains[a].hops|
    ensures AddHops(snap, node, chains[a], h, acc).Ok? && AddChains(snap, node, chains, a + 1, AddHops(snap, node, chains[a], h, acc).value).Ok?
       <==> UsableFrom(snap, chains, node.id, a, h, acc.ids)
    decreases |chains| - a, |chains[a].hops| - h + 1
  {
    hide UsableFrom, HopUsable;
    if h == |chains[a].hops| {
      ChainsIff(snap, node, chains, a + 1, acc);
      UsableChain(snap, chains, node.id, a, h, acc.ids);
    } else {
      UsableStep(snap, chains, node.id, a, h, acc.ids);
      if HopHere(chains, node.id, a, h) {
        AddHopIff(snap, node, chains, a, h, acc);
        hide AddHop;
        if AddHop(snap, node, chains[a], h, acc).Ok? {
          HopsIff(snap, node, chains, a, h + 1, AddHop(snap, node, chains[a], h, acc).value);
        }
      } else {
        assert AddHop(snap, node, chains[a], h, acc) == Ok(acc);
        hide AddHop;
        HopsIff(snap, node, chains, a, h + 1, acc);
      }
    }
  }

  lemma {:induction false} ChainsIff(snap: Snapshot, node: Node, chains: seq<Chain>, a: nat, acc: Parts)
    requires snap.Valid() && a <= |chains|
    ensures AddChains(snap, node, chains, a, acc).Ok? <==> UsableFrom(snap, chains, node.id, a, 0, acc.ids)
    decreases |chains| - a + 1, 0
  {
    hide AddHops;
    if a < |chains| {
      hide UsableFrom;
      if chains[a].enabled {
        HopsIff(snap, node, chains, a, 0, acc);
      } else {
        UsableChain(snap, chains, node.id, a, 0, acc.ids);
        ChainsIff(snap, node, chains, a + 1, acc);
      }
    }
  }

  // ----- Converting -----

  predicate Convertible(b: Inbound) {
    b.mappable && b.port.Some? && 1 <= b.port.value <= 65535
  }

  function ListenAt(b: Inbound): (string, Option<int>) {
    (if b.listen == "" then "0.0.0.0" else b.listen, b.port)
  }

  /** The inbounds from the i-th on convert, and listen at places of their own. */
  ghost predicate ListenFrom(ins: seq<Inbound>, i: nat, keys: set<string>) {
    && (forall k | i <= k < |ins| :: Convertible(ins[k]) && KeyOf(ins[k]) !in keys)
    && (forall j, k | i <= j < k < |ins| :: ListenAt(ins[j]) != ListenAt(ins[k]))
  }

  function KeyOf(b: Inbound): string {
    if b.port.Some? then Converter.ListenerKey(ListenAt(b).0, b.port.value) else ""
  }

  lemma {:induction false} KeysSame(b: Inbound, c: Inbound)
    requires b.port.Some? && c.port.Some?
    ensures KeyOf(b) == KeyOf(c) <==> ListenAt(b) == ListenAt(c)
  {
    if KeyOf(b) == KeyOf(c) {
      Text.NumberedKeyInjective(ListenAt(b).0, b.port.value, ListenAt(c).0, c.port.value);
    }
    hide Text.Decimal;
  }

  lemma {:induction false} MapIff(b: Inbound)
    ensures Converter.MapInbound(b).Ok? <==> Convertible(b)
    ensures Convertible(b) ==>
              var e := Converter.MapInbound(b).value; Converter.ListenerKey(e.listen, e.port) == KeyOf(b)
  {
    hide Converter.InboundTag, Text.Decimal;
  }

  lemma {:induction false} ListenStep(ins: seq<Inbound>, i: nat, keys: set<string>)
    requires i < |ins|
    ensures ListenFrom(ins, i, keys) <==>
              Convertible(ins[i]) && KeyOf(ins[i]) !in keys && ListenFrom(ins, i + 1, keys + {KeyOf(ins[i])})
  {
    forall k | i < k < |ins| && Convertible(ins[k]) && Convertible(ins[i])
      ensures KeyOf(ins[i]) == KeyOf(ins[k]) <==> ListenAt(ins[i]) == ListenAt(ins[k])
    {
      KeysSame(ins[i], ins[k]);
    }
    hide KeyOf, ListenAt;
    if Convertible(ins[i]) && KeyOf(ins[i]) !in keys && ListenFrom(ins, i + 1, keys + {KeyOf(ins[i])}) {
      forall k | i < k < |ins| ensures ListenAt(ins[i]) != ListenAt(ins[k]) && KeyOf(ins[k]) !in keys {
        assert KeyOf(ins[k]) !in keys + {KeyOf(ins[i])};
      }
    }
  }

  lemma {:induction false} AddInboundsIff(ins: seq<Inbound>, i: nat, acc: Converter.Listeners)
    requires i <= |ins|
    ensures Converter.AddInbounds(ins, i, acc).Ok? <==> ListenFrom(ins, i, acc.keys)
    decreases |ins| - i
  {
    if i < |ins| {
      MapIff(ins[i]);
      ListenStep(ins, i, acc.keys);
      hide Converter.MapInbound, Converter.InboundTag, Converter.ListenerKey, KeyOf, ListenFrom, Convertible;
      if Converter.MapInbound(ins[i]).Ok? {
        var e := Converter.MapInbound(ins[i]).value;
        var next := Converter.Listeners(acc.entries + [e], acc.tags[ins[i].id := Converter.InboundTag(ins[i])], acc.keys + {KeyOf(ins[i])});
        AddInboundsIff(ins, i + 1, next);
        assert KeyOf(ins[i]) !in acc.keys ==> Converter.AddInbounds(ins, i, acc) == Converter.AddInbounds(ins, i + 1, next);
      }
    }
  }

  /** The routes from the i-th on start at known inbounds, and their outbounds have new names. */
  ghost predicate RouteFrom(routes: seq<Converter.ChainRoute>, i: nat, known: map<string, string>, tags: set<string>) {
    && (forall k | i <= k < |routes| ::
          && routes[k].inboundId in known && Text.TrimSpace(routes[k].outbound.Tag()) != "" && routes[k].outbound.Tag() !in tags)
    && (forall j, k | i <= j < k < |routes| :: routes[j].outbound.Tag() != routes[k].outbound.Tag())
  }

  lemma {:induction false} RouteStep(routes: seq<Converter.ChainRoute>, i: nat, known: map<string, string>, tags: set<string>)
    requires i < |routes|
    ensures RouteFrom(routes, i, known, tags) <==>
              && routes[i].inboundId in known && Text.TrimSpace(routes[i].outbound.Tag()) != "" && routes[i].outbound.Tag() !in tags
              && RouteFrom(routes, i + 1, known, tags + {routes[i].outbound.Tag()})
  {
    hide Text.TrimSpace;
    var tag := routes[i].outbound.Tag();
    if routes[i].inboundId in known && Text.TrimSpace(tag) != "" && tag !in tags && RouteFrom(routes, i + 1, known, tags + {tag}) {
      forall k | i < k < |routes| ensures routes[k].outbound.Tag() != tag && routes[k].outbound.Tag() !in tags {
        assert routes[k].outbound.Tag() !in tags + {tag};
      }
    }
  }

  lemma {:induction false} AddRoutesIff(routes: seq<Converter.ChainRoute>, i: nat, known: map<string, string>, acc: Converter.Outs)
    requires i <= |routes|
    ensures Converter.AddRoutes(routes, i, known, acc).Ok? <==> RouteFrom(routes, i, known, acc.tags)
    decreases |routes| - i
  {
    if i < |routes| {
      RouteStep(routes, i, known, acc.tags);
      hide Text.TrimSpace, RouteFrom;
      var route := routes[i];
      if route.inboundId in known {
        AddRoutesIff(routes, i + 1, known, Converter.Outs(
                       acc.outbounds + [route.outbound], acc.tags + {route.outbound.Tag()},
                       acc.rules + [Converter.InboundRule(known[route.inboundId], route.outbound.Tag())]));
      }
    }
  }

  /** Given inbounds with distinct ids, the conversion of a node goes through exactly when its enabled
      inbounds convert and listen apart and its routes start at them under names of their own. */
  lemma {:induction false} ConvertIff(ins: seq<Inbound>, opts: Converter.Options) returns (known: map<string, string>)
    requires Converter.DistinctIds(ins) && opts.allowEmpty
    ensures Converter.Convert(ins, opts).Ok? <==>
              ListenFrom(Converter.Enabled(ins), 0, {}) && RouteFrom(opts.chainRoutes, 0, known, {"direct"})
    ensures ListenFrom(Converter.Enabled(ins), 0, {}) ==> Converter.TagsInbounds(known, ins)
  {
    hide Converter.AddInbounds, Converter.AddRoutes, Converter.Enabled, ListenFrom, RouteFrom, Converter.TagsInbounds, Text.TrimSpace,
         Converter.EmitRules;
    var start := Converter.Listeners([], map[], {});
    AddInboundsIff(Converter.Enabled(ins), 0, start);
    var direct := Converter.Outs([Converter.DirectOut(Text.TrimSpace(opts.bindInterface))], {"direct"}, []);
    known := map[];
    if ListenFrom(Converter.Enabled(ins), 0, {}) {
      Converter.ListenersTagInbounds(ins);
      known := Converter.AddInbounds(Converter.Enabled(ins), 0, start).value.tags;
      AddRoutesIff(opts.chainRoutes, 0, known, direct);
    }
  }

  // ----- Moving FRP listeners -----

  /** The FRP settings of the k-th inbound are valid and fit: it has a stream transport, and no
      earlier one has its remote port, or a name rendered alike. */
  ghost predicate Fits(enabled: seq<Inbound>, entries: seq<Converter.Entry>, k: nat)
    requires k < |enabled| == |entries|
  {
    hide ProxyNameKey;
    var frp := enabled[k].frp;
    && !frp.FrpInvalid?
    && (frp.FrpOn? ==>
          && enabled[k].protocol != "hysteria2" && enabled[k].protocol != "tuic" && !entries[k].udpTransport
          && forall i | 0 <= i < k && enabled[i].frp.FrpOn? ::
               !SamePort(enabled[i].frp, frp) && ProxyNameKey(enabled[i].frp, entries[i].tag) != ProxyNameKey(frp, entries[k].tag))
  }

  ghost predicate KeysUpTo(enabled: seq<Inbound>, entries: seq<Converter.Entry>, k: nat, acc: Relocation) {
    && k <= |enabled| == |entries| == |acc.entries|
    && SameTags(entries, acc.entries)
    && acc.remotePorts == PortKeys(enabled, k) && acc.proxyNames == NameKeys(enabled, entries, k)
    && |acc.used| <= |entries| + k
  }

  lemma {:induction false} FitsIff(enabled: seq<Inbound>, entries: seq<Converter.Entry>, k: nat)
    requires k < |enabled| == |entries| && enabled[k].frp.FrpOn?
    ensures (forall i | 0 <= i < k && enabled[i].frp.FrpOn? :: !SamePort(enabled[i].frp, enabled[k].frp))
       <==> RemotePortKey(enabled[k].frp) !in PortKeys(enabled, k)
    ensures (forall i | 0 <= i < k && enabled[i].frp.FrpOn? ::
               ProxyNameKey(enabled[i].frp, entries[i].tag) != ProxyNameKey(enabled[k].frp, entries[k].tag))
       <==> ProxyNameKey(enabled[k].frp, entries[k].tag) !in NameKeys(enabled, entries, k)
  {
    hide RemotePortKey, ProxyNameKey, SamePort, PortKeys, NameKeys;
    var frp, tag := enabled[k].frp, entries[k].tag;
    if RemotePortKey(frp) in PortKeys(enabled, k) {
      var i := PortTaker(enabled, k, RemotePortKey(frp));
      KeysApart(enabled[i].frp, entries[i].tag, frp, tag);
      assert SamePort(enabled[i].frp, frp);
    }
    if ProxyNameKey(frp, tag) in NameKeys(enabled, entries, k) {
      var i := NameTaker(enabled, entries, k, ProxyNameKey(frp, tag));
    }
    forall i | 0 <= i < k && enabled[i].frp.FrpOn?
      ensures SamePort(enabled[i].frp, frp) ==> RemotePortKey(frp) in PortKeys(enabled, k)
      ensures ProxyNameKey(enabled[i].frp, entries[i].tag) in NameKeys(enabled, entries, k)
    {
      KeysTaken(enabled, entries, k, i);
      KeysApart(enabled[i].frp, entries[i].tag, frp, tag);
    }
  }

  lemma {:induction false} RelocateOneIff(enabled: seq<Inbound>, entries: seq<Converter.Entry>, k: nat, acc: Relocation)
    requires KeysUpTo(enabled, entries, k, acc) && k < |enabled|
    ensures var r := RelocateOne(enabled[k], k, acc);
            && (r.Ok? ==> Fits(enabled, entries, k) && KeysUpTo(enabled, entries, k + 1, r.value))
            && (r.Err? && Fits(enabled, entries, k) ==> r.error.NoLocalPort? && LocalPorts.COUNT <= |entries| + k)
  {
    hide RemotePortKey, ProxyNameKey, SamePort, LocalPorts.Allocate, PortKeys, NameKeys, SameTags;
    TagAt(entries, acc.entries, k);
    if enabled[k].frp.FrpOn? {
      FitsIff(enabled, entries, k);
      LocalPorts.AllocateSpec(acc.entries[k].tag, acc.used);
      if RelocateOne(enabled[k], k, acc).Ok? {
        RelocateOnePlaces(enabled[k], k, acc);
        var next := RelocateOne(enabled[k], k, acc).value;
        hide RelocateOne, Moves, Forwards;
        TagsStay(entries, acc.entries, next.entries, k);
        KeysNext(enabled, entries, k);
      } else if Fits(enabled, entries, k) {
        RangeFits(LocalPorts.FIRST, LocalPorts.COUNT, acc.used);
      }
    } else {
      KeysNext(enabled, entries, k);
    }
  }

  lemma {:induction false} KeysNext(enabled: seq<Inbound>, entries: seq<Converter.Entry>, k: nat)
    requires k < |enabled| == |entries|
    ensures PortKeys(enabled, k + 1) == PortKeys(enabled, k) + if enabled[k].frp.FrpOn? then {RemotePortKey(enabled[k].frp)} else {}
    ensures NameKeys(enabled, entries, k + 1)
         == NameKeys(enabled, entries, k) + if enabled[k].frp.FrpOn? then {ProxyNameKey(enabled[k].frp, entries[k].tag)} else {}
  {
    hide RemotePortKey, ProxyNameKey;
  }

  lemma {:induction false} RelocateFrom(enabled: seq<Inbound>, entries: seq<Converter.Entry>, k: nat, acc: Relocation)
    requires k <= |enabled| == |acc.entries| && KeysUpTo(enabled, entries, k, acc) && |enabled| == |entries|
    ensures var r := Relocate(enabled, k, acc);
            && (r.Ok? ==> forall i | k <= i < |enabled| :: Fits(enabled, entries, i))
            && (r.Err? && (forall i | k <= i < |enabled| :: Fits(enabled, entries, i)) ==>
                  r.error.NoLocalPort? && LocalPorts.COUNT <= 2 * |entries|)
    decreases |enabled| - k
  {
    hide RelocateOne, KeysUpTo, Fits;
    if k < |enabled| {
      RelocateOneIff(enabled, entries, k, acc);
      if RelocateOne(enabled[k], k, acc).Ok? {
        RelocateOneKeepsLength(enabled[k], k, acc);
        RelocateFrom(enabled, entries, k + 1, RelocateOne(enabled[k], k, acc).value);
      }
    }
  }

  /** FRP listeners can be moved exactly when their settings fit, unless half the local port range
      would be needed. */
  lemma {:induction false} RelocateIff(enabled: seq<Inbound>, entries: seq<Converter.Entry>)
    requires |enabled| == |entries|
    ensures var r := Relocate(enabled, 0, StartRelocation(entries));
            && (r.Ok? ==> forall i | 0 <= i < |enabled| :: Fits(enabled, entries, i))
            && (r.Err? && (forall i | 0 <= i < |enabled| :: Fits(enabled, entries, i)) ==>
                  r.error.NoLocalPort? && LocalPorts.COUNT <= 2 * |entries|)
  {
    hide Relocate, Fits, PortsInUse;
    PortsInUseSize(entries);
    RelocateFrom(enabled, entries, 0, StartRelocation(entries));
  }
}
