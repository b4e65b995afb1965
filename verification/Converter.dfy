/** Renders inbounds, chain routes and plan rules as one sing-box document. */
module Converter {
  import opened Outcomes
  import opened Fleet
  import Text

  datatype Error =
    | NoEnabledInbounds
    | InboundNotConvertible(id: string)
    | ListenerConflict(id: string)
    | RouteInboundNotEnabled(id: string)
    | OutboundTagMissing(id: string)
    | OutboundTagRepeated(tag: string)

  /** Where a dialled outbound leads. */
  datatype Endpoint = Endpoint(nodeId: string, inboundId: string, server: string, port: int, tlsSkipVerify: bool)

  datatype Outbound =
    | DirectOut(bindInterface: string)
    | DialOut(dialTag: string, endpoint: Endpoint, bindInterface: string)
  {
    function Tag(): string {
      if DirectOut? then "direct" else dialTag
    }
  }

  datatype ChainRoute = ChainRoute(inboundId: string, outbound: Outbound)

  datatype PlannedRule = PlannedRule(matchType: string, matchValue: string, outbound: string, reject: bool)

  datatype Entry = Entry(tag: string, listen: string, port: int, certPath: string, udpTransport: bool)

  datatype Rule =
    | InboundRule(inboundTag: string, outboundTag: string)
    | RejectRule(matchType: string, matchValue: string)
    | RouteRule(matchType: string, matchValue: string, outboundTag: string)

  /** Rules are tried in order; traffic no rule takes leaves through "direct". */
  datatype Document = Document(inbounds: seq<Entry>, outbounds: seq<Outbound>, rules: seq<Rule>)

  datatype Options = Options(
    bindInterface: string, allowEmpty: bool, chainRoutes: seq<ChainRoute>, routeRules: seq<PlannedRule>)

  // ----- Tags and listeners -----

  predicate IsTagChar(c: char) {
    'a' <= c <= 'z' || '0' <= c <= '9'
  }

  /** Every maximal run of other characters becomes one dash. */
  function DashRuns(s: string, inRun: bool): string {
    if s == "" then ""
    else if IsTagChar(s[0]) then [s[0]] + DashRuns(s[1..], false)
    else (if inRun then "" else "-") + DashRuns(s[1..], true)
  }

  function TagCharsOnly(s: string): string {
    if s == "" then "" else (if IsTagChar(s[0]) then [s[0]] else "") + TagCharsOnly(s[1..])
  }

  function TrimDashes(s: string): string {
    if s != "" && s[0] == '-' then TrimDashes(s[1..])
    else if s != "" && s[|s| - 1] == '-' then TrimDashes(s[..|s| - 1])
    else s
  }

  /** Both the name fallback and the id keep at most eight characters, so tags can collide. */
  function InboundTag(inb: Inbound): string {
    var named := TrimDashes(DashRuns(Text.ToLower(Text.TrimSpace(inb.name)), false));
    var fallback := if named == "" then Text.Prefix(inb.id, 8) else named;
    var base := if fallback == "" then "inbound" else fallback;
    var id := Text.Prefix(TagCharsOnly(Text.ToLower(Text.TrimSpace(inb.id))), 8);
    if id != "" then "in-" + base + "-" + id else "in-" + base
  }

  function ListenerKey(listen: string, port: int): string {
    listen + ":" + Text.Decimal(port)
  }

  function MapInbound(inb: Inbound): Result<Entry, Error> {
    if !inb.mappable || inb.port.None? || !(1 <= inb.port.value <= 65535) then Err(InboundNotConvertible(inb.id))
    else
      Ok(Entry(InboundTag(inb), if inb.listen == "" then "0.0.0.0" else inb.listen,
               inb.port.value, inb.certPath, inb.udpTransport))
  }

  function Enabled(ins: seq<Inbound>): (r: seq<Inbound>)
    ensures forall x :: x in r <==> x in ins && x.enabled
  {
    if ins == [] then []
    else
      var last := ins[|ins| - 1];
      Enabled(ins[..|ins| - 1]) + if last.enabled then [last] else []
  }

  // ----- The three passes of a conversion, each from position i on -----

  datatype Listeners = Listeners(entries: seq<Entry>, tags: map<string, string>, keys: set<string>)

  function AddInbounds(ins: seq<Inbound>, i: nat, acc: Listeners): Result<Listeners, Error>
    requires i <= |ins|
    decreases |ins| - i
  {
    if i == |ins| then Ok(acc)
    else
      var mapped := MapInbound(ins[i]);
      if mapped.Err? then Err(mapped.error)
      else
        var key := ListenerKey(mapped.value.listen, mapped.value.port);
        if key in acc.keys then Err(ListenerConflict(ins[i].id))
        else
          AddInbounds(ins, i + 1, Listeners(
                        acc.entries + [mapped.value], acc.tags[ins[i].id := InboundTag(ins[i])], acc.keys + {key}))
  }

  datatype Outs = Outs(outbounds: seq<Outbound>, tags: set<string>, rules: seq<Rule>)

  function AddRoutes(routes: seq<ChainRoute>, i: nat, inboundTags: map<string, string>, acc: Outs): Result<Outs, Error>
    requires i <= |routes|
    decreases |routes| - i
  {
    if i == |routes| then Ok(acc)
    else
      var route := routes[i];
      var tag := route.outbound.Tag();
      if route.inboundId !in inboundTags then Err(RouteInboundNotEnabled(route.inboundId))
      else if Text.TrimSpace(tag) == "" then Err(OutboundTagMissing(route.inboundId))
      else if tag in acc.tags then Err(OutboundTagRepeated(tag))
      else
        AddRoutes(routes, i + 1, inboundTags, Outs(
                    acc.outbounds + [route.outbound], acc.tags + {tag},
                    acc.rules + [InboundRule(inboundTags[route.inboundId], tag)]))
  }

  predicate SupportedMatch(matchType: string, matchValue: string) {
    Text.TrimSpace(matchValue) != "" && matchType in {"domain", "domain_suffix", "domain_keyword", "ip_cidr"}
  }

  /** A rule whose target outbound does not exist is dropped, never emitted dangling. */
  function EmitRule(rule: PlannedRule, outboundTags: set<string>): seq<Rule> {
    var value := Text.TrimSpace(rule.matchValue);
    var target := Text.TrimSpace(rule.outbound);
    if !SupportedMatch(rule.matchType, rule.matchValue) then []
    else if rule.reject then [RejectRule(rule.matchType, value)]
    else if target == "" || target !in outboundTags then []
    else [RouteRule(rule.matchType, value, target)]
  }

  function EmitRules(rules: seq<PlannedRule>, outboundTags: set<string>): seq<Rule> {
    if rules == [] then [] else EmitRule(rules[0], outboundTags) + EmitRules(rules[1..], outboundTags)
  }

  function Convert(ins: seq<Inbound>, opts: Options): Result<Document, Error> {
    var enabled := Enabled(ins);
    if enabled == [] && !opts.allowEmpty then Err(NoEnabledInbounds)
    else
      var listeners := AddInbounds(enabled, 0, Listeners([], map[], {}));
      if listeners.Err? then Err(listeners.error)
      else
        var outs := AddRoutes(opts.chainRoutes, 0, listeners.value.tags,
                              Outs([DirectOut(Text.TrimSpace(opts.bindInterface))], {"direct"}, []));
        if outs.Err? then Err(outs.error)
        else
          Ok(Document(listeners.value.entries, outs.value.outbounds,
                      outs.value.rules + EmitRules(opts.routeRules, outs.value.tags)))
  }

  // ----- The conversion as the Panel runs it: loops over growing slices and maps -----

  method CollectEnabled(ins: seq<Inbound>) returns (enabled: seq<Inbound>)
    ensures enabled == Enabled(ins)
  {
    enabled := [];
    for i := 0 to |ins|
      invariant enabled == Enabled(ins[..i])
    {
      assert ins[..i + 1][..i] == ins[..i];
      if ins[i].enabled {
        enabled := enabled + [ins[i]];
      }
    }
    assert ins[..|ins|] == ins;
  }

  method CollectListeners(enabled: seq<Inbound>) returns (r: Result<Listeners, Error>)
    ensures r == AddInbounds(enabled, 0, Listeners([], map[], {}))
  {
    var entries, tags, keys := [], map[], {};
    for i := 0 to |enabled|
      invariant AddInbounds(enabled, i, Listeners(entries, tags, keys)) == AddInbounds(enabled, 0, Listeners([], map[], {}))
    {
      hide ListenerKey, InboundTag, MapInbound;
      var mapped := MapInbound(enabled[i]);
      if mapped.Err? {
        return Err(mapped.error);
      }
      var key := ListenerKey(mapped.value.listen, mapped.value.port);
      if key in keys {
        return Err(ListenerConflict(enabled[i].id));
      }
      keys := keys + {key};
      tags := tags[enabled[i].id := InboundTag(enabled[i])];
      entries := entries + [mapped.value];
    }
    return Ok(Listeners(entries, tags, keys));
  }

  method CollectRoutes(routes: seq<ChainRoute>, inboundTags: map<string, string>, direct: Outbound)
    returns (r: Result<Outs, Error>)
    ensures r == AddRoutes(routes, 0, inboundTags, Outs([direct], {"direct"}, []))
  {
    var outbounds, tags, rules := [direct], {"direct"}, [];
    for i := 0 to |routes|
      invariant AddRoutes(routes, i, inboundTags, Outs(outbounds, tags, rules))
             == AddRoutes(routes, 0, inboundTags, Outs([direct], {"direct"}, []))
    {
      hide Text.TrimSpace;
      var route := routes[i];
      if route.inboundId !in inboundTags {
        return Err(RouteInboundNotEnabled(route.inboundId));
      }
      var tag := route.outbound.Tag();
      if Text.TrimSpace(tag) == "" {
        return Err(OutboundTagMissing(route.inboundId));
      }
      if tag in tags {
        return Err(OutboundTagRepeated(tag));
      }
      tags := tags + {tag};
      outbounds := outbounds + [route.outbound];
      rules := rules + [InboundRule(inboundTags[route.inboundId], tag)];
    }
    return Ok(Outs(outbounds, tags, rules));
  }

  method AppendPlanRules(lead: seq<Rule>, planned: seq<PlannedRule>, outboundTags: set<string>) returns (rules: seq<Rule>)
    ensures rules == lead + EmitRules(planned, outboundTags)
  {
    rules := lead;
    for i := 0 to |planned|
      invariant rules + EmitRules(planned[i..], outboundTags) == lead + EmitRules(planned, outboundTags)
    {
      hide EmitRule;
      var rest := planned[i..];
      assert rest[0] == planned[i] && rest[1..] == planned[i + 1..];
      rules := rules + EmitRule(planned[i], outboundTags);
    }
  }

  method ConvertDocument(ins: seq<Inbound>, opts: Options) returns (r: Result<Document, Error>)
    ensures r == Convert(ins, opts)
  {
    var enabled := CollectEnabled(ins);
    if |enabled| == 0 && !opts.allowEmpty {
      return Err(NoEnabledInbounds);
    }
    var listeners := CollectListeners(enabled);
    if listeners.Err? {
      return Err(listeners.error);
    }
    var outs := CollectRoutes(opts.chainRoutes, listeners.value.tags, DirectOut(Text.TrimSpace(opts.bindInterface)));
    if outs.Err? {
      return Err(outs.error);
    }
    var rules := AppendPlanRules(outs.value.rules, opts.routeRules, outs.value.tags);
    return Ok(Document(listeners.value.entries, outs.value.outbounds, rules));
  }

  // ----- What a successful conversion guarantees -----

  function Tags(outbounds: seq<Outbound>): (r: set<string>)
    ensures forall t :: t in r <==> exists i | 0 <= i < |outbounds| :: outbounds[i].Tag() == t
  {
    set i | 0 <= i < |outbounds| :: outbounds[i].Tag()
  }

  ghost predicate EntriesConsistent(ins: seq<Inbound>, i: nat, acc: Listeners)
    requires i <= |ins|
  {
    && |acc.entries| == i
    && (forall k | 0 <= k < i :: MapInbound(ins[k]) == Ok(acc.entries[k]))
    && (forall k | 0 <= k < i :: ListenerKey(acc.entries[k].listen, acc.entries[k].port) in acc.keys)
    && (forall j, k | 0 <= j < k < i ::
          ListenerKey(acc.entries[j].listen, acc.entries[j].port) != ListenerKey(acc.entries[k].listen, acc.entries[k].port))
  }

  ghost predicate TagsConsistent(ins: seq<Inbound>, i: nat, tags: map<string, string>)
    requires i <= |ins|
  {
    && (forall id :: id in tags <==> exists k | 0 <= k < i :: ins[k].id == id)
    && (forall k | 0 <= k < i && (forall l | k < l < i :: ins[l].id != ins[k].id) ::
          ins[k].id in tags && tags[ins[k].id] == InboundTag(ins[k]))
  }

  ghost predicate ListenersConsistent(ins: seq<Inbound>, i: nat, acc: Listeners)
    requires i <= |ins|
  {
    EntriesConsistent(ins, i, acc) && TagsConsistent(ins, i, acc.tags)
  }

  lemma {:induction false} EntriesNext(ins: seq<Inbound>, i: nat, acc: Listeners, entry: Entry, next: Listeners)
    requires i < |ins| && EntriesConsistent(ins, i, acc)
    requires MapInbound(ins[i]) == Ok(entry) && ListenerKey(entry.listen, entry.port) !in acc.keys
    requires next.entries == acc.entries + [entry] && next.keys == acc.keys + {ListenerKey(entry.listen, entry.port)}
    ensures EntriesConsistent(ins, i + 1, next)
  {
    hide ListenerKey, MapInbound;
    assert forall k | 0 <= k < i :: next.entries[k] == acc.entries[k];
  }

  lemma {:induction false} TagsNext(ins: seq<Inbound>, i: nat, tags: map<string, string>)
    requires i < |ins| && TagsConsistent(ins, i, tags)
    ensures TagsConsistent(ins, i + 1, tags[ins[i].id := InboundTag(ins[i])])
  {
    hide InboundTag;
    var next := tags[ins[i].id := InboundTag(ins[i])];
    forall k | 0 <= k < i + 1 && (forall l | k < l < i + 1 :: ins[l].id != ins[k].id)
      ensures ins[k].id in next && next[ins[k].id] == InboundTag(ins[k])
    {
      if k < i {
        assert ins[i].id != ins[k].id;
      }
    }
  }

  lemma {:induction false} AddInboundsConsistent(ins: seq<Inbound>, i: nat, acc: Listeners)
    requires i <= |ins| && ListenersConsistent(ins, i, acc)
    requires AddInbounds(ins, i, acc).Ok?
    ensures ListenersConsistent(ins, |ins|, AddInbounds(ins, i, acc).value)
    decreases |ins| - i
  {
    hide ListenerKey, InboundTag, MapInbound, EntriesConsistent, TagsConsistent;
    if i < |ins| {
      var mapped := MapInbound(ins[i]).value;
      var next := Listeners(acc.entries + [mapped], acc.tags[ins[i].id := InboundTag(ins[i])],
                            acc.keys + {ListenerKey(mapped.listen, mapped.port)});
      EntriesNext(ins, i, acc, mapped, next);
      TagsNext(ins, i, acc.tags);
      AddInboundsConsistent(ins, i + 1, next);
    }
  }

  lemma {:induction false} TagsOfLonger(outbounds: seq<Outbound>, out: Outbound)
    ensures Tags(outbounds + [out]) == Tags(outbounds) + {out.Tag()}
  {
    var longer := outbounds + [out];
    assert longer[|outbounds|] == out;
    forall i | 0 <= i < |outbounds| ensures outbounds[i].Tag() in Tags(longer) {
      assert longer[i] == outbounds[i];
    }
  }

  ghost predicate OutsConsistent(routes: seq<ChainRoute>, i: nat, inboundTags: map<string, string>, acc: Outs)
    requires i <= |routes|
  {
    && |acc.outbounds| == i + 1 && |acc.rules| == i
    && acc.outbounds[0].DirectOut?
    && acc.tags == Tags(acc.outbounds)
    && (forall j, k | 0 <= j < k <= i :: acc.outbounds[j].Tag() != acc.outbounds[k].Tag())
    && (forall k | 0 <= k < i ::
          && acc.outbounds[k + 1] == routes[k].outbound
          && routes[k].inboundId in inboundTags
          && acc.rules[k] == InboundRule(inboundTags[routes[k].inboundId], routes[k].outbound.Tag()))
  }

  lemma {:induction false} AddRoutesConsistent(
    routes: seq<ChainRoute>, i: nat, inboundTags: map<string, string>, acc: Outs)
    requires i <= |routes| && OutsConsistent(routes, i, inboundTags, acc)
    requires AddRoutes(routes, i, inboundTags, acc).Ok?
    ensures OutsConsistent(routes, |routes|, inboundTags, AddRoutes(routes, i, inboundTags, acc).value)
    decreases |routes| - i
  {
    hide Text.TrimSpace;
    if i < |routes| {
      var out := routes[i].outbound;
      var next := Outs(acc.outbounds + [out], acc.tags + {out.Tag()},
                       acc.rules + [InboundRule(inboundTags[routes[i].inboundId], out.Tag())]);
      assert forall k | 0 <= k <= i :: next.outbounds[k] == acc.outbounds[k];
      TagsOfLonger(acc.outbounds, out);
      AddRoutesConsistent(routes, i + 1, inboundTags, next);
    }
  }

  lemma {:induction false} FirstStays(routes: seq<ChainRoute>, i: nat, inboundTags: map<string, string>, acc: Outs)
    requires i <= |routes| && acc.outbounds != [] && AddRoutes(routes, i, inboundTags, acc).Ok?
    ensures var end := AddRoutes(routes, i, inboundTags, acc).value; end.outbounds != [] && end.outbounds[0] == acc.outbounds[0]
    decreases |routes| - i
  {
    hide Text.TrimSpace;
    if i < |routes| {
      var route := routes[i];
      FirstStays(routes, i + 1, inboundTags, Outs(acc.outbounds + [route.outbound], acc.tags + {route.outbound.Tag()},
                                                  acc.rules + [InboundRule(inboundTags[route.inboundId], route.outbound.Tag())]));
    }
  }

  /** "direct" leaves through the interface of the node. */
  lemma {:induction false} DirectBound(ins: seq<Inbound>, opts: Options)
    requires Convert(ins, opts).Ok?
    ensures var outs := Convert(ins, opts).value.outbounds;
            outs != [] && outs[0] == DirectOut(Text.TrimSpace(opts.bindInterface))
  {
    hide Text.TrimSpace, AddInbounds, AddRoutes, EmitRules;
    var listeners := AddInbounds(Enabled(ins), 0, Listeners([], map[], {})).value;
    FirstStays(opts.chainRoutes, 0, listeners.tags, Outs([DirectOut(Text.TrimSpace(opts.bindInterface))], {"direct"}, []));
  }

  lemma {:induction false} EmittedRulesResolve(rules: seq<PlannedRule>, outboundTags: set<string>)
    ensures forall r | r in EmitRules(rules, outboundTags) ::
              !r.InboundRule? && (r.RouteRule? ==> r.outboundTag in outboundTags)
  {
    if rules != [] {
      EmittedRulesResolve(rules[1..], outboundTags);
    }
  }

  /** The two parts of a document's rule list: one rule per chain route, then the plan rules. */
  ghost predicate ChainRulesLead(doc: Document, routes: seq<ChainRoute>, tags: map<string, string>) {
    && |routes| <= |doc.rules|
    && |doc.outbounds| == |routes| + 1
    && (forall k | 0 <= k < |routes| ::
          && routes[k].inboundId in tags
          && doc.outbounds[k + 1] == routes[k].outbound
          && doc.rules[k] == InboundRule(tags[routes[k].inboundId], routes[k].outbound.Tag()))
    && (forall k | |routes| <= k < |doc.rules| :: !doc.rules[k].InboundRule?)
  }

  ghost predicate NoDanglingRule(doc: Document) {
    forall k | 0 <= k < |doc.rules| && !doc.rules[k].RejectRule? :: doc.rules[k].outboundTag in Tags(doc.outbounds)
  }

  ghost predicate DistinctOutbounds(doc: Document) {
    && |doc.outbounds| > 0 && doc.outbounds[0].DirectOut?
    && forall j, k | 0 <= j < k < |doc.outbounds| :: doc.outbounds[j].Tag() != doc.outbounds[k].Tag()
  }

  /** Final listeners never share an address and port. */
  ghost predicate DistinctListeners(entries: seq<Entry>) {
    forall j, k | 0 <= j < k < |entries| :: (entries[j].listen, entries[j].port) != (entries[k].listen, entries[k].port)
  }

  /** `tags` gives every enabled inbound its tag, and names nothing else. */
  ghost predicate TagsInbounds(tags: map<string, string>, ins: seq<Inbound>) {
    && (forall x | x in ins && x.enabled :: x.id in tags && tags[x.id] == InboundTag(x))
    && (forall id | id in tags :: exists x :: x in ins && x.enabled && x.id == id)
  }

  lemma {:induction false} EntriesMatchInbounds(ins: seq<Inbound>, opts: Options)
    requires Convert(ins, opts).Ok?
    ensures var doc := Convert(ins, opts).value;
            && |doc.inbounds| == |Enabled(ins)|
            && (forall k | 0 <= k < |doc.inbounds| :: MapInbound(Enabled(ins)[k]) == Ok(doc.inbounds[k]))
            && DistinctListeners(doc.inbounds)
  {
    hide InboundTag, ListenerKey, MapInbound, Text.TrimSpace, AddInbounds, AddRoutes, EmitRules;
    var en := Enabled(ins);
    var doc := Convert(ins, opts).value;
    AddInboundsConsistent(en, 0, Listeners([], map[], {}));
    forall j, k | 0 <= j < k < |doc.inbounds|
      ensures (doc.inbounds[j].listen, doc.inbounds[j].port) != (doc.inbounds[k].listen, doc.inbounds[k].port)
    {
      assert ListenerKey(doc.inbounds[j].listen, doc.inbounds[j].port) != ListenerKey(doc.inbounds[k].listen, doc.inbounds[k].port);
    }
  }

  ghost predicate DistinctIds(ins: seq<Inbound>) {
    forall j, k | 0 <= j < k < |ins| :: ins[j].id != ins[k].id
  }

  lemma {:induction false} EnabledKeepsIdsDistinct(ins: seq<Inbound>)
    requires DistinctIds(ins)
    ensures DistinctIds(Enabled(ins))
  {
    if ins != [] {
      EnabledKeepsIdsDistinct(ins[..|ins| - 1]);
      var en := Enabled(ins[..|ins| - 1]);
      forall k | 0 <= k < |en| ensures en[k].id != ins[|ins| - 1].id {
        assert en[k] in ins[..|ins| - 1];
      }
    }
  }

  lemma {:induction false} ListenersTagInbounds(ins: seq<Inbound>)
    requires DistinctIds(ins)
    requires AddInbounds(Enabled(ins), 0, Listeners([], map[], {})).Ok?
    ensures TagsInbounds(AddInbounds(Enabled(ins), 0, Listeners([], map[], {})).value.tags, ins)
  {
    hide InboundTag, ListenerKey, MapInbound, AddInbounds;
    var en := Enabled(ins);
    EnabledKeepsIdsDistinct(ins);
    AddInboundsConsistent(en, 0, Listeners([], map[], {}));
    var tags := AddInbounds(en, 0, Listeners([], map[], {})).value.tags;
    forall x | x in ins && x.enabled ensures x.id in tags && tags[x.id] == InboundTag(x) {
      var k :| 0 <= k < |en| && en[k] == x;
    }
    forall id | id in tags ensures exists x :: x in ins && x.enabled && x.id == id {
      var k :| 0 <= k < |en| && en[k].id == id;
      assert en[k] in en;
    }
  }

  /** The shape of every successful conversion: outbound tags are distinct and begin with
      "direct", chain rules come first and one per route, plan rules follow in order, and
      no rule names a missing outbound. */
  lemma {:induction false} ConvertedTable(ins: seq<Inbound>, opts: Options) returns (tags: map<string, string>)
    requires Convert(ins, opts).Ok?
    requires DistinctIds(ins)
    ensures TagsInbounds(tags, ins)
    ensures var doc := Convert(ins, opts).value;
            && DistinctOutbounds(doc)
            && NoDanglingRule(doc)
            && ChainRulesLead(doc, opts.chainRoutes, tags)
            && doc.rules[|opts.chainRoutes|..] == EmitRules(opts.routeRules, Tags(doc.outbounds))
  {
    hide InboundTag, ListenerKey, MapInbound, Text.TrimSpace, AddInbounds, AddRoutes, EmitRules;
    ListenersTagInbounds(ins);
    tags := AddInbounds(Enabled(ins), 0, Listeners([], map[], {})).value.tags;
    var direct := Outs([DirectOut(Text.TrimSpace(opts.bindInterface))], {"direct"}, []);
    TagsOfLonger([], direct.outbounds[0]);
    assert OutsConsistent(opts.chainRoutes, 0, tags, direct);
    AddRoutesConsistent(opts.chainRoutes, 0, tags, direct);
    var outs := AddRoutes(opts.chainRoutes, 0, tags, direct).value;
    EmittedRulesResolve(opts.routeRules, outs.tags);
    var doc := Convert(ins, opts).value;
    var plan := EmitRules(opts.routeRules, outs.tags);
    assert doc.rules == outs.rules + plan;
    forall k | |opts.chainRoutes| <= k < |doc.rules|
      ensures !doc.rules[k].InboundRule? && (doc.rules[k].RouteRule? ==> doc.rules[k].outboundTag in outs.tags)
    {
      assert doc.rules[k] == plan[k - |opts.chainRoutes|];
    }
    forall k | 0 <= k < |opts.chainRoutes| ensures doc.rules[k].outboundTag in Tags(doc.outbounds) {
      assert doc.outbounds[k + 1].Tag() == doc.rules[k].outboundTag;
    }
  }
}
