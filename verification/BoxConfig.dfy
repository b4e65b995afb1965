/** Rewrites an Agent applies to a sing-box document before parsing and starting it. Documents
    have one canonical text, so they are compared as values. */
module BoxConfig {
  import opened Outcomes

  datatype Json =
    | Null
    | Bool(b: bool)
    | Num(n: int)
    | Str(s: string)
    | Arr(items: seq<Json>)
    | Obj(fields: map<string, Json>)

  type Document = map<string, Json>

  datatype Text = Malformed(raw: string) | Canonical(doc: Document)

  const EMPTY := Malformed("")

  function UdpServer(tag: string, server: string): Json {
    Obj(map["type" := Str("udp"), "tag" := Str(tag), "server" := Str(server), "server_port" := Num(53)])
  }

  const DEFAULT_DNS := Obj(map["servers" := Arr([
                                                  UdpServer("default-dns-alidns", "223.5.5.5"),
                                                  UdpServer("default-dns-dnspod", "119.29.29.29"),
                                                  UdpServer("default-dns-cf", "1.1.1.1"),
                                                  UdpServer("default-dns-google", "8.8.8.8")])])

  /** A "dns" member with at least one server. */
  predicate HasDnsServers(doc: Document) {
    && "dns" in doc && doc["dns"].Obj?
    && "servers" in doc["dns"].fields && doc["dns"].fields["servers"].Arr?
    && doc["dns"].fields["servers"].items != []
  }

  function EnsureDefaultDns(doc: Document): Document {
    if HasDnsServers(doc) then doc else doc["dns" := DEFAULT_DNS]
  }

  // ----- Android: drop interface bindings -----

  predicate Binds(fields: map<string, Json>, key: string) {
    key in fields && fields[key] != Str("") && fields[key] != Null
  }

  /** Decodes as a list of objects. */
  predicate IsObjectList(value: Json) {
    value.Arr? && forall i | 0 <= i < |value.items| :: value.items[i].Obj? || value.items[i].Null?
  }

  function Unbind(entry: Json): Json {
    if entry.Obj? && Binds(entry.fields, "bind_interface") then Obj(entry.fields - {"bind_interface"}) else entry
  }

  function UnbindAll(entries: seq<Json>): seq<Json> {
    seq(|entries|, i requires 0 <= i < |entries| => Unbind(entries[i]))
  }

  function SanitizeList(doc: Document, key: string): Document {
    if key in doc && IsObjectList(doc[key]) then doc[key := Arr(UnbindAll(doc[key].items))] else doc
  }

  function SanitizeRoute(doc: Document): Document {
    if "route" in doc && doc["route"].Obj? && Binds(doc["route"].fields, "default_interface") then
      doc["route" := Obj(doc["route"].fields - {"default_interface"})]
    else doc
  }

  function SanitizeAndroid(doc: Document): Document {
    SanitizeRoute(SanitizeList(SanitizeList(doc, "outbounds"), "inbounds"))
  }

  /** The sanitizer's loops: keys are deleted from decoded entries, and a member is only written
      back when one of its entries changed. */
  method SanitizeAndroidConfig(doc: Document) returns (out: Document, modified: bool)
    ensures out == SanitizeAndroid(doc)
    ensures modified <==> out != doc
  {
    out, modified := doc, false;
    var keys := ["outbounds", "inbounds"];
    assert keys[..2] == keys && keys[..1] == ["outbounds"] && keys[..0] == [];
    for k := 0 to 2
      invariant k == 0 ==> out == doc
      invariant k == 1 ==> out == SanitizeList(doc, "outbounds")
      invariant k == 2 ==> out == SanitizeList(SanitizeList(doc, "outbounds"), "inbounds")
      invariant modified <==> out != doc
      invariant out.Keys == doc.Keys && forall x | x in doc && x !in keys[..k] :: out[x] == doc[x]
    {
      var key := keys[k];
      if key in out && IsObjectList(out[key]) {
        var entries, entriesMod := UnbindEntries(out[key].items);
        if entriesMod {
          assert Arr(entries) != doc[key];
          out := out[key := Arr(entries)];
          modified := true;
        } else {
          assert out[key] == Arr(UnbindAll(out[key].items));
          assert out == out[key := Arr(entries)];
        }
      }
    }
    if "route" in out && out["route"].Obj? && Binds(out["route"].fields, "default_interface") {
      out := out["route" := Obj(out["route"].fields - {"default_interface"})];
      assert "default_interface" in doc["route"].fields && "default_interface" !in out["route"].fields;
      modified := true;
    }
  }

  method UnbindEntries(items: seq<Json>) returns (entries: seq<Json>, modified: bool)
    ensures entries == UnbindAll(items)
    ensures modified <==> entries != items
  {
    entries, modified := items, false;
    for i := 0 to |items|
      invariant |entries| == |items|
      invariant forall j | 0 <= j < i :: entries[j] == Unbind(items[j])
      invariant forall j | i <= j < |items| :: entries[j] == items[j]
      invariant modified <==> entries != items
    {
      if entries[i].Obj? && Binds(entries[i].fields, "bind_interface") {
        entries := entries[i := Obj(entries[i].fields - {"bind_interface"})];
        assert "bind_interface" in items[i].fields && "bind_interface" !in entries[i].fields;
        assert entries[i] != items[i];
        modified := true;
      }
    }
  }

  // ----- What preparing a document keeps -----

  /** The value names an interface. */
  predicate Names(value: Json) {
    match value
    case Null => false
    case Str(s) => s != ""
    case _ => true
  }

  /** An object that names an interface under the key loses that key and nothing else. */
  ghost predicate LosesOnly(before: Json, after: Json, key: string) {
    if before.Obj? && key in before.fields && Names(before.fields[key]) then
      && after.Obj? && after.fields.Keys == before.fields.Keys - {key}
      && forall f | f in after.fields :: after.fields[f] == before.fields[f]
    else after == before
  }

  /** A list of objects loses interface bindings entry by entry; any other value stays. */
  ghost predicate EntriesLose(before: Json, after: Json) {
    if before.Arr? && (forall x | x in before.items :: x.Obj? || x.Null?) then
      && after.Arr? && |after.items| == |before.items|
      && forall i | 0 <= i < |before.items| :: LosesOnly(before.items[i], after.items[i], "bind_interface")
    else after == before
  }

  /** The prepared document has the members of the given one and "dns": its own DNS servers, or the
      default ones if it has none. On Android, entries and route lose their interface; every other
      member is untouched. */
  ghost predicate Kept(android: bool, before: Document, after: Document) {
    && after.Keys == before.Keys + {"dns"}
    && after["dns"] == (if HasDnsServers(before) then before["dns"] else DEFAULT_DNS)
    && forall key | key in before && key != "dns" ::
         if android && (key == "outbounds" || key == "inbounds") then EntriesLose(before[key], after[key])
         else if android && key == "route" then LosesOnly(before[key], after[key], "default_interface")
         else after[key] == before[key]
  }

  lemma {:induction false} ListLoses(doc: Document, key: string)
    requires key in doc
    ensures EntriesLose(doc[key], SanitizeList(doc, key)[key])
  {
    var after := SanitizeList(doc, key)[key];
    if IsObjectList(doc[key]) {
      forall i | 0 <= i < |doc[key].items| ensures LosesOnly(doc[key].items[i], after.items[i], "bind_interface") {
        assert after.items[i] == Unbind(doc[key].items[i]);
      }
    } else if doc[key].Arr? {
      var i :| 0 <= i < |doc[key].items| && !(doc[key].items[i].Obj? || doc[key].items[i].Null?);
      assert doc[key].items[i] in doc[key].items;
    }
  }

  ghost predicate OnlyMember(before: Document, after: Document, key: string) {
    after.Keys == before.Keys && forall k | k in before && k != key :: after[k] == before[k]
  }

  lemma {:induction false} ListOnly(doc: Document, key: string)
    ensures OnlyMember(doc, SanitizeList(doc, key), key)
  {
  }

  lemma {:induction false} RouteLoses(doc: Document)
    ensures OnlyMember(doc, SanitizeRoute(doc), "route")
    ensures "route" in doc ==> LosesOnly(doc["route"], SanitizeRoute(doc)["route"], "default_interface")
  {
  }

  ghost predicate Sanitized(before: Document, after: Document) {
    && after.Keys == before.Keys
    && forall key | key in before ::
         if key == "outbounds" || key == "inbounds" then EntriesLose(before[key], after[key])
         else if key == "route" then LosesOnly(before[key], after[key], "default_interface")
         else after[key] == before[key]
  }

  lemma {:induction false} StagesSanitize(doc: Document, a: Document, b: Document, c: Document)
    requires OnlyMember(doc, a, "outbounds") && OnlyMember(a, b, "inbounds") && OnlyMember(b, c, "route")
    requires "outbounds" in doc ==> EntriesLose(doc["outbounds"], a["outbounds"])
    requires "inbounds" in a ==> EntriesLose(a["inbounds"], b["inbounds"])
    requires "route" in b ==> LosesOnly(b["route"], c["route"], "default_interface")
    ensures Sanitized(doc, c)
  {
    hide EntriesLose, LosesOnly;
    forall key | key in doc
      ensures if key == "outbounds" || key == "inbounds" then EntriesLose(doc[key], c[key])
              else if key == "route" then LosesOnly(doc[key], c[key], "default_interface")
              else c[key] == doc[key]
    {
      assert key in a && key in b && key in c;
    }
  }

  lemma {:induction false} AndroidSanitizes(doc: Document)
    ensures Sanitized(doc, SanitizeAndroid(doc))
  {
    hide SanitizeList, SanitizeRoute, EntriesLose, LosesOnly, OnlyMember, Sanitized;
    var a := SanitizeList(doc, "outbounds");
    var b := SanitizeList(a, "inbounds");
    ListOnly(doc, "outbounds");
    ListOnly(a, "inbounds");
    RouteLoses(b);
    if "outbounds" in doc {
      ListLoses(doc, "outbounds");
    }
    if "inbounds" in a {
      ListLoses(a, "inbounds");
    }
    StagesSanitize(doc, a, b, SanitizeRoute(b));
  }

  lemma {:induction false} PrepareKeeps(android: bool, doc: Document)
    ensures Kept(android, doc, PrepareDocument(android, doc))
  {
    assert "dns" in EnsureDefaultDns(doc);
    hide SanitizeAndroid, EntriesLose, LosesOnly, HasDnsServers;
    if android {
      AndroidSanitizes(EnsureDefaultDns(doc));
    }
  }

  function PrepareDocument(android: bool, doc: Document): Document {
    var withDns := EnsureDefaultDns(doc);
    if android then SanitizeAndroid(withDns) else withDns
  }

  function Prepare(android: bool, text: Text): Option<Document> {
    if text.Malformed? then None else Some(PrepareDocument(android, text.doc))
  }

  method PrepareConfig(android: bool, text: Text) returns (r: Option<Document>)
    ensures r == Prepare(android, text)
    ensures r.Some? <==> text.Canonical?
    ensures r.Some? ==> HasDnsServers(r.value) && Prepare(android, Canonical(r.value)) == r
    ensures r.Some? ==> Kept(android, text.doc, r.value)
  {
    if text.Malformed? {
      return None;
    }
    PrepareIdempotent(android, text.doc);
    PrepareKeeps(android, text.doc);
    hide Kept;
    PreparedHasDns(android, text.doc);
    var doc := if HasDnsServers(text.doc) then text.doc else text.doc["dns" := DEFAULT_DNS];
    if android {
      var modified;
      doc, modified := SanitizeAndroidConfig(doc);
    }
    return Some(doc);
  }

  /** Preparing a prepared document changes nothing, so restoring one restores exactly it. */
  lemma {:induction false} PrepareIdempotent(android: bool, doc: Document)
    ensures PrepareDocument(android, PrepareDocument(android, doc)) == PrepareDocument(android, doc)
  {
    var first := EnsureDefaultDns(doc);
    DefaultDnsSuffices(doc);
    if android {
      var clean := SanitizeAndroid(first);
      assert "dns" in clean && clean["dns"] == first["dns"];
      SanitizeIdempotent(first);
    }
  }

  lemma {:induction false} PreparedHasDns(android: bool, doc: Document)
    ensures HasDnsServers(PrepareDocument(android, doc))
  {
    DefaultDnsSuffices(doc);
    var first := EnsureDefaultDns(doc);
    assert "dns" in SanitizeAndroid(first) && SanitizeAndroid(first)["dns"] == first["dns"];
  }

  lemma {:induction false} DefaultDnsSuffices(doc: Document)
    ensures HasDnsServers(EnsureDefaultDns(doc))
  {
  }

  lemma {:induction false} SanitizeIdempotent(doc: Document)
    ensures SanitizeAndroid(SanitizeAndroid(doc)) == SanitizeAndroid(doc)
  {
    var a := SanitizeList(doc, "outbounds");
    var b := SanitizeList(a, "inbounds");
    var c := SanitizeRoute(b);
    ListClean(doc, "outbounds");
    ListClean(a, "inbounds");
    assert CleanList(b, "outbounds") && CleanList(c, "outbounds") && CleanList(c, "inbounds");
    CleanListKept(c, "outbounds");
    CleanListKept(c, "inbounds");
  }

  ghost predicate CleanList(doc: Document, key: string) {
    key in doc && IsObjectList(doc[key]) ==>
      forall i | 0 <= i < |doc[key].items| :: doc[key].items[i].Obj? ==> !Binds(doc[key].items[i].fields, "bind_interface")
  }

  lemma {:induction false} ListClean(doc: Document, key: string)
    ensures CleanList(SanitizeList(doc, key), key)
  {
  }

  lemma {:induction false} CleanListKept(doc: Document, key: string)
    requires CleanList(doc, key)
    ensures SanitizeList(doc, key) == doc
  {
    if key in doc && IsObjectList(doc[key]) {
      assert UnbindAll(doc[key].items) == doc[key].items;
    }
  }
}
