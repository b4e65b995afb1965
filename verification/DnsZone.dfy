/** A provider's zone: a list of records, read whole, of which an update replaces one record set
    (section 5 of RFC 2181) and a deletion removes matching records. */
module DnsZone {
  import opened Outcomes

  datatype RecordType = A | AAAA | CNAME | TXT

  datatype Record = Record(name: string, typ: RecordType, value: string, ttl: int)

  type Zone = seq<Record>

  /** Records of one name and type, or among them those with one value. */
  datatype Match = Match(name: string, typ: RecordType, value: Option<string>)

  predicate Hits(m: Match, r: Record) {
    r.name == m.name && r.typ == m.typ && (m.value.Some? ==> r.value == m.value.value)
  }

  function Matching(z: Zone, m: Match): (r: Zone)
    ensures forall x :: x in r <==> x in z && Hits(m, x)
  {
    if z == [] then [] else (if Hits(m, z[0]) then [z[0]] else []) + Matching(z[1..], m)
  }

  function Dropping(z: Zone, m: Match): (r: Zone)
    ensures forall x :: x in r <==> x in z && !Hits(m, x)
  {
    if z == [] then [] else (if Hits(m, z[0]) then [] else [z[0]]) + Dropping(z[1..], m)
  }

  /** The records of every other name, in order. */
  function Others(z: Zone, name: string): Zone {
    if z == [] then [] else (if z[0].name == name then [] else [z[0]]) + Others(z[1..], name)
  }

  /** The values of one record set. */
  function Values(z: Zone, name: string, typ: RecordType): set<string> {
    set r | r in z && r.name == name && r.typ == typ :: r.value
  }

  lemma {:induction false} DroppingKeepsOthers(z: Zone, m: Match)
    ensures Others(Dropping(z, m), m.name) == Others(z, m.name)
    decreases |z|
  {
    if z != [] {
      DroppingKeepsOthers(z[1..], m);
      var rest := Dropping(z[1..], m);
      if Hits(m, z[0]) {
        assert [] + rest == rest;
      } else {
        assert ([z[0]] + rest)[1..] == rest;
      }
    }
  }

  lemma {:induction false} OthersAppend(z: Zone, r: Record)
    ensures Others(z + [r], r.name) == Others(z, r.name)
    decreases |z|
  {
    if z == [] {
      assert z + [r] == [r];
    } else {
      assert (z + [r])[1..] == z[1..] + [r];
      OthersAppend(z[1..], r);
    }
  }

  lemma {:induction false} NothingToDrop(z: Zone, m: Match)
    requires Matching(z, m) == []
    ensures Dropping(z, m) == z
    decreases |z|
  {
    if z != [] {
      NothingToDrop(z[1..], m);
    }
  }

  // ----- The provider's operations -----

  /** A provider call succeeds, or reports an error without or with its effect. */
  datatype Fate = Fine | Fails | FailsLate

  function Lookup(z: Zone, name: string, typ: RecordType, f: Fate): Option<Zone> {
    if f.Fine? then Some(Matching(z, Match(name, typ, None))) else None
  }

  /** A text value joins those of its record set; any other record takes the place of its set. */
  function Upserted(z: Zone, r: Record): Zone {
    if r.typ.TXT? then z + [r] else Dropping(z, Match(r.name, r.typ, None)) + [r]
  }

  /** The zone afterwards, whether a write was attempted, and whether the call succeeded. A text
      value is looked up first, and not written again if it is there. */
  function Upsert(z: Zone, r: Record, read: Fate, write: Fate): (Zone, bool, bool) {
    if r.typ.TXT? && !read.Fine? then (z, false, false)
    else if r.typ.TXT? && Matching(z, Match(r.name, TXT, Some(r.value))) != [] then (z, false, true)
    else (if write.Fails? then z else Upserted(z, r), true, write.Fine?)
  }

  function Delete(z: Zone, name: string, typ: RecordType, value: string, read: Fate, write: Fate): (Zone, bool, bool) {
    var m := Match(name, typ, if value == "" then None else Some(value));
    if !read.Fine? then (z, false, false)
    else if Matching(z, m) == [] then (z, false, true)
    else (if write.Fails? then z else Dropping(z, m), true, write.Fine?)
  }

  lemma {:induction false} ValueThere(z: Zone, name: string, typ: RecordType, value: string)
    ensures Matching(z, Match(name, typ, Some(value))) != [] <==> value in Values(z, name, typ)
  {
    var m := Match(name, typ, Some(value));
    hide Matching;
    if value in Values(z, name, typ) {
      var r :| r in z && r.name == name && r.typ == typ && r.value == value;
      assert r in Matching(z, m);
    }
    if Matching(z, m) != [] {
      assert Matching(z, m)[0] in Matching(z, m);
    }
  }

  lemma {:induction false} UpsertedValues(z: Zone, r: Record)
    ensures Values(Upserted(z, r), r.name, r.typ) == (if r.typ.TXT? then Values(z, r.name, TXT) else {}) + {r.value}
    ensures forall t: RecordType | t != r.typ :: Values(Upserted(z, r), r.name, t) == Values(z, r.name, t)
    ensures Others(Upserted(z, r), r.name) == Others(z, r.name)
  {
    var kept := if r.typ.TXT? then z else Dropping(z, Match(r.name, r.typ, None));
    DroppingKeepsOthers(z, Match(r.name, r.typ, None));
    OthersAppend(kept, r);
    hide Dropping;
    assert forall x :: x in kept + [r] <==> x in kept || x == r;
    forall v ensures v in Values(kept + [r], r.name, r.typ) <==> v == r.value || (r.typ.TXT? && v in Values(z, r.name, TXT)) {
      if v in Values(kept + [r], r.name, r.typ) && v != r.value {
        var x :| x in kept + [r] && x.name == r.name && x.typ == r.typ && x.value == v;
        assert x in kept;
      }
      if r.typ.TXT? && v in Values(z, r.name, TXT) {
        var x :| x in z && x.name == r.name && x.typ == TXT && x.value == v;
        assert x in kept + [r];
      }
    }
    forall t: RecordType | t != r.typ ensures Values(Upserted(z, r), r.name, t) == Values(z, r.name, t) {
      SameValues(z, kept + [r], r.name, t);
    }
  }

  /** What a record set holds after an upsert that took effect: a text value is added to those
      there, any other value is alone. */
  function Wanted(z: Zone, r: Record): set<string> {
    if r.typ.TXT? then Values(z, r.name, TXT) + {r.value} else {r.value}
  }

  /** An upsert makes one record set what is wanted, or changes nothing; a text value that is there
      is not written again; success means that the set is what is wanted. */
  lemma {:induction false} UpsertSpec(z: Zone, r: Record, read: Fate, write: Fate)
    ensures var (y, wrote, ok) := Upsert(z, r, read, write);
            && (y == z || Values(y, r.name, r.typ) == Wanted(z, r))
            && (ok ==> Values(y, r.name, r.typ) == Wanted(z, r))
            && (wrote <==> !r.typ.TXT? || (read.Fine? && r.value !in Values(z, r.name, TXT)))
            && (!wrote ==> y == z && (ok <==> read.Fine?))
            && (wrote ==> (ok <==> write.Fine?) && (y == z || Values(y, r.name, r.typ) == Wanted(z, r)))
            && (r.typ.TXT? ==> z <= y)
            && (forall t: RecordType | t != r.typ :: Values(y, r.name, t) == Values(z, r.name, t))
            && Others(y, r.name) == Others(z, r.name)
  {
    ValueThere(z, r.name, TXT, r.value);
    UpsertedValues(z, r);
    hide Values, Others, Matching, Dropping;
  }

  lemma {:induction false} DropAppended(z: Zone, r: Record, m: Match)
    requires Hits(m, r) && Matching(z, m) == []
    ensures Dropping(z + [r], m) == z && Matching(z + [r], m) != []
    decreases |z|
  {
    assert r in z + [r];
    if z == [] {
      assert z + [r] == [r];
      assert [r][1..] == [];
    } else {
      assert (z + [r])[1..] == z[1..] + [r];
      DropAppended(z[1..], r, m);
    }
  }

  /** A text value put up and taken down again leaves the very zone there was, exactly when the
      value was not there before: one that was is lost with it. */
  lemma {:induction false} TextRoundTripIff(z: Zone, r: Record)
    requires r.typ.TXT? && r.value != ""
    ensures var y := Upsert(z, r, Fine, Fine).0;
            Delete(y, r.name, TXT, r.value, Fine, Fine).0 == z <==> r.value !in Values(z, r.name, TXT)
  {
    ValueThere(z, r.name, TXT, r.value);
    var m := Match(r.name, TXT, Some(r.value));
    if r.value in Values(z, r.name, TXT) {
      DropValueSpec(z, r.name, TXT, r.value);
    } else {
      DropAppended(z, r, m);
    }
  }

  lemma {:induction false} SameValues(z: Zone, y: Zone, name: string, t: RecordType)
    requires forall x: Record | x.name == name && x.typ == t :: x in z <==> x in y
    ensures Values(z, name, t) == Values(y, name, t)
  {
    forall v ensures v in Values(z, name, t) <==> v in Values(y, name, t) {
      if v in Values(z, name, t) {
        var r :| r in z && r.name == name && r.typ == t && r.value == v;
        assert r in y;
      }
      if v in Values(y, name, t) {
        var r :| r in y && r.name == name && r.typ == t && r.value == v;
        assert r in z;
      }
    }
  }

  lemma {:induction false} DropValueSpec(z: Zone, name: string, typ: RecordType, value: string)
    ensures var y := Dropping(z, Match(name, typ, Some(value)));
            && Values(y, name, typ) == Values(z, name, typ) - {value}
            && (forall t: RecordType | t != typ :: Values(y, name, t) == Values(z, name, t))
            && Others(y, name) == Others(z, name)
  {
    var m := Match(name, typ, Some(value));
    var y := Dropping(z, m);
    DroppingKeepsOthers(z, m);
    hide Dropping;
    forall t: RecordType | t != typ ensures Values(y, name, t) == Values(z, name, t) {
      SameValues(z, y, name, t);
    }
    forall v ensures v in Values(y, name, typ) <==> v in Values(z, name, typ) && v != value {
      if v in Values(y, name, typ) {
        var r :| r in y && r.name == name && r.typ == typ && r.value == v;
        assert r in z;
      }
      if v in Values(z, name, typ) && v != value {
        var r :| r in z && r.name == name && r.typ == typ && r.value == v;
        assert r in y;
      }
    }
  }

  /** A deletion removes one value of one record set and nothing else, if it happens at all; on
      success the value is gone. */
  lemma {:induction false} DeleteSpec(z: Zone, name: string, typ: RecordType, value: string, read: Fate, write: Fate)
    requires value != ""
    ensures var (y, wrote, ok) := Delete(z, name, typ, value, read, write);
            && (y == z || Values(y, name, typ) == Values(z, name, typ) - {value})
            && (ok ==> Values(y, name, typ) == Values(z, name, typ) - {value})
            && (forall t: RecordType | t != typ :: Values(y, name, t) == Values(z, name, t))
            && Others(y, name) == Others(z, name)
            && (!wrote ==> y == z)
            && (value !in Values(z, name, typ) ==> !wrote)
  {
    var m := Match(name, typ, Some(value));
    DropValueSpec(z, name, typ, value);
    if Matching(z, m) == [] {
      NothingToDrop(z, m);
    } else {
      var r := Matching(z, m)[0];
      assert r in Matching(z, m);
      assert r.value in Values(z, name, typ);
    }
  }
}
