/** How an order ends, decided by the calls it makes: which calls are made, in which order, and when
    the whole of it succeeds. */
module AcmeOutcomes {
  import opened Outcomes
  import opened DnsZone
  import opened AcmeOrder

  /** How many records of the name hold the text value. */
  function Copies(z: Zone, fqdn: string, value: string): nat {
    if z == [] then 0
    else (if z[0].name == fqdn && z[0].typ.TXT? && z[0].value == value then 1 else 0) + Copies(z[1..], fqdn, value)
  }

  /** The record is there: it was already, or it was written. */
  ghost predicate GoesUp(z: Zone, fqdn: string, value: string, l: Luck) {
    l.read.Fine? && (value in Texts(z, fqdn) || l.write.Fine?)
  }

  /** Every copy is looked up and deleted; the first deletion takes them all. */
  ghost predicate GoesDown(copies: nat, l: Luck) {
    && l.find.Fine?
    && (forall k: nat | k < copies :: l.deleteRead(k).Fine?)
    && (copies > 0 ==> l.deleteWrite(0).Fine?)
  }

  ghost function CopiesUp(z: Zone, fqdn: string, value: string): nat {
    if value in Texts(z, fqdn) then Copies(z, fqdn, value) else 1
  }

  /** The record goes up, the validation is waited for, asked for and granted, and it comes down. */
  ghost predicate Validates(z: Zone, fqdn: string, value: string, l: Luck) {
    GoesUp(z, fqdn, value, l) && l.wait && l.accept && l.authorize && GoesDown(CopiesUp(z, fqdn, value), l)
  }

  // ----- Putting up and taking down -----

  lemma {:induction false} CopiesThere(z: Zone, fqdn: string, value: string)
    ensures Copies(z, fqdn, value) > 0 <==> value in Texts(z, fqdn)
    decreases |z|
  {
    if z != [] {
      CopiesThere(z[1..], fqdn, value);
      assert z == [z[0]] + z[1..];
      if value in Texts(z, fqdn) {
        var r :| r in z && r.name == fqdn && r.typ == TXT && r.value == value;
        assert r == z[0] || r in z[1..];
      }
      if value in Texts(z[1..], fqdn) {
        var r :| r in z[1..] && r.name == fqdn && r.typ == TXT && r.value == value;
        assert r in z;
      }
      if z[0].name == fqdn && z[0].typ.TXT? && z[0].value == value {
        assert z[0] in z;
      }
    }
  }

  lemma {:induction false} CopiesAppended(z: Zone, r: Record)
    requires r.typ.TXT?
    ensures Copies(z + [r], r.name, r.value) == Copies(z, r.name, r.value) + 1
    decreases |z|
  {
    if z == [] {
      assert z + [r] == [r];
      assert [r][1..] == [];
    } else {
      assert (z + [r])[1..] == z[1..] + [r];
      CopiesAppended(z[1..], r);
    }
  }

  /** A value that is not there is added as one record of sixty seconds. */
  lemma {:induction false} PutUpIs(z: Zone, fqdn: string, value: Digest, l: Luck)
    ensures var (y, up) := PutUp(z, fqdn, value, l);
            && (up <==> GoesUp(z, fqdn, value, l))
            && y == (if l.read.Fine? && value !in Texts(z, fqdn) && !l.write.Fails? then z + [Record(fqdn, TXT, value, 60)] else z)
            && (up ==> Copies(y, fqdn, value) == CopiesUp(z, fqdn, value))
  {
    ValueThere(z, fqdn, TXT, value);
    CopiesThere(z, fqdn, value);
    CopiesAppended(z, Record(fqdn, TXT, value, 60));
    hide Values, Matching, Copies;
  }

  lemma {:induction false} FoundCopies(z: Zone, fqdn: string, value: string)
    ensures Copies(Matching(z, Match(fqdn, TXT, None)), fqdn, value) == Copies(z, fqdn, value)
    decreases |z|
  {
    if z != [] {
      FoundCopies(z[1..], fqdn, value);
      var rest := Matching(z[1..], Match(fqdn, TXT, None));
      if Hits(Match(fqdn, TXT, None), z[0]) {
        assert ([z[0]] + rest)[1..] == rest;
      } else {
        assert [] + rest == rest;
      }
    }
  }

  /** The first deletion takes every copy; one that finds nothing only looks. */
  lemma {:induction false} DeletionEnds(z: Zone, fqdn: string, value: Digest, read: Fate, write: Fate)
    ensures var (y, wrote, ok) := Delete(z, fqdn, TXT, value, read, write);
            && (ok <==> read.Fine? && (value in Texts(z, fqdn) ==> write.Fine?))
            && (ok ==> value !in Texts(y, fqdn))
  {
    ValueThere(z, fqdn, TXT, value);
    DropValueSpec(z, fqdn, TXT, value);
    hide Values, Matching, Dropping, Others;
  }

  /** The deletions from the k-th on are all looked up. */
  ghost predicate Looked(l: Luck, k: nat, n: nat) {
    forall j: nat | k <= j < k + n :: l.deleteRead(j).Fine?
  }

  lemma {:induction false} LookedFirst(l: Luck, k: nat, n: nat)
    requires n > 0
    ensures Looked(l, k, n) <==> l.deleteRead(k).Fine? && Looked(l, k + 1, n - 1)
  {
  }

  /** Deleting once for each record found: the first deletion decides, the later ones only look. */
  lemma {:induction false} DeleteFoundIff(z: Zone, fqdn: string, value: Digest, found: Zone, k: nat, l: Luck)
    requires forall r | r in found :: r.name == fqdn && r.typ.TXT?
    requires k > 0 ==> value !in Texts(z, fqdn)
    requires k == 0 && Copies(found, fqdn, value) > 0 ==> value in Texts(z, fqdn)
    ensures var n := Copies(found, fqdn, value);
            DeleteFound(z, fqdn, value, found, k, l).1 <==> Looked(l, k, n) && (k == 0 && n > 0 ==> l.deleteWrite(0).Fine?)
    decreases |found|
  {
    hide Texts, Delete, Looked;
    if found != [] {
      assert found == [found[0]] + found[1..];
      assert found[0] in found;
      if found[0].value != value {
        DeleteFoundIff(z, fqdn, value, found[1..], k, l);
      } else {
        var n := Copies(found, fqdn, value);
        LookedFirst(l, k, n);
        DeletionEnds(z, fqdn, value, l.deleteRead(k), l.deleteWrite(k));
        var (y, wrote, ok) := Delete(z, fqdn, TXT, value, l.deleteRead(k), l.deleteWrite(k));
        if ok {
          DeleteFoundIff(y, fqdn, value, found[1..], k + 1, l);
        }
      }
    } else {
      NoneLooked(l, k);
    }
  }

  lemma {:induction false} NoneLooked(l: Luck, k: nat)
    ensures Looked(l, k, 0)
  {
  }

  lemma {:induction false} TakeDownIff(z: Zone, fqdn: string, value: Digest, l: Luck)
    ensures TakeDown(z, fqdn, value, l).1 <==> GoesDown(Copies(z, fqdn, value), l)
  {
    var found := Matching(z, Match(fqdn, TXT, None));
    CopiesThere(z, fqdn, value);
    FoundCopies(z, fqdn, value);
    assert forall r | r in found :: r.name == fqdn && r.typ.TXT?;
    hide Values, Matching, Copies, DeleteFound;
    DeleteFoundIff(z, fqdn, value, found, 0, l);
  }

  // ----- One authorization -----

  /** There is a record to put up for the authorization. */
  predicate Challenges(a: Authorization, l: Luck) {
    l.get && !a.valid && (exists i | 0 <= i < |a.challenges| :: a.challenges[i].kind == "dns-01") && l.digest
  }

  /** The name and the value of that record: those of the first DNS challenge. */
  ghost predicate RecordFor(a: Authorization, value: string -> Digest, fqdn: string, v: Digest) {
    && fqdn == "_acme-challenge." + (if |a.name| >= 2 && a.name[0] == '*' && a.name[1] == '.' then a.name[2..] else a.name)
    && exists i | 0 <= i < |a.challenges| ::
         && a.challenges[i].kind == "dns-01" && v == value(a.challenges[i].token)
         && forall j | 0 <= j < i :: a.challenges[j].kind != "dns-01"
  }

  lemma {:induction false} FirstChallenge(s: seq<Challenge>)
    requires DnsChallenge(s).Some?
    ensures exists i | 0 <= i < |s| :: s[i] == DnsChallenge(s).value && s[i].kind == "dns-01" && forall j | 0 <= j < i :: s[j].kind != "dns-01"
    decreases |s|
  {
    if s[0].kind == "dns-01" {
      assert s[0] == DnsChallenge(s).value;
    } else {
      assert s == [s[0]] + s[1..];
      FirstChallenge(s[1..]);
      var i :| 0 <= i < |s[1..]| && s[1..][i] == DnsChallenge(s).value && s[1..][i].kind == "dns-01"
            && forall j | 0 <= j < i :: s[1..][j].kind != "dns-01";
      assert s[i + 1] == DnsChallenge(s).value;
      forall j | 0 <= j < i + 1 ensures s[j].kind != "dns-01" {
        assert j > 0 ==> s[j] == s[1..][j - 1];
      }
    }
  }

  lemma {:induction false} RecordIs(a: Authorization, value: string -> Digest)
    requires DnsChallenge(a.challenges).Some?
    ensures RecordFor(a, value, RecordName(a.name), value(DnsChallenge(a.challenges).value.token))
  {
    FirstChallenge(a.challenges);
    hide DnsChallenge;
    assert |a.name| >= 2 ==> (a.name[..2] == "*." <==> a.name[0] == '*' && a.name[1] == '.');
  }

  /** The calls made for one record, each finding the zone it finds: put up, waited for, asked for,
      granted, up to the first that fails, and then taken down. */
  ghost predicate CallsMade(steps: seq<Step>, z: Zone, fqdn: string, value: Digest, l: Luck) {
    if !GoesUp(z, fqdn, value, l) then |steps| == 1 && steps[0].call == Present(fqdn, value, false)
    else
      && |steps| == 3 + (if l.wait then if l.accept then 2 else 1 else 0)
      && steps[0].call == Present(fqdn, value, true)
      && steps[0].zone == (if value in Texts(z, fqdn) then z else z + [Record(fqdn, TXT, value, 60)])
      && steps[1].call == Wait
      && (l.wait ==> steps[2].call == Accept)
      && (l.wait && l.accept ==> steps[3].call == AwaitAuthorization)
      && steps[|steps| - 1].call == Cleanup(fqdn, value)
      && forall k | 0 < k < |steps| - 1 :: steps[k].zone == steps[0].zone
  }

  ghost predicate Made(steps: seq<Step>, z: Zone, a: Authorization, value: string -> Digest, l: Luck) {
    if Challenges(a, l) then
      exists fqdn: string, v: Digest :: RecordFor(a, value, fqdn, v) && CallsMade(steps, z, fqdn, v, l)
    else steps == []
  }

  /** The authorization is had: it is valid already, or its record validates it. */
  ghost predicate Granted(z: Zone, a: Authorization, value: string -> Digest, l: Luck) {
    && l.get
    && (a.valid || (Challenges(a, l) && exists fqdn: string, v: Digest :: RecordFor(a, value, fqdn, v) && Validates(z, fqdn, v, l)))
  }

  lemma {:induction false} RecordUnique(a: Authorization, value: string -> Digest, fqdn: string, v: Digest, fqdn': string, v': Digest)
    requires RecordFor(a, value, fqdn, v) && RecordFor(a, value, fqdn', v')
    ensures fqdn == fqdn' && v == v'
  {
  }

  lemma {:induction false} ChallengedIff(z: Zone, fqdn: string, value: Digest, l: Luck)
    ensures var (steps, y, ok) := Challenged(z, fqdn, value, l);
            && (ok <==> Validates(z, fqdn, value, l))
            && CallsMade(steps, z, fqdn, value, l)
  {
    PutUpIs(z, fqdn, value, l);
    TakeDownIff(PutUp(z, fqdn, value, l).0, fqdn, value, l);
    hide Values, PutUp, TakeDown, Copies, GoesDown;
    var (steps, y, ok) := Challenged(z, fqdn, value, l);
  }

  lemma {:induction false} AuthorizeIff(z: Zone, a: Authorization, value: string -> Digest, l: Luck)
    ensures var (steps, y, ok) := Authorize(z, a, value, l);
            && (ok <==> Granted(z, a, value, l))
            && Made(steps, z, a, value, l)
  {
    hide CallsMade, Validates, RecordFor, RecordName, Challenged, DnsChallenge;
    assert DnsChallenge(a.challenges).Some? <==> exists i | 0 <= i < |a.challenges| :: a.challenges[i].kind == "dns-01";
    if Challenges(a, l) {
      var fqdn, v := RecordName(a.name), value(DnsChallenge(a.challenges).value.token);
      RecordIs(a, value);
      ChallengedIff(z, fqdn, v, l);
      forall fqdn': string, v': Digest | RecordFor(a, value, fqdn', v') ensures fqdn' == fqdn && v' == v {
        RecordUnique(a, value, fqdn, v, fqdn', v');
      }
    }
  }

  // ----- The whole order -----

  /** The zone in which authorization j is worked on. */
  function ZoneAt(z: Zone, list: seq<Authorization>, value: string -> Digest, luck: nat -> Luck, i: nat, j: nat): Zone
    requires i <= j <= |list|
    decreases j - i
  {
    if i == j then z else ZoneAt(Authorize(z, list[i], value, luck(i)).1, list, value, luck, i + 1, j)
  }

  /** The log is that of the authorizations one after the other, up to the first not had. */
  ghost predicate Logged(steps: seq<Step>, z: Zone, list: seq<Authorization>, value: string -> Digest, luck: nat -> Luck, i: nat)
    requires i <= |list|
    decreases |list| - i
  {
    if i == |list| then steps == []
    else
      exists m: nat | m <= |steps| ::
        && Made(steps[..m], z, list[i], value, luck(i))
        && if Granted(z, list[i], value, luck(i)) then Logged(steps[m..], ZoneAt(z, list, value, luck, i, i + 1), list, value, luck, i + 1)
           else m == |steps|
  }

  /** An order succeeds exactly when each of its authorizations is had, and makes exactly the calls of
      those it works on. */
  lemma {:induction false} OrderIff(z: Zone, list: seq<Authorization>, value: string -> Digest, luck: nat -> Luck, i: nat)
    requires i <= |list|
    ensures var (steps, y, ok) := AuthorizeAll(z, list, value, luck, i);
            && (ok <==> forall j | i <= j < |list| :: Granted(ZoneAt(z, list, value, luck, i, j), list[j], value, luck(j)))
            && Logged(steps, z, list, value, luck, i)
    decreases |list| - i
  {
    hide Authorize, Made, Granted;
    if i < |list| {
      AuthorizeIff(z, list[i], value, luck(i));
      var (first, y, ok) := Authorize(z, list[i], value, luck(i));
      var (steps, x, all) := AuthorizeAll(z, list, value, luck, i);
      assert ZoneAt(z, list, value, luck, i, i) == z;
      assert ZoneAt(z, list, value, luck, i, i + 1) == y;
      if ok {
        OrderIff(y, list, value, luck, i + 1);
        var rest := AuthorizeAll(y, list, value, luck, i + 1).0;
        assert (first + rest)[..|first|] == first && (first + rest)[|first|..] == rest;
        assert forall j | i + 1 <= j < |list| :: ZoneAt(z, list, value, luck, i, j) == ZoneAt(y, list, value, luck, i + 1, j);
      } else {
        assert steps[..|steps|] == first;
      }
    }
  }
}
