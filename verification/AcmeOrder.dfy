/** Ordering a certificate by DNS validation (section 8.4 of RFC 8555): what every call of an order
    finds in the zone, and what an order leaves in it. */
module AcmeOrder {
  import opened Outcomes
  import opened DnsZone

  datatype Challenge = Challenge(kind: string, token: string)

  datatype Authorization = Authorization(valid: bool, name: string, challenges: seq<Challenge>)

  /** A digest of the token and the account key is never empty. */
  type Digest = s: string | s != "" witness "-"

  /** A call made for one authorization, and the zone when it returned. */
  datatype Call = Present(fqdn: string, value: Digest, ok: bool) | Wait | Accept | AwaitAuthorization | Cleanup(fqdn: string, value: Digest)

  datatype Step = Step(call: Call, zone: Zone)

  /** How the calls for one authorization fare: whether it and the record value can be had; the lookup
      and the write that put the record up; the waits; and the lookup and the deletions that take
      it down, one for each record found with the value. */
  datatype Luck = Luck(get: bool, digest: bool, read: Fate, write: Fate, wait: bool, accept: bool, authorize: bool,
                       find: Fate, deleteRead: nat -> Fate, deleteWrite: nat -> Fate)

  /** The first DNS challenge offered. */
  function DnsChallenge(s: seq<Challenge>): (r: Option<Challenge>)
    ensures r.None? <==> forall i | 0 <= i < |s| :: s[i].kind != "dns-01"
    ensures r.Some? ==> r.value in s && r.value.kind == "dns-01"
  {
    if s == [] then None else if s[0].kind == "dns-01" then Some(s[0]) else DnsChallenge(s[1..])
  }

  function RecordName(name: string): string {
    "_acme-challenge." + if |name| >= 2 && name[..2] == "*." then name[2..] else name
  }

  const TTL := 60

  function PutUp(z: Zone, fqdn: string, value: Digest, l: Luck): (Zone, bool) {
    var (y, wrote, ok) := Upsert(z, Record(fqdn, TXT, value, TTL), l.read, l.write);
    (y, ok)
  }

  /** Deletes the value once for each record found with it; `k` deletions were made before. */
  function DeleteFound(z: Zone, fqdn: string, value: Digest, found: Zone, k: nat, l: Luck): (Zone, bool)
    decreases |found|
  {
    if found == [] then (z, true)
    else if found[0].value != value then DeleteFound(z, fqdn, value, found[1..], k, l)
    else
      var (y, wrote, ok) := Delete(z, fqdn, TXT, value, l.deleteRead(k), l.deleteWrite(k));
      if !ok then (y, false) else DeleteFound(y, fqdn, value, found[1..], k + 1, l)
  }

  function TakeDown(z: Zone, fqdn: string, value: Digest, l: Luck): (Zone, bool) {
    var found := Lookup(z, fqdn, TXT, l.find);
    if found.None? then (z, false) else DeleteFound(z, fqdn, value, found.value, 0, l)
  }

  /** The calls between putting the record up and taking it down, up to the first that fails. */
  function Validation(z: Zone, l: Luck): (seq<Step>, bool) {
    if !l.wait then ([Step(Wait, z)], false)
    else if !l.accept then ([Step(Wait, z), Step(Accept, z)], false)
    else ([Step(Wait, z), Step(Accept, z), Step(AwaitAuthorization, z)], l.authorize)
  }

  /** The steps taken, the zone they leave, and whether all went well. */
  function Challenged(z: Zone, fqdn: string, value: Digest, l: Luck): (seq<Step>, Zone, bool) {
    var (y, up) := PutUp(z, fqdn, value, l);
    if !up then ([Step(Present(fqdn, value, false), y)], y, false)
    else
      var (steps, validated) := Validation(y, l);
      var (x, down) := TakeDown(y, fqdn, value, l);
      ([Step(Present(fqdn, value, true), y)] + steps + [Step(Cleanup(fqdn, value), x)], x, validated && down)
  }

  function Authorize(z: Zone, a: Authorization, value: string -> Digest, l: Luck): (seq<Step>, Zone, bool) {
    if !l.get then ([], z, false)
    else if a.valid then ([], z, true)
    else if DnsChallenge(a.challenges).None? || !l.digest then ([], z, false)
    else Challenged(z, RecordName(a.name), value(DnsChallenge(a.challenges).value.token), l)
  }

  function AuthorizeAll(z: Zone, list: seq<Authorization>, value: string -> Digest, luck: nat -> Luck, i: nat): (seq<Step>, Zone, bool)
    requires i <= |list|
    decreases |list| - i
  {
    if i == |list| then ([], z, true)
    else
      var (steps, y, ok) := Authorize(z, list[i], value, luck(i));
      if !ok then (steps, y, false)
      else
        var (rest, x, all) := AuthorizeAll(y, list, value, luck, i + 1);
        (steps + rest, x, all)
  }

  // ----- The order as the Panel works through it -----

  class Order {
    var zone: Zone
    var log: seq<Step>

    constructor (z: Zone)
      ensures zone == z && log == []
    {
      zone, log := z, [];
    }

    method DeleteTxtValue(fqdn: string, value: Digest, l: Luck) returns (ok: bool)
      modifies this`zone
      ensures (zone, ok) == TakeDown(old(zone), fqdn, value, l)
    {
      var found := Lookup(zone, fqdn, TXT, l.find);
      if found.None? {
        return false;
      }
      hide Delete;
      var k := 0;
      for i := 0 to |found.value|
        invariant DeleteFound(zone, fqdn, value, found.value[i..], k, l) == TakeDown(old(zone), fqdn, value, l)
      {
        assert found.value[i..][0] == found.value[i] && found.value[i..][1..] == found.value[i + 1..];
        if found.value[i].value == value {
          var (y, wrote, done) := Delete(zone, fqdn, TXT, value, l.deleteRead(k), l.deleteWrite(k));
          zone := y;
          if !done {
            return false;
          }
          k := k + 1;
        }
      }
      return true;
    }

    /** The deferred clean-up runs on every way out once the record is reported up. */
    method PresentAndAuthorize(fqdn: string, value: Digest, l: Luck) returns (ok: bool)
      modifies this
      ensures var (steps, z, done) := Challenged(old(zone), fqdn, value, l);
              log == old(log) + steps && zone == z && ok == done
    {
      hide DeleteFound, TakeDown, Upsert;
      var (y, up) := PutUp(zone, fqdn, value, l);
      zone := y;
      log := log + [Step(Present(fqdn, value, up), zone)];
      if !up {
        return false;
      }
      log := log + [Step(Wait, zone)];
      ok := l.wait;
      if ok {
        log := log + [Step(Accept, zone)];
        ok := l.accept;
      }
      if ok {
        log := log + [Step(AwaitAuthorization, zone)];
        ok := l.authorize;
      }
      var down := DeleteTxtValue(fqdn, value, l);
      log := log + [Step(Cleanup(fqdn, value), zone)];
      ok := ok && down;
    }

    method AuthorizeOne(a: Authorization, value: string -> Digest, l: Luck) returns (ok: bool)
      modifies this
      ensures var (steps, z, done) := Authorize(old(zone), a, value, l);
              log == old(log) + steps && zone == z && ok == done
    {
      hide DnsChallenge, RecordName, Challenged;
      assert log + [] == log;
      if !l.get {
        return false;
      }
      if a.valid {
        return true;
      }
      var challenge := DnsChallenge(a.challenges);
      if challenge.None? || !l.digest {
        return false;
      }
      ok := PresentAndAuthorize(RecordName(a.name), value(challenge.value.token), l);
    }

    method Run(list: seq<Authorization>, value: string -> Digest, luck: nat -> Luck) returns (ok: bool)
      modifies this
      ensures var (steps, z, done) := AuthorizeAll(old(zone), list, value, luck, 0);
              log == old(log) + steps && zone == z && ok == done
              && Disciplined(steps, Nothing) && (ok ==> Clean(zone, list, value))
    {
      EveryPresentCleaned(zone, list, value, luck, 0);
      OrderCleans(zone, list, value, luck);
      hide Authorize, Disciplined, Clean;
      ghost var all := AuthorizeAll(zone, list, value, luck, 0);
      assert log + all.0 == old(log) + all.0;
      for i := 0 to |list|
        invariant log + AuthorizeAll(zone, list, value, luck, i).0 == old(log) + all.0
        invariant AuthorizeAll(zone, list, value, luck, i).1 == all.1 && AuthorizeAll(zone, list, value, luck, i).2 == all.2
      {
        ghost var was := log;
        ghost var (steps, y, done) := Authorize(zone, list[i], value, luck(i));
        NextAuthorization(log, zone, list, value, luck, i);
        hide AuthorizeAll;
        ok := AuthorizeOne(list[i], value, luck(i));
        if !ok {
          return false;
        }
      }
      return true;
    }
  }

  lemma {:induction false} NextAuthorization(log: seq<Step>, z: Zone, list: seq<Authorization>, value: string -> Digest, luck: nat -> Luck, i: nat)
    requires i < |list|
    ensures var (steps, y, ok) := Authorize(z, list[i], value, luck(i));
            var all := AuthorizeAll(z, list, value, luck, i);
            if ok then
              && log + all.0 == (log + steps) + AuthorizeAll(y, list, value, luck, i + 1).0
              && all.1 == AuthorizeAll(y, list, value, luck, i + 1).1 && all.2 == AuthorizeAll(y, list, value, luck, i + 1).2
            else all == (steps, y, false)
  {
    hide Authorize;
  }

  // ----- What one challenge does to the zone -----

  function Texts(z: Zone, fqdn: string): set<string> {
    Values(z, fqdn, TXT)
  }

  /** The zones differ at most in whether they hold this text value. */
  ghost predicate SameBut(z: Zone, y: Zone, fqdn: string, value: string) {
    && Others(y, fqdn) == Others(z, fqdn)
    && (forall t: RecordType | t != TXT :: Values(y, fqdn, t) == Values(z, fqdn, t))
    && Texts(y, fqdn) - {value} == Texts(z, fqdn) - {value}
  }

  /** The first deletion reaches the zone: the later ones find nothing to delete. */
  predicate Removes(l: Luck) {
    l.find.Fine? && l.deleteRead(0).Fine? && !l.deleteWrite(0).Fails?
  }

  lemma {:induction false} DeleteFoundSpec(z: Zone, fqdn: string, value: Digest, found: Zone, k: nat, l: Luck)
    ensures var (y, ok) := DeleteFound(z, fqdn, value, found, k, l);
            && SameBut(z, y, fqdn, value)
            && (value !in Texts(z, fqdn) ==> value !in Texts(y, fqdn))
            && (value in Texts(z, fqdn) && value in RecordTexts(found) ==>
                  (value !in Texts(y, fqdn) <==> l.deleteRead(k).Fine? && !l.deleteWrite(k).Fails?) && (ok ==> value !in Texts(y, fqdn)))
    decreases |found|
  {
    hide Values, Others, Delete;
    if found != [] {
      if found[0].value != value {
        DeleteFoundSpec(z, fqdn, value, found[1..], k, l);
        assert value in RecordTexts(found) ==> value in RecordTexts(found[1..]) by {
          assert found == [found[0]] + found[1..];
        }
      } else {
        DeleteSpec(z, fqdn, TXT, value, l.deleteRead(k), l.deleteWrite(k));
        OneDelete(z, fqdn, value, l.deleteRead(k), l.deleteWrite(k));
        var y := Delete(z, fqdn, TXT, value, l.deleteRead(k), l.deleteWrite(k)).0;
        DeleteFoundSpec(y, fqdn, value, found[1..], k + 1, l);
      }
    }
  }

  function RecordTexts(found: Zone): set<string> {
    set r | r in found :: r.value
  }

  lemma {:induction false} OneDelete(z: Zone, fqdn: string, value: Digest, read: Fate, write: Fate)
    ensures value in Texts(z, fqdn) ==>
              (value !in Texts(Delete(z, fqdn, TXT, value, read, write).0, fqdn) <==> read.Fine? && !write.Fails?)
  {
    ValueThere(z, fqdn, TXT, value);
    DropValueSpec(z, fqdn, TXT, value);
    hide Values, Matching, Dropping, Others;
  }

  lemma {:induction false} TakeDownSpec(z: Zone, fqdn: string, value: Digest, l: Luck)
    ensures var (y, ok) := TakeDown(z, fqdn, value, l);
            && SameBut(z, y, fqdn, value)
            && (value in Texts(y, fqdn) <==> value in Texts(z, fqdn) && !Removes(l))
            && (ok ==> value !in Texts(y, fqdn))
  {
    var found := Matching(z, Match(fqdn, TXT, None));
    assert RecordTexts(found) == Texts(z, fqdn) by {
      forall v ensures v in RecordTexts(found) <==> v in Texts(z, fqdn) {
      }
    }
    DeleteFoundSpec(z, fqdn, value, found, 0, l);
    hide Values, Others, DeleteFound, Matching, RecordTexts;
  }

  lemma {:induction false} PutUpSpec(z: Zone, fqdn: string, value: Digest, l: Luck)
    ensures var (y, ok) := PutUp(z, fqdn, value, l);
            && SameBut(z, y, fqdn, value)
            && (value in Texts(y, fqdn) <==> value in Texts(z, fqdn) || (l.read.Fine? && !l.write.Fails?))
            && (ok <==> l.read.Fine? && (value in Texts(z, fqdn) || l.write.Fine?))
  {
    UpsertSpec(z, Record(fqdn, TXT, value, TTL), l.read, l.write);
    UpsertedValues(z, Record(fqdn, TXT, value, TTL));
    ValueThere(z, fqdn, TXT, value);
    hide Values, Others, Matching;
  }

  /** The value stays behind: it was put up although that was reported as a failure, so that it is
      not taken down; or it was put up, and taking it down did not reach the zone. */
  predicate Strands(l: Luck) {
    l.read.Fine? && (l.write.FailsLate? || (l.write.Fine? && !Removes(l)))
  }

  /** What is in the zone after a challenge, whichever calls failed. A value that was not there
      before is left behind exactly if it is stranded; one that was there is lost exactly if
      taking it down took effect. Nothing else in the zone changes. */
  lemma {:induction false} ChallengeSpec(z: Zone, fqdn: string, value: Digest, l: Luck)
    ensures var (steps, y, ok) := Challenged(z, fqdn, value, l);
            && SameBut(z, y, fqdn, value)
            && (value in Texts(y, fqdn) <==> if value in Texts(z, fqdn) then !(l.read.Fine? && Removes(l)) else Strands(l))
            && (ok ==> value !in Texts(y, fqdn))
  {
    PutUpSpec(z, fqdn, value, l);
    TakeDownSpec(PutUp(z, fqdn, value, l).0, fqdn, value, l);
    hide Values, Others, PutUp, TakeDown, Removes;
  }

  // ----- What every call finds -----

  /** The record an order has up, if any. */
  datatype Held = Nothing | Holding(fqdn: string, value: string)

  /** Steps in which a record reported up is there at every call until its one clean-up, which
      comes before the next record is put up and before the end. */
  ghost predicate Disciplined(s: seq<Step>, up: Held)
    decreases |s|
  {
    if s == [] then up.Nothing?
    else
      match s[0].call
      case Present(fqdn, value, ok) =>
        && up.Nothing? && (ok ==> value in Texts(s[0].zone, fqdn))
        && Disciplined(s[1..], if ok then Holding(fqdn, value) else Nothing)
      case Cleanup(fqdn, value) => up == Holding(fqdn, value) && Disciplined(s[1..], Nothing)
      case _ => up.Holding? && up.value in Texts(s[0].zone, up.fqdn) && Disciplined(s[1..], up)
  }

  lemma {:induction false} DisciplinedConcat(a: seq<Step>, b: seq<Step>, up: Held)
    requires Disciplined(a, up) && Disciplined(b, Nothing)
    ensures Disciplined(a + b, up)
    decreases |a|
  {
    hide Texts;
    if a == [] {
      assert a + b == b;
    } else {
      assert (a + b)[1..] == a[1..] + b;
      match a[0].call
      case Present(fqdn, value, ok) => DisciplinedConcat(a[1..], b, if ok then Holding(fqdn, value) else Nothing);
      case Cleanup(fqdn, value) => DisciplinedConcat(a[1..], b, Nothing);
      case _ => DisciplinedConcat(a[1..], b, up);
    }
  }

  lemma {:induction false} ChallengeDisciplined(z: Zone, fqdn: string, value: Digest, l: Luck)
    ensures Disciplined(Challenged(z, fqdn, value, l).0, Nothing)
  {
    PutUpSpec(z, fqdn, value, l);
    var (y, up) := PutUp(z, fqdn, value, l);
    hide Texts, PutUp, TakeDown;
    if up {
      var x := TakeDown(y, fqdn, value, l).0;
      var last := [Step(Cleanup(fqdn, value), x)];
      assert last[1..] == [];
      assert Disciplined(last, Holding(fqdn, value));
      var steps := Validation(y, l).0;
      HeldThroughout(steps, last, fqdn, value);
      var all := [Step(Present(fqdn, value, true), y)] + steps + last;
      assert all[1..] == steps + last;
    } else {
      var all := [Step(Present(fqdn, value, false), y)];
      assert all[1..] == [];
    }
  }

  lemma {:induction false} HeldThroughout(steps: seq<Step>, last: seq<Step>, fqdn: string, value: string)
    requires forall i | 0 <= i < |steps| :: !steps[i].call.Present? && !steps[i].call.Cleanup? && value in Texts(steps[i].zone, fqdn)
    requires Disciplined(last, Holding(fqdn, value))
    ensures Disciplined(steps + last, Holding(fqdn, value))
    decreases |steps|
  {
    hide Texts;
    if steps == [] {
      assert steps + last == last;
    } else {
      assert (steps + last)[1..] == steps[1..] + last;
      HeldThroughout(steps[1..], last, fqdn, value);
    }
  }

  /** Whichever calls of an order fail, the waiting, accepting and authorizing calls find the record
      in the zone, and every record reported up is taken down in one clean-up before the next. */
  lemma {:induction false} EveryPresentCleaned(z: Zone, list: seq<Authorization>, value: string -> Digest, luck: nat -> Luck, i: nat)
    requires i <= |list|
    ensures Disciplined(AuthorizeAll(z, list, value, luck, i).0, Nothing)
    decreases |list| - i
  {
    hide Challenged, DnsChallenge, RecordName;
    if i < |list| {
      var (steps, y, ok) := Authorize(z, list[i], value, luck(i));
      if DnsChallenge(list[i].challenges).Some? {
        ChallengeDisciplined(z, RecordName(list[i].name), value(DnsChallenge(list[i].challenges).value.token), luck(i));
      }
      assert Disciplined(steps, Nothing);
      if ok {
        EveryPresentCleaned(y, list, value, luck, i + 1);
        hide Disciplined, Authorize;
        DisciplinedConcat(steps, AuthorizeAll(y, list, value, luck, i + 1).0, Nothing);
      }
    }
  }

  // ----- What an order leaves in the zone -----

  /** The record with which this authorization is validated. */
  predicate Concerns(a: Authorization, value: string -> Digest, fqdn: string, v: string) {
    && !a.valid && DnsChallenge(a.challenges).Some?
    && fqdn == RecordName(a.name) && v == value(DnsChallenge(a.challenges).value.token)
  }

  lemma {:induction false} OtherNames(z: Zone, y: Zone, fqdn: string, n: string, t: RecordType)
    requires Others(z, fqdn) == Others(y, fqdn) && n != fqdn
    ensures Values(z, n, t) == Values(y, n, t)
  {
    OthersMembers(z, fqdn);
    OthersMembers(y, fqdn);
    hide Others;
    SameValues(z, y, n, t);
  }

  lemma {:induction false} OthersMembers(z: Zone, fqdn: string)
    ensures forall x :: x in Others(z, fqdn) <==> x in z && x.name != fqdn
    decreases |z|
  {
    if z != [] {
      OthersMembers(z[1..], fqdn);
    }
  }

  /** One authorization changes the zone in its own record only. */
  lemma {:induction false} AuthorizeSpec(z: Zone, a: Authorization, value: string -> Digest, l: Luck, n: string, t: RecordType, v: string)
    ensures var (steps, y, ok) := Authorize(z, a, value, l);
            && (!(t == TXT && Concerns(a, value, n, v)) ==> (v in Values(y, n, t) <==> v in Values(z, n, t)))
            && (t == TXT && Concerns(a, value, n, v) ==>
                  && (v !in Values(z, n, t) ==> (v in Values(y, n, t) <==> l.get && l.digest && Strands(l)))
                  && (ok ==> v !in Values(y, n, t)))
  {
    if !a.valid && DnsChallenge(a.challenges).Some? {
      var fqdn, w := RecordName(a.name), value(DnsChallenge(a.challenges).value.token);
      ChallengeSpec(z, fqdn, w, l);
      var y := Challenged(z, fqdn, w, l).1;
      hide Values, Others, Challenged, RecordName, DnsChallenge, Strands;
      if n != fqdn {
        OtherNames(z, y, fqdn, n, t);
      } else if t == TXT && v != w {
        assert v in Texts(z, fqdn) - {w} <==> v in Texts(z, fqdn);
        assert v in Texts(y, fqdn) - {w} <==> v in Texts(y, fqdn);
      }
    }
  }

  /** The authorization at which the order stops, if it does. */
  function StopsAt(z: Zone, list: seq<Authorization>, value: string -> Digest, luck: nat -> Luck, i: nat): (j: nat)
    requires i <= |list|
    ensures i <= j <= |list|
    decreases |list| - i
  {
    if i == |list| || !Authorize(z, list[i], value, luck(i)).2 then i
    else StopsAt(Authorize(z, list[i], value, luck(i)).1, list, value, luck, i + 1)
  }

  /** Every record of the zone after an order. One that no authorization concerns is as it was; one
      that was not there before is left behind exactly if the order stopped at an authorization it
      validates, and was stranded there; and after success none of the order's records is left. */
  lemma {:induction false} OrderLeaves(z: Zone, list: seq<Authorization>, value: string -> Digest, luck: nat -> Luck, i: nat,
                                       n: string, t: RecordType, v: string)
    requires i <= |list|
    ensures var (steps, y, ok) := AuthorizeAll(z, list, value, luck, i);
            var j := StopsAt(z, list, value, luck, i);
            && (ok <==> j == |list|)
            && ((forall k | i <= k < |list| :: !(t == TXT && Concerns(list[k], value, n, v))) ==> (v in Values(y, n, t) <==> v in Values(z, n, t)))
            && (t == TXT && v !in Values(z, n, t) ==>
                  (v in Values(y, n, t) <==>
                     j < |list| && Concerns(list[j], value, n, v) && luck(j).get && luck(j).digest && Strands(luck(j))))
            && (ok && t == TXT && (exists k | i <= k < |list| :: Concerns(list[k], value, n, v)) ==> v !in Values(y, n, t))
    decreases |list| - i
  {
    hide Values, Authorize, Concerns, Strands;
    if i < |list| {
      AuthorizeSpec(z, list[i], value, luck(i), n, t, v);
      var (steps, y, ok) := Authorize(z, list[i], value, luck(i));
      if ok {
        OrderLeaves(y, list, value, luck, i + 1, n, t, v);
      }
    }
  }

  /** None of the order's records is in the zone. */
  ghost predicate Clean(z: Zone, list: seq<Authorization>, value: string -> Digest) {
    forall n, v, k | 0 <= k < |list| && Concerns(list[k], value, n, v) :: v !in Texts(z, n)
  }

  lemma {:induction false} OrderCleans(z: Zone, list: seq<Authorization>, value: string -> Digest, luck: nat -> Luck)
    ensures AuthorizeAll(z, list, value, luck, 0).2 ==> Clean(AuthorizeAll(z, list, value, luck, 0).1, list, value)
  {
    hide AuthorizeAll, Concerns, Values, StopsAt;
    var (steps, y, ok) := AuthorizeAll(z, list, value, luck, 0);
    if ok {
      forall n, v, k | 0 <= k < |list| && Concerns(list[k], value, n, v) ensures v !in Texts(y, n) {
        OrderLeaves(z, list, value, luck, 0, n, TXT, v);
      }
    }
  }

  const PENDING := Authorization(false, "example.org", [Challenge("dns-01", "t")])

  /** A record whose write is reported as failed but took effect is never taken down. */
  lemma {:induction false} LateWriteStrands(value: string -> Digest, l: Luck)
    requires l.get && l.digest && l.read.Fine? && l.write.FailsLate?
    ensures var (steps, y, ok) := AuthorizeAll([], [PENDING], value, (i: nat) => l, 0);
            && !ok && value("t") in Texts(y, "_acme-challenge.example.org")
            && forall k | 0 <= k < |steps| :: !steps[k].call.Cleanup?
  {
    var n := "_acme-challenge.example.org";
    assert RecordName("example.org") == n by {
      assert "example.org"[..2] == "ex";
    }
    assert Texts([], n) == {};
    assert DnsChallenge(PENDING.challenges) == Some(Challenge("dns-01", "t"));
    hide DnsChallenge, RecordName, Values;
    PutUpSpec([], n, value("t"), l);
    hide PutUp;
    var (steps, y, ok) := Authorize([], PENDING, value, l);
    assert !ok && value("t") in Texts(y, n) && |steps| == 1 && steps[0].call.Present?;
    hide Authorize;
  }
}
