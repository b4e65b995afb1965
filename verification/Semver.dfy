/** Comparing versions as the upgrade check does, against section 11 of Semantic Versioning 2.0.0. */
module Semver {
  import opened Outcomes
  import Text

  datatype Version = Version(major: nat, minor: nat, patch: nat, pre: string, valid: bool)

  function CmpInt(a: int, b: int): int {
    if a < b then -1 else if a > b then 1 else 0
  }

  const MAX_INT := 9223372036854775807

  function Digits(s: string): Option<nat>
    decreases |s|
  {
    if s == "" then Some(0)
    else
      var front, c := Digits(s[..|s| - 1]), s[|s| - 1];
      if front.None? || !Text.IsDigit(c) then None else Some(front.value * 10 + (c as int - '0' as int))
  }

  /** An optionally signed decimal that fits a 64-bit integer. */
  function Atoi(s: string): Option<int> {
    if s == "" then None
    else
      var signed := s[0] == '-' || s[0] == '+';
      var body := if signed then s[1..] else s;
      if body == "" || Digits(body).None? then None
      else
        var v: int := Digits(body).value;
        var n := if s[0] == '-' then 0 - v else v;
        if -MAX_INT - 1 <= n <= MAX_INT then Some(n) else None
  }

  /** Byte order of strings. */
  function CmpText(a: string, b: string): int
    decreases |a|
  {
    if a == "" || b == "" then CmpInt(|a|, |b|)
    else if a[0] != b[0] then CmpInt(a[0] as int, b[0] as int)
    else CmpText(a[1..], b[1..])
  }

  function Split(s: string): (r: seq<string>)
    ensures r != []
    decreases |s|
  {
    if s == "" then [""]
    else
      var rest := Split(s[1..]);
      if s[0] == '.' then [""] + rest else [[s[0]] + rest[0]] + rest[1..]
  }

  /** Numeric identifiers come before the others. */
  function CmpPart(a: string, b: string): int {
    var m, n := Atoi(a), Atoi(b);
    if m.Some? && n.Some? then CmpInt(m.value, n.value)
    else if m.Some? then -1
    else if n.Some? then 1
    else CmpText(a, b)
  }

  function CmpParts(a: seq<string>, b: seq<string>): int
    decreases |a|
  {
    if a == [] || b == [] then CmpInt(|a|, |b|)
    else if CmpPart(a[0], b[0]) != 0 then CmpPart(a[0], b[0])
    else CmpParts(a[1..], b[1..])
  }

  // ----- What identifiers, characters and numerals mean -----

  function Dotted(parts: seq<string>): string
    requires parts != []
  {
    if |parts| == 1 then parts[0] else parts[0] + "." + Dotted(parts[1..])
  }

  /** The identifiers are the pieces between the dots. */
  lemma {:induction false} SplitIs(s: string)
    ensures Dotted(Split(s)) == s && forall i | 0 <= i < |Split(s)| :: '.' !in Split(s)[i]
    decreases |s|
  {
    if s != "" {
      SplitIs(s[1..]);
      var rest := Split(s[1..]);
      assert s == [s[0]] + s[1..];
      if s[0] == '.' {
        assert ([""] + rest)[1..] == rest;
      } else {
        var parts := [[s[0]] + rest[0]] + rest[1..];
        assert parts[1..] == rest[1..];
        assert Split(s) == parts;
        if |rest| > 1 {
          assert Dotted(parts) == [s[0]] + (rest[0] + "." + Dotted(rest[1..]));
        }
      }
    }
  }

  /** The first difference decides by its characters; without one the shorter text comes first. */
  lemma {:induction false} TextOrderIff(a: string, b: string)
    ensures CmpText(a, b) < 0 <==> a < b || exists k :: 0 <= k < |a| && k < |b| && a[..k] == b[..k] && a[k] < b[k]
    decreases |a|
  {
    if a != "" && b != "" && a[0] == b[0] {
      assert a == [a[0]] + a[1..] && b == [b[0]] + b[1..];
      TextOrderIff(a[1..], b[1..]);
      if k :| 0 <= k < |a[1..]| && k < |b[1..]| && a[1..][..k] == b[1..][..k] && a[1..][k] < b[1..][k] {
        assert a[..k + 1] == [a[0]] + a[1..][..k] && b[..k + 1] == [b[0]] + b[1..][..k];
        assert a[k + 1] < b[k + 1];
      }
      if k :| 0 <= k < |a| && k < |b| && a[..k] == b[..k] && a[k] < b[k] {
        assert a[1..][..k - 1] == a[..k][1..] && b[1..][..k - 1] == b[..k][1..];
        assert a[1..][k - 1] < b[1..][k - 1];
      }
    } else if a != "" && b != "" {
      assert a[..0] == b[..0];
      forall k | 0 < k <= |a| && k <= |b| ensures a[..k] != b[..k] {
        assert a[..k][0] == a[0] && b[..k][0] == b[0];
      }
    }
  }

  /** A numeral is made of digits, and read as the number it renders. */
  lemma {:induction false} NumeralIs(n: nat)
    ensures Digits(Text.DecimalNat(n)) == Some(n)
  {
    var s := Text.DecimalNat(n);
    if n < 10 {
      assert s[..0] == "" && Digits("") == Some(0);
      assert s[..|s| - 1] == "";
    } else {
      NumeralIs(n / 10);
      assert s[..|s| - 1] == Text.DecimalNat(n / 10);
    }
  }

  // ----- The order of section 11 -----

  /** A numeric identifier has digits only and no bound. */
  function Number(s: string): Option<nat> {
    if s == "" then None else Digits(s)
  }

  function SpecPart(a: string, b: string): int {
    var m, n := Number(a), Number(b);
    if m.Some? && n.Some? then CmpInt(m.value, n.value)
    else if m.Some? then -1
    else if n.Some? then 1
    else CmpText(a, b)
  }

  function SpecParts(a: seq<string>, b: seq<string>): int
    decreases |a|
  {
    if a == [] || b == [] then CmpInt(|a|, |b|)
    else if SpecPart(a[0], b[0]) != 0 then SpecPart(a[0], b[0])
    else SpecParts(a[1..], b[1..])
  }

  /** A word to section 11, a number to the code: a sign and a numeral. */
  predicate SignedNumeral(s: string) {
    Number(s).None? && Atoi(s).Some?
  }

  /** A number to section 11, a word to the code: a numeral above 64 bits. */
  predicate Oversized(s: string) {
    Number(s).Some? && Number(s).value > MAX_INT
  }

  predicate WellRead(parts: seq<string>) {
    forall i | 0 <= i < |parts| :: !SignedNumeral(parts[i]) && !Oversized(parts[i])
  }

  lemma {:induction false} AllDigits(s: string)
    requires Digits(s).Some?
    ensures forall i | 0 <= i < |s| :: Text.IsDigit(s[i])
    decreases |s|
  {
    if s != "" {
      AllDigits(s[..|s| - 1]);
      assert forall i | 0 <= i < |s| - 1 :: s[..|s| - 1][i] == s[i];
    }
  }

  /** An identifier is a sign and a numeral, oversized, a number to both, or a word to both. */
  lemma {:induction false} Kinds(s: string)
    ensures Number(s).Some? && !Oversized(s) ==> Atoi(s) == Some(Number(s).value)
    ensures Oversized(s) ==> Atoi(s).None?
    ensures SignedNumeral(s) ==> s[0] == '-' || s[0] == '+'
  {
    if s != "" && Digits(s).Some? {
      AllDigits(s);
      assert Text.IsDigit(s[0]);
    }
  }

  /** Exactly when the code orders two identifiers as section 11 does. Misreading one of the two
      does no harm if the right order is the one the misreading gives: a signed numeral is placed
      by its value, and before every word; an oversized one by its characters. */
  predicate ReadAlike(a: string, b: string) {
    if SignedNumeral(a) && SignedNumeral(b) then CmpInt(Atoi(a).value, Atoi(b).value) == CmpText(a, b)
    else if Oversized(a) && Oversized(b) then CmpText(a, b) == CmpInt(Number(a).value, Number(b).value)
    else if SignedNumeral(a) then !Oversized(b) && if Number(b).Some? then Number(b).value < Atoi(a).value else CmpText(a, b) < 0
    else if SignedNumeral(b) then !Oversized(a) && if Number(a).Some? then Number(a).value < Atoi(b).value else CmpText(b, a) < 0
    else if Oversized(a) then Number(b).Some? || CmpText(a, b) < 0
    else if Oversized(b) then Number(a).Some? || CmpText(b, a) < 0
    else true
  }

  lemma {:induction false} PartAgreesIff(a: string, b: string)
    ensures CmpPart(a, b) == SpecPart(a, b) <==> ReadAlike(a, b)
  {
    Kinds(a);
    Kinds(b);
    TextFlips(a, b);
    TextRange(a, b);
    hide Atoi, Digits, CmpText;
  }

  lemma {:induction false} TextRange(a: string, b: string)
    ensures CmpText(a, b) in {-1, 0, 1}
    decreases |a|
  {
    if a != "" && b != "" && a[0] == b[0] {
      TextRange(a[1..], b[1..]);
    }
  }

  /** Lists without a misread identifier are ordered as section 11 orders them. */
  lemma {:induction false} WellReadAgrees(a: seq<string>, b: seq<string>)
    ensures WellRead(a) && WellRead(b) ==> CmpParts(a, b) == SpecParts(a, b)
    decreases |a|
  {
    hide SignedNumeral, Oversized, CmpPart, SpecPart;
    if a != [] && b != [] && WellRead(a) && WellRead(b) {
      PartAgreesIff(a[0], b[0]);
      assert ReadAlike(a[0], b[0]);
      WellReadAgrees(a[1..], b[1..]);
    }
  }

  predicate Tied(a: seq<string>, b: seq<string>) {
    |a| == |b| && forall i | 0 <= i < |a| :: CmpPart(a[i], b[i]) == 0 && SpecPart(a[i], b[i]) == 0
  }

  lemma {:induction false} TiedSkips(p: seq<string>, q: seq<string>, a: seq<string>, b: seq<string>)
    requires Tied(p, q)
    ensures CmpParts(p + a, q + b) == CmpParts(a, b) && SpecParts(p + a, q + b) == SpecParts(a, b)
    decreases |p|
  {
    hide CmpPart, SpecPart;
    if p == [] {
      assert p + a == a && q + b == b;
    } else {
      assert (p + a)[1..] == p[1..] + a && (q + b)[1..] == q[1..] + b;
      TiedSkips(p[1..], q[1..], a, b);
    }
  }

  /** Whole lists, whatever is in them. Where one list continues the other, up to ties, both orders
      agree. Otherwise let a and b be the first pair that either order tells apart: if both do,
      they agree exactly when they read the pair alike; if one order ties it, exactly when that
      order's verdict on the rest is the other's verdict on the pair. */
  lemma {:induction false} ListsAgreeIff(p: seq<string>, q: seq<string>, a: string, b: string, x: seq<string>, y: seq<string>)
    requires Tied(p, q)
    ensures CmpParts(p, q + y) == SpecParts(p, q + y) && CmpParts(p + x, q) == SpecParts(p + x, q)
    ensures CmpPart(a, b) != 0 && SpecPart(a, b) != 0 ==>
              (CmpParts(p + [a] + x, q + [b] + y) == SpecParts(p + [a] + x, q + [b] + y) <==> ReadAlike(a, b))
    ensures CmpPart(a, b) == 0 && SpecPart(a, b) != 0 ==>
              (CmpParts(p + [a] + x, q + [b] + y) == SpecParts(p + [a] + x, q + [b] + y) <==> CmpParts(x, y) == SpecPart(a, b))
    ensures CmpPart(a, b) != 0 && SpecPart(a, b) == 0 ==>
              (CmpParts(p + [a] + x, q + [b] + y) == SpecParts(p + [a] + x, q + [b] + y) <==> SpecParts(x, y) == CmpPart(a, b))
  {
    assert p + [a] + x == p + ([a] + x) && q + [b] + y == q + ([b] + y) && p + [] == p && q + [] == q;
    TiedSkips(p, q, [a] + x, [b] + y);
    TiedSkips(p, q, [], y);
    TiedSkips(p, q, x, []);
    assert ([a] + x)[1..] == x && ([b] + y)[1..] == y;
    PartAgreesIff(a, b);
    hide CmpPart, SpecPart, ReadAlike;
  }

  method ComparePre(a: string, b: string) returns (c: int)
    ensures c == CmpParts(Split(a), Split(b))
    ensures WellRead(Split(a)) && WellRead(Split(b)) ==> c == SpecParts(Split(a), Split(b))
  {
    var left, right := Split(a), Split(b);
    WellReadAgrees(left, right);
    var n := if |right| < |left| then |right| else |left|;
    var i := 0;
    hide CmpPart, Split, SpecParts, WellRead;
    while i < n
      invariant 0 <= i <= n
      invariant CmpParts(left, right) == CmpParts(left[i..], right[i..])
    {
      assert left[i..][1..] == left[i + 1..] && right[i..][1..] == right[i + 1..];
      var part := CmpPart(left[i], right[i]);
      if part != 0 {
        return part;
      }
      i := i + 1;
    }
    c := CmpInt(|left|, |right|);
  }

  function Compare(a: Version, b: Version): int {
    if !a.valid && !b.valid then 0
    else if !a.valid then -1
    else if !b.valid then 1
    else if a.major != b.major then CmpInt(a.major, b.major)
    else if a.minor != b.minor then CmpInt(a.minor, b.minor)
    else if a.patch != b.patch then CmpInt(a.patch, b.patch)
    else if a.pre == "" && b.pre == "" then 0
    else if a.pre == "" then 1
    else if b.pre == "" then -1
    else CmpParts(Split(a.pre), Split(b.pre))
  }

  // ----- A total preorder -----

  lemma {:induction false} TextFlips(a: string, b: string)
    ensures CmpText(a, b) == -CmpText(b, a)
    ensures CmpText(a, b) == 0 <==> a == b
    decreases |a|
  {
    if a != "" && b != "" && a[0] == b[0] {
      TextFlips(a[1..], b[1..]);
      assert a == [a[0]] + a[1..] && b == [b[0]] + b[1..];
    }
  }

  lemma {:induction false} TextTransitive(a: string, b: string, c: string)
    requires CmpText(a, b) <= 0 && CmpText(b, c) <= 0
    ensures CmpText(a, c) <= 0
    ensures CmpText(a, c) == 0 ==> CmpText(a, b) == 0 && CmpText(b, c) == 0
    decreases |a|
  {
    if a != "" && b != "" && c != "" && a[0] == b[0] == c[0] {
      TextTransitive(a[1..], b[1..], c[1..]);
    }
  }

  lemma {:induction false} PartFlips(a: string, b: string)
    ensures CmpPart(a, b) == -CmpPart(b, a)
    ensures CmpPart(a, a) == 0
  {
    TextFlips(a, b);
    TextFlips(a, a);
    hide CmpText, Atoi;
  }

  lemma {:induction false} PartTransitive(a: string, b: string, c: string)
    requires CmpPart(a, b) <= 0 && CmpPart(b, c) <= 0
    ensures CmpPart(a, c) <= 0
    ensures CmpPart(a, c) == 0 ==> CmpPart(a, b) == 0 && CmpPart(b, c) == 0
  {
    if CmpText(a, b) <= 0 && CmpText(b, c) <= 0 {
      TextTransitive(a, b, c);
    }
    hide CmpText, Atoi;
  }

  lemma {:induction false} PartsFlip(a: seq<string>, b: seq<string>)
    ensures CmpParts(a, b) == -CmpParts(b, a)
    decreases |a|
  {
    hide CmpPart;
    if a != [] && b != [] {
      PartFlips(a[0], b[0]);
      PartsFlip(a[1..], b[1..]);
    }
  }

  lemma {:induction false} PartsTransitive(a: seq<string>, b: seq<string>, c: seq<string>)
    requires CmpParts(a, b) <= 0 && CmpParts(b, c) <= 0
    ensures CmpParts(a, c) <= 0
    ensures CmpParts(a, c) == 0 ==> CmpParts(a, b) == 0 && CmpParts(b, c) == 0
    decreases |a|
  {
    hide CmpPart;
    if a != [] && b != [] && c != [] {
      PartTransitive(a[0], b[0], c[0]);
      if CmpPart(a[0], b[0]) == 0 && CmpPart(b[0], c[0]) == 0 {
        PartEqual(a[0], b[0], c[0]);
        PartsTransitive(a[1..], b[1..], c[1..]);
      }
    }
  }

  lemma {:induction false} PartEqual(a: string, b: string, c: string)
    requires CmpPart(a, b) == 0 && CmpPart(b, c) == 0
    ensures CmpPart(a, c) == 0
  {
    PartTransitive(a, b, c);
    PartFlips(a, b);
    PartFlips(b, c);
    PartTransitive(c, b, a);
    PartFlips(a, c);
  }

  /** Comparison is a total preorder on every pair and triple of versions, invalid ones included:
      swapping the arguments flips the sign, and "not newer" is transitive, strictly if either
      step is. */
  lemma {:induction false} TotalPreorder(a: Version, b: Version, c: Version)
    ensures Compare(a, a) == 0
    ensures Compare(a, b) == -Compare(b, a)
    ensures Compare(a, b) <= 0 && Compare(b, c) <= 0 ==> Compare(a, c) <= 0
    ensures Compare(a, b) <= 0 && Compare(b, c) <= 0 && Compare(a, c) == 0 ==> Compare(a, b) == 0 && Compare(b, c) == 0
  {
    PartsFlip(Split(a.pre), Split(b.pre));
    PartsFlip(Split(a.pre), Split(a.pre));
    if CmpParts(Split(a.pre), Split(b.pre)) <= 0 && CmpParts(Split(b.pre), Split(c.pre)) <= 0 {
      PartsTransitive(Split(a.pre), Split(b.pre), Split(c.pre));
    }
    hide CmpParts, Split;
  }

  // ----- Precedence -----

  /** The order of section 11 of Semantic Versioning 2.0.0: the first differing identifier decides,
      digits by value and before words, words by their characters; if there is none, the longer
      list is newer. */
  lemma {:induction false} Precedence(p: seq<string>, a: string, b: string, x: seq<string>, y: seq<string>)
    ensures Number(a).Some? && Number(b).Some? && Number(a).value < Number(b).value ==> SpecParts(p + [a] + x, p + [b] + y) == -1
    ensures Number(a).Some? && Number(b).None? ==> SpecParts(p + [a] + x, p + [b] + y) == -1
    ensures Number(a).None? && Number(b).None? && CmpText(a, b) < 0 ==> SpecParts(p + [a] + x, p + [b] + y) < 0
    ensures SpecParts(p, p + [b] + y) == -1
  {
    assert p + [a] + x == p + ([a] + x) && p + [b] + y == p + ([b] + y) && p + [] == p;
    SelfTied(p);
    TiedSkips(p, p, [a] + x, [b] + y);
    TiedSkips(p, p, [], [b] + y);
    hide Number, CmpText, Tied;
  }

  lemma {:induction false} SelfTied(p: seq<string>)
    ensures Tied(p, p)
  {
    forall i | 0 <= i < |p| ensures CmpPart(p[i], p[i]) == 0 && SpecPart(p[i], p[i]) == 0 {
      TextFlips(p[i], p[i]);
    }
  }

  function Zeros(k: nat): string {
    if k == 0 then "" else Zeros(k - 1) + "0"
  }

  function Shifted(v: nat, k: nat): nat {
    if k == 0 then v else 10 * Shifted(v, k - 1)
  }

  lemma {:induction false} ZeroAppended(s: string)
    requires Digits(s).Some?
    ensures Digits(s + "0") == Some(10 * Digits(s).value)
  {
    var t := s + "0";
    assert t[..|t| - 1] == s && t[|t| - 1] == '0';
  }

  lemma {:induction false} Scaled(s: string, k: nat)
    requires Digits(s).Some?
    ensures Digits(s + Zeros(k)) == Some(Shifted(Digits(s).value, k))
  {
    hide Digits;
    if k == 0 {
      assert s + Zeros(k) == s;
    } else {
      Scaled(s, k - 1);
      ZeroAppended(s + Zeros(k - 1));
      assert s + Zeros(k) == (s + Zeros(k - 1)) + "0";
    }
  }

  lemma {:induction false} TwentyDigits()
    ensures Shifted(1, 19) == 10000000000000000000
    ensures Shifted(95, 17) == 9500000000000000000
  {
    assert Shifted(1, 3) == 1000;
    assert Shifted(1, 7) == 10000000;
    assert Shifted(1, 11) == 100000000000;
    assert Shifted(1, 15) == 1000000000000000;
    assert Shifted(95, 3) == 95000;
    assert Shifted(95, 7) == 950000000;
    assert Shifted(95, 11) == 9500000000000;
    assert Shifted(95, 15) == 95000000000000000;
  }

  lemma {:induction false} NoDot(s: string)
    requires '.' !in s
    ensures Split(s) == [s]
    decreases |s|
  {
    if s != "" {
      NoDot(s[1..]);
      assert [s[0]] + s[1..] == s;
    }
  }

  /** A signed numeral: the pre-release of 1.0.0--5 is taken for minus five, so the version comes
      before 1.0.0-1, which section 11 puts first. */
  lemma {:induction false} SignedMisplaced()
    ensures Compare(Version(1, 0, 0, "-5", true), Version(1, 0, 0, "1", true)) == -1
    ensures SpecParts(Split("-5"), Split("1")) == 1 && !ReadAlike("-5", "1")
  {
    assert "-5"[1..] == "5" && "5"[1..] == "" && "5"[..0] == "" && "1"[..0] == "" && "-5"[..1] == "-";
    NoDot("-5");
    NoDot("1");
    assert Digits("-") == None && Digits("-5") == None;
    assert Digits("5") == Some(5) && Digits("1") == Some(1);
    assert Atoi("-5") == Some(-5) && Atoi("1") == Some(1);
    assert CmpPart("-5", "1") == -1 && SpecPart("-5", "1") == 1;
  }

  lemma {:induction false} OnePart(a: string, b: string)
    ensures CmpParts([a], [b]) == CmpPart(a, b) && SpecParts([a], [b]) == SpecPart(a, b)
  {
    hide CmpPart, SpecPart;
    assert [a][1..] == [] && [b][1..] == [];
  }

  /** Numbers above 64 bits are placed by their characters. */
  lemma {:induction false} BothOversized(a: string, b: string)
    requires Oversized(a) && Oversized(b) && a[0] < b[0] && Number(a).value > Number(b).value
    ensures CmpParts([a], [b]) == -1 && SpecParts([a], [b]) == 1 && !ReadAlike(a, b)
  {
    Kinds(a);
    Kinds(b);
    OnePart(a, b);
    PartAgreesIff(a, b);
    hide Atoi, Digits, CmpParts, SpecParts, ReadAlike;
  }

  /** Oversized numerals: ten to the nineteenth is taken for a word and comes before the smaller
      number that starts with 95. */
  lemma {:induction false} OversizedMisplaced()
    ensures var a, b := "1" + Zeros(19), "95" + Zeros(17);
            CmpParts([a], [b]) == -1 && SpecParts([a], [b]) == 1 && !ReadAlike(a, b)
  {
    var a, b := "1" + Zeros(19), "95" + Zeros(17);
    SmallNumerals();
    hide Digits, Zeros, Shifted, Atoi, CmpParts, SpecParts, ReadAlike;
    Scaled("1", 19);
    Scaled("95", 17);
    TwentyDigits();
    assert a[0] == '1' && b[0] == '9';
    BothOversized(a, b);
  }

  lemma {:induction false} SmallNumerals()
    ensures Digits("1") == Some(1) && Digits("95") == Some(95)
  {
    assert "1"[..0] == "" && "95"[..1] == "9" && "9"[..0] == "";
    assert Digits("9") == Some(9);
  }

  lemma {:induction false} CoreDecides(a: Version, b: Version)
    requires a.valid && b.valid
    ensures a.major < b.major ==> Compare(a, b) == -1
    ensures a.major == b.major && a.minor < b.minor ==> Compare(a, b) == -1
    ensures a.major == b.major && a.minor == b.minor && a.patch < b.patch ==> Compare(a, b) == -1
    ensures a.(pre := b.pre) == b && a.pre != "" && b.pre == "" ==> Compare(a, b) == -1
  {
    hide CmpParts, Split;
  }
}
