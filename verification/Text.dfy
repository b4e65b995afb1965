/** Success/failure values shared by every component of the model. */
module Outcomes {

  datatype Option<+T> = None | Some(value: T)

  datatype Result<+T, +E> = Ok(value: T) | Err(error: E)
}

/** The ASCII string operations the control plane applies to identifiers. */
module Text {

  predicate IsSpace(c: char) {
    c == ' ' || '\t' <= c <= '\r'
  }

  function TrimLeft(s: string): string {
    if s != "" && IsSpace(s[0]) then TrimLeft(s[1..]) else s
  }

  function TrimRight(s: string): string {
    if s != "" && IsSpace(s[|s| - 1]) then TrimRight(s[..|s| - 1]) else s
  }

  function TrimSpace(s: string): string {
    TrimRight(TrimLeft(s))
  }

  function LowerChar(c: char): char {
    if 'A' <= c <= 'Z' then c + 32 as char else c
  }

  function ToLower(s: string): string {
    seq(|s|, i requires 0 <= i < |s| => LowerChar(s[i]))
  }

  function Prefix(s: string, n: nat): string {
    if |s| > n then s[..n] else s
  }

  function Without(s: string, drop: char): string {
    if s == "" then "" else (if s[0] == drop then "" else [s[0]]) + Without(s[1..], drop)
  }

  predicate IsDigit(c: char) {
    '0' <= c <= '9'
  }

  function DecimalNat(n: nat): (r: string)
    ensures r != "" && forall i | 0 <= i < |r| :: IsDigit(r[i])
  {
    if n < 10 then [('0' as int + n) as char] else DecimalNat(n / 10) + [('0' as int + n % 10) as char]
  }

  /** The rendering `%d` produces. */
  function Decimal(n: int): string {
    if n < 0 then "-" + DecimalNat(-n) else DecimalNat(n)
  }

  lemma {:induction false} DecimalNatInjective(a: nat, b: nat)
    requires DecimalNat(a) == DecimalNat(b)
    ensures a == b
  {
    var ra, rb := DecimalNat(a), DecimalNat(b);
    assert ra[|ra| - 1] == rb[|rb| - 1];
    assert a % 10 == b % 10;
    if a >= 10 && b >= 10 {
      assert ra[..|ra| - 1] == DecimalNat(a / 10);
      assert rb[..|rb| - 1] == DecimalNat(b / 10);
      DecimalNatInjective(a / 10, b / 10);
    }
  }

  lemma {:induction false} DecimalInjective(a: int, b: int)
    requires Decimal(a) == Decimal(b)
    ensures a == b
  {
    assert Decimal(a)[0] == '-' <==> a < 0;
    assert Decimal(b)[0] == '-' <==> b < 0;
    if a < 0 && b < 0 {
      assert Decimal(a)[1..] == DecimalNat(-a) && Decimal(b)[1..] == DecimalNat(-b);
      DecimalNatInjective(-a, -b);
    } else if a >= 0 && b >= 0 {
      DecimalNatInjective(a, b);
    }
  }

  lemma {:induction false} DecimalHasNoColon(n: int)
    ensures forall i | 0 <= i < |Decimal(n)| :: Decimal(n)[i] != ':'
  {
  }

  /** Two keys of the form `left:number` agree only when both parts agree,
      whatever colons the left part holds. */
  lemma {:induction false} NumberedKeyInjective(a: string, m: int, b: string, n: int)
    requires a + ":" + Decimal(m) == b + ":" + Decimal(n)
    ensures a == b && m == n
  {
    var x, y := a + ":" + Decimal(m), b + ":" + Decimal(n);
    DecimalHasNoColon(m);
    DecimalHasNoColon(n);
    assert x[|a|] == ':' && y[|b|] == ':';
    assert forall i | |a| < i < |x| :: x[i] == Decimal(m)[i - |a| - 1];
    assert forall i | |b| < i < |y| :: y[i] == Decimal(n)[i - |b| - 1];
    assert |a| == |b|;
    assert x[..|a|] == a && y[..|b|] == b;
    assert x[|a| + 1..] == Decimal(m) && y[|b| + 1..] == Decimal(n);
    DecimalInjective(m, n);
  }

  lemma {:induction false} TrimSpaceIdentity(s: string)
    requires s != "" && !IsSpace(s[0]) && !IsSpace(s[|s| - 1])
    ensures TrimSpace(s) == s
  {
  }
}
