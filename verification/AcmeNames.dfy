/** The names of a certificate request against those of its order. */
module AcmeNames {
  import Text

  function TrimDot(s: string): string {
    if s != "" && s[|s| - 1] == '.' then s[..|s| - 1] else s
  }

  function Key(s: string): string {
    Text.ToLower(TrimDot(s))
  }

  /** One letter in either case. */
  predicate SameLetter(a: char, b: char) {
    a == b || ('A' <= a <= 'Z' && b as int == a as int + 32) || ('A' <= b <= 'Z' && a as int == b as int + 32)
  }

  predicate SameText(a: string, b: string) {
    |a| == |b| && forall i | 0 <= i < |a| :: SameLetter(a[i], b[i])
  }

  /** The name without the final dot of the root. */
  predicate Bare(s: string, bare: string) {
    s == bare + "." || (s == bare && (s == "" || s[|s| - 1] != '.'))
  }

  /** Two names have one key exactly when they are the same up to case and a final dot. */
  lemma {:induction false} SameKeyIff(a: string, b: string)
    ensures Key(a) == Key(b) <==> exists x, y :: Bare(a, x) && Bare(b, y) && SameText(x, y)
  {
    var x, y := TrimDot(a), TrimDot(b);
    assert Bare(a, x) && Bare(b, y);
    BareOnce(a, x);
    BareOnce(b, y);
    if Key(a) == Key(b) {
      forall i | 0 <= i < |x| ensures SameLetter(x[i], y[i]) {
        assert Text.ToLower(x)[i] == Text.ToLower(y)[i];
      }
    }
    if SameText(x, y) {
      assert forall i | 0 <= i < |x| :: SameLetter(x[i], y[i]);
      assert Text.ToLower(x) == Text.ToLower(y);
    }
  }

  lemma {:induction false} BareOnce(s: string, bare: string)
    requires Bare(s, bare)
    ensures forall x | Bare(s, x) :: x == bare
  {
    forall x | Bare(s, x) ensures x == bare {
      assert s == x + "." ==> s[|s| - 1] == '.' && x == s[..|s| - 1];
      assert s == bare + "." ==> s[|s| - 1] == '.' && bare == s[..|s| - 1];
    }
  }

  function Keys(s: seq<string>): multiset<string> {
    if s == [] then multiset{} else Keys(s[..|s| - 1]) + multiset{Key(s[|s| - 1])}
  }

  lemma {:induction false} KeysStep(s: seq<string>, i: nat)
    requires i < |s|
    ensures Keys(s[..i + 1]) == Keys(s[..i]) + multiset{Key(s[i])}
  {
    assert s[..i + 1][..i] == s[..i];
  }

  lemma {:induction false} KeysGrow(s: seq<string>, i: nat)
    requires i <= |s|
    ensures Keys(s[..i]) <= Keys(s) && |Keys(s[..i])| == i
    decreases |s| - i
  {
    KeysSize(s[..i]);
    if i < |s| {
      KeysStep(s, i);
      KeysGrow(s, i + 1);
    } else {
      assert s[..i] == s;
    }
  }

  lemma {:induction false} KeysSize(s: seq<string>)
    ensures |Keys(s)| == |s|
    decreases |s|
  {
    if s != [] {
      KeysSize(s[..|s| - 1]);
    }
  }

  /** The request names the ordered domains, each as often, up to case and a final dot. */
  method SameNames(left: seq<string>, right: seq<string>) returns (same: bool)
    ensures same <==> Keys(left) == Keys(right)
  {
    hide Key, Keys;
    KeysSize(left);
    KeysSize(right);
    if |left| != |right| {
      return false;
    }
    var counts := Count(left);
    assert right[..0] == [];
    assert Keys(right[..0]) == multiset{} by { KeysEmpty(); }
    var i := 0;
    while i < |right|
      invariant 0 <= i <= |right|
      invariant counts + Keys(right[..i]) == Keys(left)
    {
      KeysStep(right, i);
      KeysGrow(right, i + 1);
      var key := Key(right[i]);
      if counts[key] == 0 {
        assert Keys(right[..i + 1])[key] == Keys(left)[key] + 1;
        return false;
      }
      counts := counts[key := counts[key] - 1];
      i := i + 1;
    }
    assert right[..i] == right;
    assert |counts| == 0;
    return true;
  }

  lemma {:induction false} KeysEmpty()
    ensures Keys([]) == multiset{}
  {
  }

  method Count(names: seq<string>) returns (counts: multiset<string>)
    ensures counts == Keys(names)
  {
    counts := multiset{};
    var i := 0;
    while i < |names|
      invariant 0 <= i <= |names|
      invariant counts == Keys(names[..i])
    {
      KeysStep(names, i);
      counts := counts[Key(names[i]) := counts[Key(names[i])] + 1];
      i := i + 1;
    }
    assert names[..i] == names;
  }
}
