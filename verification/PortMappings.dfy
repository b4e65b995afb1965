/** Normalizing a node's port mappings: the last row of each listen port decides. */
module PortMappings {
  import opened Fleet

  predicate Port(p: int) {
    1 <= p <= 65535
  }

  predicate Usable(m: PortMapping) {
    Port(m.listenPort) && Port(m.publicPort) && m.publicPort != m.listenPort
  }

  /** The last row that names a listen port at all. */
  function LastRow(s: seq<PortMapping>, port: int): (i: int)
    ensures -1 <= i < |s|
    ensures i >= 0 ==> s[i].listenPort == port
    ensures forall k | i < k < |s| :: s[k].listenPort != port
  {
    if s == [] then -1
    else if s[|s| - 1].listenPort == port then |s| - 1
    else LastRow(s[..|s| - 1], port)
  }

  function Without(ports: seq<int>, port: int): seq<int> {
    if ports == [] then [] else if ports[0] == port then ports[1..] else [ports[0]] + Without(ports[1..], port)
  }

  /** The listen ports kept, in the order in which their current mappings first appeared. */
  function Kept(s: seq<PortMapping>): seq<int> {
    if s == [] then []
    else
      var before, m := Kept(s[..|s| - 1]), s[|s| - 1];
      if !Port(m.listenPort) then before
      else if !Usable(m) then Without(before, m.listenPort)
      else if m.listenPort in before then before
      else before + [m.listenPort]
  }

  ghost predicate Distinct(ports: seq<int>) {
    forall i, j | 0 <= i < j < |ports| :: ports[i] != ports[j]
  }

  lemma {:induction false} WithoutSpec(ports: seq<int>, port: int)
    requires Distinct(ports)
    ensures Distinct(Without(ports, port))
    ensures forall p :: p in Without(ports, port) <==> p in ports && p != port
    decreases |ports|
  {
    if ports != [] {
      assert ports == [ports[0]] + ports[1..];
      WithoutSpec(ports[1..], port);
      var rest := Without(ports[1..], port);
      forall j | 0 <= j < |rest| && ports[0] != port ensures rest[j] != ports[0] {
        assert rest[j] in rest;
        var k :| 0 <= k < |ports[1..]| && ports[1..][k] == rest[j];
        assert ports[k + 1] == rest[j];
      }
    }
  }

  /** A port is kept exactly when its last row is usable. */
  lemma {:induction false} KeptSpec(s: seq<PortMapping>)
    ensures Distinct(Kept(s))
    ensures forall p :: p in Kept(s) <==> LastRow(s, p) >= 0 && Usable(s[LastRow(s, p)])
    decreases |s|
  {
    if s != [] {
      var front, m := s[..|s| - 1], s[|s| - 1];
      KeptSpec(front);
      WithoutSpec(Kept(front), m.listenPort);
      forall p ensures p in Kept(s) <==> LastRow(s, p) >= 0 && Usable(s[LastRow(s, p)]) {
        if p != m.listenPort {
          assert LastRow(s, p) == LastRow(front, p);
        } else if !Port(p) {
          assert LastRow(front, p) >= 0 ==> !Usable(front[LastRow(front, p)]);
        }
      }
    }
  }

  function Normalized(s: seq<PortMapping>): seq<PortMapping> {
    KeptSpec(s);
    seq(|Kept(s)|, i requires 0 <= i < |Kept(s)| => assert Kept(s)[i] in Kept(s); s[LastRow(s, Kept(s)[i])])
  }

  method Drop(ports: seq<int>, port: int) returns (r: seq<int>)
    ensures r == Without(ports, port)
  {
    var i := 0;
    while i < |ports|
      invariant 0 <= i <= |ports| && port !in ports[..i]
    {
      if ports[i] == port {
        FirstAt(ports, port, i);
        return ports[..i] + ports[i + 1..];
      }
      assert ports[..i + 1] == ports[..i] + [ports[i]];
      i := i + 1;
    }
    assert ports[..i] == ports;
    NotThere(ports, port);
    return ports;
  }

  lemma {:induction false} FirstAt(ports: seq<int>, port: int, i: nat)
    requires i < |ports| && ports[i] == port && port !in ports[..i]
    ensures Without(ports, port) == ports[..i] + ports[i + 1..]
    decreases i
  {
    if i > 0 {
      assert ports[0] in ports[..i];
      assert ports[1..][..i - 1] == ports[..i][1..];
      FirstAt(ports[1..], port, i - 1);
    }
  }

  lemma {:induction false} NotThere(ports: seq<int>, port: int)
    requires port !in ports
    ensures Without(ports, port) == ports
    decreases |ports|
  {
    if ports != [] {
      NotThere(ports[1..], port);
    }
  }

  /** The map holds the last row of each listed port, and no other port. */
  ghost predicate Tracked(rows: seq<PortMapping>, order: seq<int>, byListen: map<int, PortMapping>) {
    && (forall p :: p in byListen <==> p in order)
    && (forall p | p in order :: LastRow(rows, p) >= 0 && byListen[p] == rows[LastRow(rows, p)])
  }

  lemma {:induction false} TrackedSkip(rows: seq<PortMapping>, i: nat, order: seq<int>, byListen: map<int, PortMapping>)
    requires i < |rows| && order == Kept(rows[..i]) && Tracked(rows[..i], order, byListen) && !Port(rows[i].listenPort)
    ensures Kept(rows[..i + 1]) == order && Tracked(rows[..i + 1], order, byListen)
  {
    KeptSpec(rows[..i]);
    NextRow(rows, i);
    hide Kept, LastRow, Without;
  }

  lemma {:induction false} TrackedDrop(rows: seq<PortMapping>, i: nat, order: seq<int>, byListen: map<int, PortMapping>)
    requires i < |rows| && order == Kept(rows[..i]) && Tracked(rows[..i], order, byListen)
    requires Port(rows[i].listenPort) && !Usable(rows[i])
    ensures var p := rows[i].listenPort;
            && Kept(rows[..i + 1]) == Without(order, p)
            && Tracked(rows[..i + 1], Without(order, p), byListen - {p})
            && (p !in byListen ==> byListen - {p} == byListen)
  {
    KeptSpec(rows[..i]);
    NextRow(rows, i);
    WithoutSpec(order, rows[i].listenPort);
    hide Kept, LastRow, Without, Usable, Distinct;
    var p, fewer := rows[i].listenPort, Without(order, rows[i].listenPort);
    assert Kept(rows[..i + 1]) == fewer;
    forall q | q in fewer ensures LastRow(rows[..i + 1], q) == LastRow(rows[..i], q) && q in order && q != p {
    }
  }

  lemma {:induction false} TrackedPut(rows: seq<PortMapping>, i: nat, order: seq<int>, byListen: map<int, PortMapping>)
    requires i < |rows| && order == Kept(rows[..i]) && Tracked(rows[..i], order, byListen) && Usable(rows[i])
    ensures var m := rows[i];
            var more := if m.listenPort in byListen then order else order + [m.listenPort];
            Kept(rows[..i + 1]) == more && Tracked(rows[..i + 1], more, byListen[m.listenPort := m])
  {
    var m := rows[i];
    KeptSpec(rows[..i]);
    NextRow(rows, i);
    hide Kept, LastRow, Without;
    assert m.listenPort in byListen <==> m.listenPort in order;
  }

  lemma {:induction false} TrackedHas(rows: seq<PortMapping>, order: seq<int>, byListen: map<int, PortMapping>, p: int)
    requires Tracked(rows, order, byListen) && p in order
    ensures p in byListen && LastRow(rows, p) >= 0 && byListen[p] == rows[LastRow(rows, p)]
  {
    assert p in byListen;
    hide LastRow;
  }

  method NormalizePortMappings(rows: seq<PortMapping>) returns (out: seq<PortMapping>)
    ensures out == Normalized(rows)
  {
    var order: seq<int>, byListen: map<int, PortMapping> := [], map[];
    var i := 0;
    assert Kept(rows[..0]) == [];
    hide Kept, LastRow, Without;
    while i < |rows|
      invariant 0 <= i <= |rows|
      invariant order == Kept(rows[..i])
      invariant Tracked(rows[..i], order, byListen)
    {
      var m := rows[i];
      if !Port(m.listenPort) {
        TrackedSkip(rows, i, order, byListen);
      } else if !Port(m.publicPort) || m.publicPort == m.listenPort {
        TrackedDrop(rows, i, order, byListen);
        hide Tracked;
        if m.listenPort in byListen {
          byListen := byListen - {m.listenPort};
        }
        order := Drop(order, m.listenPort);
      } else {
        TrackedPut(rows, i, order, byListen);
        hide Tracked;
        if m.listenPort !in byListen {
          order := order + [m.listenPort];
        }
        byListen := byListen[m.listenPort := PortMapping(m.listenPort, m.publicPort)];
      }
      i := i + 1;
    }
    assert rows[..i] == rows;
    out := Collect(rows, order, byListen);
  }

  method Collect(rows: seq<PortMapping>, order: seq<int>, byListen: map<int, PortMapping>) returns (out: seq<PortMapping>)
    requires order == Kept(rows)
    requires Tracked(rows, order, byListen)
    ensures out == Normalized(rows)
  {
    hide Kept, LastRow;
    forall k | 0 <= k < |order| ensures order[k] in byListen && byListen[order[k]] == rows[LastRow(rows, order[k])] {
      TrackedHas(rows, order, byListen, order[k]);
    }
    out := [];
    for j := 0 to |order|
      invariant |out| == j
      invariant forall k | 0 <= k < j :: out[k] == byListen[order[k]]
    {
      out := out + [byListen[order[j]]];
    }
    forall k | 0 <= k < |order| ensures out[k] == Normalized(rows)[k] {
      assert order[k] in order;
    }
  }

  lemma {:induction false} NextRow(rows: seq<PortMapping>, i: nat)
    requires i < |rows|
    ensures var m := rows[i];
            && Kept(rows[..i + 1]) == (if !Port(m.listenPort) then Kept(rows[..i])
                                       else if !Usable(m) then Without(Kept(rows[..i]), m.listenPort)
                                       else if m.listenPort in Kept(rows[..i]) then Kept(rows[..i])
                                       else Kept(rows[..i]) + [m.listenPort])
            && (forall p :: LastRow(rows[..i + 1], p) == if p == m.listenPort then i else LastRow(rows[..i], p))
  {
    var s := rows[..i + 1];
    assert s[..|s| - 1] == rows[..i] && s[|s| - 1] == rows[i];
    forall p ensures LastRow(s, p) == if p == rows[i].listenPort then i else LastRow(rows[..i], p) {
    }
  }

  /** The result holds, for every listen port, the row given last if it is usable and nothing
      otherwise, each port once. */
  lemma {:induction false} NormalizedSpec(s: seq<PortMapping>)
    ensures var r := Normalized(s);
            && (forall i, j | 0 <= i < j < |r| :: r[i].listenPort != r[j].listenPort)
            && (forall m :: m in r <==> LastRow(s, m.listenPort) >= 0 && s[LastRow(s, m.listenPort)] == m && Usable(m))
  {
    KeptSpec(s);
    var r := Normalized(s);
    forall i | 0 <= i < |r| ensures r[i].listenPort == Kept(s)[i] && Usable(r[i]) {
      assert Kept(s)[i] in Kept(s);
    }
    hide LastRow, Kept;
    forall m ensures m in r <==> LastRow(s, m.listenPort) >= 0 && s[LastRow(s, m.listenPort)] == m && Usable(m) {
      if LastRow(s, m.listenPort) >= 0 && s[LastRow(s, m.listenPort)] == m && Usable(m) {
        var i :| 0 <= i < |Kept(s)| && Kept(s)[i] == m.listenPort;
        assert r[i] == m;
      }
    }
  }

  /** The same on the rows: a row is kept exactly if both its ports are ports, they differ, and no
      later row is for its listen port. */
  lemma {:induction false} NormalizedRows(s: seq<PortMapping>)
    ensures forall m :: m in Normalized(s) <==>
              && 1 <= m.listenPort <= 65535 && 1 <= m.publicPort <= 65535 && m.publicPort != m.listenPort
              && exists k | 0 <= k < |s| :: s[k] == m && forall j | k < j < |s| :: s[j].listenPort != m.listenPort
  {
    NormalizedSpec(s);
    hide Normalized;
    forall m, k | 0 <= k < |s| && s[k] == m && forall j | k < j < |s| :: s[j].listenPort != m.listenPort
      ensures LastRow(s, m.listenPort) == k
    {
      assert s[k].listenPort == m.listenPort;
    }
  }

  lemma {:induction false} KeptClean(s: seq<PortMapping>)
    requires (forall i | 0 <= i < |s| :: Usable(s[i])) && forall i, j | 0 <= i < j < |s| :: s[i].listenPort != s[j].listenPort
    ensures |Kept(s)| == |s| && forall i | 0 <= i < |s| :: Kept(s)[i] == s[i].listenPort
    decreases |s|
  {
    if s != [] {
      var front := s[..|s| - 1];
      KeptClean(front);
    }
  }

  /** Normalizing again changes nothing. */
  lemma {:induction false} NormalizeIdempotent(s: seq<PortMapping>)
    ensures Normalized(Normalized(s)) == Normalized(s)
  {
    var r := Normalized(s);
    NormalizedSpec(s);
    forall i | 0 <= i < |r| ensures Usable(r[i]) {
      assert r[i] in r;
    }
    hide Normalized;
    CleanFixed(r);
  }

  lemma {:induction false} CleanFixed(r: seq<PortMapping>)
    requires (forall i | 0 <= i < |r| :: Usable(r[i])) && forall i, j | 0 <= i < j < |r| :: r[i].listenPort != r[j].listenPort
    ensures Normalized(r) == r
  {
    KeptClean(r);
    hide Kept, LastRow;
    forall i | 0 <= i < |r| ensures LastRow(r, r[i].listenPort) == i {
      var k := LastRow(r, r[i].listenPort);
      assert k >= i;
    }
  }

  /** Looking a port up in the normalized rows answers by the last row that names it. */
  lemma {:induction false} LookupByLastRow(s: seq<PortMapping>, port: int)
    ensures MapPublicPort(Normalized(s), port)
            == if LastRow(s, port) >= 0 && Usable(s[LastRow(s, port)]) then s[LastRow(s, port)].publicPort else port
  {
    NormalizedSpec(s);
    var r := Normalized(s);
    hide Normalized, LastRow;
    FirstMatch(r, port);
    if LastRow(s, port) >= 0 && Usable(s[LastRow(s, port)]) {
      var m := s[LastRow(s, port)];
      assert m in r;
    }
  }

  lemma {:induction false} FirstMatch(r: seq<PortMapping>, port: int)
    requires forall i, j | 0 <= i < j < |r| :: r[i].listenPort != r[j].listenPort
    requires forall m | m in r :: Usable(m)
    ensures forall m | m in r && m.listenPort == port :: MapPublicPort(r, port) == m.publicPort
    ensures (forall m | m in r :: m.listenPort != port) ==> MapPublicPort(r, port) == port
    decreases |r|
  {
    if r != [] {
      assert r == [r[0]] + r[1..];
      assert r[0] in r;
      FirstMatch(r[1..], port);
    }
  }
}
