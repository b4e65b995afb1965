/** Storing proxy chains: what is accepted, and that a (node, inbound) pair is owned once. */
module ChainStore {
  import opened Fleet
  import Text

  datatype Row = Row(position: int, nodeId: string, inboundId: string, dialAddress: string, dialPort: int)

  /** Nodes by id, inbounds with their enabled flag, standalone attachments and chains. */
  datatype Shelf = Shelf(nodes: set<string>, inbounds: map<string, bool>, attached: set<(string, string)>, chains: seq<Chain>)

  predicate GoodRow(h: Row) {
    h.nodeId != "" && h.inboundId != "" && 0 <= h.dialPort <= 65535
  }

  ghost predicate Acceptable(hops: seq<Row>) {
    && 2 <= |hops| <= 8
    && (forall i | 0 <= i < |hops| :: GoodRow(hops[i]))
    && (forall i, j | 0 <= i < j < |hops| :: hops[i].nodeId != hops[j].nodeId)
  }

  function Placed(h: Row, i: nat): Row {
    h.(position := i, dialAddress := Text.TrimSpace(h.dialAddress))
  }

  /** Checks the hops in order, numbering and trimming each in place before it is checked. */
  method ValidateHops(hops: array<Row>) returns (ok: bool)
    modifies hops
    ensures ok <==> Acceptable(old(hops[..]))
    ensures ok ==> forall i | 0 <= i < hops.Length :: hops[i] == Placed(old(hops[i]), i)
    ensures forall i | 0 <= i < hops.Length :: hops[i] == old(hops[i]) || hops[i] == Placed(old(hops[i]), i)
  {
    if hops.Length < 2 || hops.Length > 8 {
      return false;
    }
    ghost var was := hops[..];
    var seen: set<string> := {};
    var i := 0;
    while i < hops.Length
      invariant 0 <= i <= hops.Length == |was|
      invariant forall k | 0 <= k < hops.Length :: hops[k] == if k < i then Placed(was[k], k) else was[k]
      invariant GoodPrefix(was, i)
      invariant forall k | 0 <= k < i :: was[k].nodeId in seen
      invariant forall s | s in seen :: exists k | 0 <= k < i :: was[k].nodeId == s
    {
      PlacedKeeps(was[i], i);
      hide Placed, GoodPrefix;
      hops[i] := Placed(hops[i], i);
      if hops[i].nodeId == "" || hops[i].inboundId == "" {
        BadRow(was, i);
        return false;
      }
      if hops[i].nodeId in seen {
        Repeated(was, i);
        return false;
      }
      if hops[i].dialPort < 0 || hops[i].dialPort > 65535 {
        BadRow(was, i);
        return false;
      }
      seen := seen + {hops[i].nodeId};
      LongerPrefix(was, i);
      i := i + 1;
    }
    return true;
  }

  ghost predicate GoodPrefix(hops: seq<Row>, n: nat) {
    && n <= |hops|
    && (forall k | 0 <= k < n :: GoodRow(hops[k]))
    && (forall j, k | 0 <= j < k < n :: hops[j].nodeId != hops[k].nodeId)
  }

  lemma {:induction false} BadRow(hops: seq<Row>, i: nat)
    requires i < |hops| && !GoodRow(hops[i])
    ensures !Acceptable(hops)
  {
  }

  lemma {:induction false} Repeated(hops: seq<Row>, i: nat)
    requires i < |hops| && exists k | 0 <= k < i :: hops[k].nodeId == hops[i].nodeId
    ensures !Acceptable(hops)
  {
  }

  lemma {:induction false} LongerPrefix(hops: seq<Row>, i: nat)
    requires GoodPrefix(hops, i) && i < |hops| && GoodRow(hops[i])
    requires forall k | 0 <= k < i :: hops[k].nodeId != hops[i].nodeId
    ensures GoodPrefix(hops, i + 1)
  {
  }

  lemma {:induction false} PlacedKeeps(h: Row, i: nat)
    ensures Placed(h, i).nodeId == h.nodeId && Placed(h, i).inboundId == h.inboundId && Placed(h, i).dialPort == h.dialPort
  {
  }

  // ----- Operations on the tables -----

  function Pair(h: Hop): (string, string) {
    (h.nodeId, h.inboundId)
  }

  predicate Owns(c: Chain, p: (string, string)) {
    exists i | 0 <= i < |c.hops| :: Pair(c.hops[i]) == p
  }

  predicate HopFree(s: Shelf, chainId: string, h: Hop) {
    && h.nodeId in s.nodes
    && h.inboundId in s.inbounds && s.inbounds[h.inboundId]
    && Pair(h) !in s.attached
    && forall x | 0 <= x < |s.chains| && s.chains[x].id != chainId :: !Owns(s.chains[x], Pair(h))
  }

  predicate HopsFree(s: Shelf, c: Chain) {
    forall i | 0 <= i < |c.hops| :: HopFree(s, c.id, c.hops[i])
  }

  predicate HasChain(s: Shelf, id: string) {
    exists x | 0 <= x < |s.chains| :: s.chains[x].id == id
  }

  function Replaced(chains: seq<Chain>, c: Chain): seq<Chain> {
    seq(|chains|, x requires 0 <= x < |chains| => if chains[x].id == c.id then c else chains[x])
  }

  function RowOf(chains: seq<Chain>, id: string): (x: nat)
    ensures x <= |chains|
    ensures x < |chains| ==> chains[x].id == id
  {
    if chains == [] || chains[0].id == id then 0 else 1 + RowOf(chains[1..], id)
  }

  function Removed(chains: seq<Chain>, id: string): seq<Chain> {
    var x := RowOf(chains, id);
    if x == |chains| then chains else chains[..x] + chains[x + 1..]
  }

  function Create(s: Shelf, c: Chain): (Shelf, bool) {
    if ValidChain(c) && HopsFree(s, c) && !HasChain(s, c.id) then (s.(chains := s.chains + [c.(enabled := false)]), true)
    else (s, false)
  }

  function Update(s: Shelf, c: Chain): (Shelf, bool) {
    if ValidChain(c) && HasChain(s, c.id) && HopsFree(s, c) then (s.(chains := Replaced(s.chains, c)), true) else (s, false)
  }

  predicate IsEnabled(s: Shelf, id: string) {
    exists x | 0 <= x < |s.chains| :: s.chains[x].id == id && s.chains[x].enabled
  }

  function DeleteChain(s: Shelf, id: string): (Shelf, bool) {
    if !HasChain(s, id) || IsEnabled(s, id) then (s, false) else (s.(chains := Removed(s.chains, id)), true)
  }

  predicate Attachable(s: Shelf, nodeId: string, inboundId: string) {
    inboundId in s.inbounds && forall x | 0 <= x < |s.chains| :: !Owns(s.chains[x], (nodeId, inboundId))
  }

  /** Replaces a node's standalone inbounds, all or none. */
  function Attach(s: Shelf, nodeId: string, inboundIds: set<string>): (Shelf, bool) {
    if nodeId in s.nodes && forall b | b in inboundIds :: Attachable(s, nodeId, b) then
      (s.(attached := (set p | p in s.attached && p.0 != nodeId) + (set b | b in inboundIds :: (nodeId, b))), true)
    else (s, false)
  }

  // ----- What each operation does, on the rows -----

  /** Every hop of the chain is on a known node and an enabled inbound that is neither one of the
      node's own nor a hop of another chain. */
  ghost predicate Placeable(s: Shelf, c: Chain) {
    forall i | 0 <= i < |c.hops| ::
      var h := c.hops[i];
      && h.nodeId in s.nodes && h.inboundId in s.inbounds && s.inbounds[h.inboundId]
      && (h.nodeId, h.inboundId) !in s.attached
      && forall x, j | 0 <= x < |s.chains| && s.chains[x].id != c.id && 0 <= j < |s.chains[x].hops| ::
           s.chains[x].hops[j].nodeId != h.nodeId || s.chains[x].hops[j].inboundId != h.inboundId
  }

  lemma {:induction false} PlaceableIff(s: Shelf, c: Chain)
    ensures Placeable(s, c) <==> HopsFree(s, c)
  {
    if HopsFree(s, c) {
      forall i | 0 <= i < |c.hops| ensures HopFree(s, c.id, c.hops[i]) {
      }
      forall i, x, j | 0 <= i < |c.hops| && 0 <= x < |s.chains| && s.chains[x].id != c.id && 0 <= j < |s.chains[x].hops|
        ensures s.chains[x].hops[j].nodeId != c.hops[i].nodeId || s.chains[x].hops[j].inboundId != c.hops[i].inboundId
      {
        assert !Owns(s.chains[x], Pair(c.hops[i]));
        assert Pair(s.chains[x].hops[j]) != Pair(c.hops[i]);
      }
    }
  }

  /** A chain is stored, switched off, exactly if it is well formed, new, and its hops are free. */
  lemma {:induction false} CreateSpec(s: Shelf, c: Chain)
    ensures var (t, ok) := Create(s, c);
            && (ok <==> ValidChain(c) && (forall x | 0 <= x < |s.chains| :: s.chains[x].id != c.id) && Placeable(s, c))
            && t == s.(chains := if ok then s.chains + [c.(enabled := false)] else s.chains)
  {
    PlaceableIff(s, c);
    hide HopsFree, ValidChain, Placeable;
  }

  /** A stored chain is replaced, and no other, exactly if the new one is well formed and its hops
      are free of all chains but the one replaced. */
  lemma {:induction false} UpdateSpec(s: Shelf, c: Chain)
    ensures var (t, ok) := Update(s, c);
            && (ok <==> ValidChain(c) && (exists x | 0 <= x < |s.chains| :: s.chains[x].id == c.id) && Placeable(s, c))
            && (!ok ==> t == s)
            && t == s.(chains := t.chains) && |t.chains| == |s.chains|
            && (ok ==> forall x | 0 <= x < |s.chains| :: t.chains[x] == if s.chains[x].id == c.id then c else s.chains[x])
  {
    PlaceableIff(s, c);
    hide HopsFree, ValidChain, Placeable;
  }

  /** A chain is deleted, and the others stay in order, exactly if it is stored and switched off. */
  lemma {:induction false} DeleteSpec(s: Shelf, id: string)
    requires Sound(s)
    ensures var (t, ok) := DeleteChain(s, id);
            && (ok <==> exists x | 0 <= x < |s.chains| :: s.chains[x].id == id && !s.chains[x].enabled)
            && (!ok ==> t == s)
            && t == s.(chains := t.chains)
            && (ok ==> exists x | 0 <= x < |s.chains| :: s.chains[x].id == id && t.chains == s.chains[..x] + s.chains[x + 1..])
  {
    hide Owns, ValidChain, RowOf;
    if HasChain(s, id) {
      RowFound(s.chains, id);
    }
  }

  lemma {:induction false} RowFound(chains: seq<Chain>, id: string)
    requires exists x | 0 <= x < |chains| :: chains[x].id == id
    ensures RowOf(chains, id) < |chains|
    decreases |chains|
  {
    if chains[0].id != id {
      var x :| 0 <= x < |chains| && chains[x].id == id;
      assert chains[1..][x - 1].id == id;
      RowFound(chains[1..], id);
    }
  }

  /** A node's own inbounds become exactly these, and those of other nodes stay, exactly if the node
      is known and every inbound exists and is not a hop of the node on some chain. */
  lemma {:induction false} AttachSpec(s: Shelf, nodeId: string, inboundIds: set<string>)
    ensures var (t, ok) := Attach(s, nodeId, inboundIds);
            && (ok <==> nodeId in s.nodes && forall b | b in inboundIds ::
                  && b in s.inbounds
                  && forall x, j | 0 <= x < |s.chains| && 0 <= j < |s.chains[x].hops| ::
                       s.chains[x].hops[j].nodeId != nodeId || s.chains[x].hops[j].inboundId != b)
            && (!ok ==> t == s)
            && t == s.(attached := t.attached)
            && (ok ==> forall p :: p in t.attached <==> if p.0 == nodeId then p.1 in inboundIds else p in s.attached)
  {
    forall b | b in inboundIds
      ensures Attachable(s, nodeId, b) <==>
                b in s.inbounds && forall x, j | 0 <= x < |s.chains| && 0 <= j < |s.chains[x].hops| ::
                  s.chains[x].hops[j].nodeId != nodeId || s.chains[x].hops[j].inboundId != b
    {
      if Attachable(s, nodeId, b) {
        forall x, j | 0 <= x < |s.chains| && 0 <= j < |s.chains[x].hops|
          ensures s.chains[x].hops[j].nodeId != nodeId || s.chains[x].hops[j].inboundId != b
        {
          assert !Owns(s.chains[x], (nodeId, b));
          assert Pair(s.chains[x].hops[j]) != (nodeId, b);
        }
      }
    }
    hide Attachable;
  }

  /** Chains are well formed with distinct ids; no pair belongs to two chains, or to a chain and
      a node's own inbounds. */
  ghost predicate Sound(s: Shelf) {
    && ValidChains(s.chains)
    && (forall x, y, p | 0 <= x < y < |s.chains| && Owns(s.chains[x], p) :: !Owns(s.chains[y], p))
    && (forall x, p | 0 <= x < |s.chains| && Owns(s.chains[x], p) :: p !in s.attached)
  }

  /** A chain whose hops are free owns nothing any other chain or attachment does. */
  lemma {:induction false} FreeOwns(s: Shelf, c: Chain, p: (string, string))
    requires HopsFree(s, c) && Owns(c, p)
    ensures p !in s.attached && forall x | 0 <= x < |s.chains| && s.chains[x].id != c.id :: !Owns(s.chains[x], p)
  {
    var i :| 0 <= i < |c.hops| && Pair(c.hops[i]) == p;
    assert HopFree(s, c.id, c.hops[i]);
  }

  lemma {:induction false} CreateSound(s: Shelf, c: Chain)
    requires Sound(s)
    ensures Sound(Create(s, c).0)
  {
    hide HopsFree;
    if Create(s, c).1 {
      var e, t := c.(enabled := false), Create(s, c).0;
      forall p | Owns(e, p) ensures p !in s.attached && forall x | 0 <= x < |s.chains| :: !Owns(s.chains[x], p) {
        assert Owns(c, p);
        FreeOwns(s, c, p);
      }
      hide Owns, ValidChain;
      assert ValidChain(e) by { SameHops(c, e); }
    }
  }

  lemma {:induction false} SameHops(c: Chain, e: Chain)
    requires ValidChain(c) && e.hops == c.hops
    ensures ValidChain(e)
  {
  }

  lemma {:induction false} UpdateSound(s: Shelf, c: Chain)
    requires Sound(s)
    ensures Sound(Update(s, c).0)
  {
    hide HopsFree;
    if Update(s, c).1 {
      forall p | Owns(c, p) ensures p !in s.attached && forall x | 0 <= x < |s.chains| && s.chains[x].id != c.id :: !Owns(s.chains[x], p) {
        FreeOwns(s, c, p);
      }
      hide Owns, ValidChain;
    }
  }

  /** Any selection of the chains, in order, is sound too. */
  lemma {:induction false} DeleteSound(s: Shelf, id: string)
    requires Sound(s)
    ensures Sound(DeleteChain(s, id).0)
  {
    hide Owns, ValidChain, RowOf;
    var x := RowOf(s.chains, id);
    var r := DeleteChain(s, id).0.chains;
    if x < |s.chains| {
      assert r != s.chains ==> forall y | 0 <= y < |r| :: r[y] == s.chains[if y < x then y else y + 1];
    }
  }

  lemma {:induction false} AttachSound(s: Shelf, nodeId: string, inboundIds: set<string>)
    requires Sound(s)
    ensures Sound(Attach(s, nodeId, inboundIds).0)
  {
    hide Owns, ValidChains;
    if Attach(s, nodeId, inboundIds).1 {
      forall x, b | 0 <= x < |s.chains| && b in inboundIds ensures !Owns(s.chains[x], (nodeId, b)) {
        assert Attachable(s, nodeId, b);
      }
    }
  }

  datatype Op =
    | CreateOp(chain: Chain)
    | UpdateOp(chain: Chain)
    | DeleteOp(id: string)
    | AttachOp(nodeId: string, inboundIds: set<string>)

  function Perform(s: Shelf, op: Op): Shelf {
    match op
    case CreateOp(c) => Create(s, c).0
    case UpdateOp(c) => Update(s, c).0
    case DeleteOp(id) => DeleteChain(s, id).0
    case AttachOp(n, inbounds) => Attach(s, n, inbounds).0
  }

  function Run(s: Shelf, ops: seq<Op>): Shelf
    decreases |ops|
  {
    if ops == [] then s else Run(Perform(s, ops[0]), ops[1..])
  }

  /** Whatever is created, changed, deleted and attached, the compiler only ever sees well-formed
      chains, and each (node, inbound) pair has one owner. */
  lemma {:induction false} EveryRunSound(s: Shelf, ops: seq<Op>)
    requires Sound(s)
    ensures var t := Run(s, ops);
            && Sound(t) && ValidChains(t.chains) && HopsOwnedOnce(t.chains)
            && (forall x, i | 0 <= x < |t.chains| && 0 <= i < |t.chains[x].hops| :: Pair(t.chains[x].hops[i]) !in t.attached)
    decreases |ops|
  {
    if ops != [] {
      assert Sound(Perform(s, ops[0])) by {
        match ops[0]
        case CreateOp(c) => CreateSound(s, c);
        case UpdateOp(c) => UpdateSound(s, c);
        case DeleteOp(id) => DeleteSound(s, id);
        case AttachOp(n, inbounds) => AttachSound(s, n, inbounds);
      }
      hide Perform, Sound;
      EveryRunSound(Perform(s, ops[0]), ops[1..]);
    } else {
      OneOwner(s);
    }
  }

  lemma {:induction false} OneOwner(s: Shelf)
    requires Sound(s)
    ensures HopsOwnedOnce(s.chains)
    ensures forall x, i | 0 <= x < |s.chains| && 0 <= i < |s.chains[x].hops| :: Pair(s.chains[x].hops[i]) !in s.attached
  {
    forall x, i | 0 <= x < |s.chains| && 0 <= i < |s.chains[x].hops| ensures Owns(s.chains[x], Pair(s.chains[x].hops[i])) {
    }
    hide Owns;
    forall x: nat, i: nat, y: nat, j: nat | x < |s.chains| && i < |s.chains[x].hops| && y < |s.chains| && j < |s.chains[y].hops|
      && Pair(s.chains[x].hops[i]) == Pair(s.chains[y].hops[j])
      ensures x == y && i == j
    {
      assert Owns(s.chains[x], Pair(s.chains[x].hops[i])) && Owns(s.chains[y], Pair(s.chains[x].hops[i]));
      assert ValidChain(s.chains[x]);
    }
  }
}
