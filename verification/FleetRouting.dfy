/** Paths of connections across a fleet whose nodes run the tables built from one snapshot. */
module FleetRouting {
  import opened Outcomes
  import opened Fleet
  import opened NodeConfig
  import opened ForwardingTable
  import opened ChainTables
  import opened NodeTables
  import opened HopDecisions
  import opened NodeDecisions
  import Converter
  import Text

  datatype Place = At(node: string, tag: string) | Left(node: string) | Dropped(node: string)

  ghost function InboundTagOf(snap: Snapshot, inboundId: string): string {
    if inboundId in snap.inbounds then Converter.InboundTag(snap.inbounds[inboundId]) else ""
  }

  /** One routing decision; a place already outside the fleet stays put. */
  ghost function Step(snap: Snapshot, fleet: map<string, Converter.Document>, conn: Conn, p: Place): Place {
    if !p.At? then p
    else if p.node !in fleet then Dropped(p.node)
    else
      match Decide(fleet[p.node], p.tag, conn)
      case Leave => Left(p.node)
      case Drop => Dropped(p.node)
      case Forward(endpoint) => At(endpoint.nodeId, InboundTagOf(snap, endpoint.inboundId))
  }

  ghost function Walk(snap: Snapshot, fleet: map<string, Converter.Document>, conn: Conn, p: Place, n: nat): Place
    decreases n
  {
    if n == 0 then p else Walk(snap, fleet, conn, Step(snap, fleet, conn, p), n - 1)
  }

  /** The connection arrives on the inbound of hop i of chain x. */
  ghost function AtHop(snap: Snapshot, chains: seq<Chain>, x: nat, i: nat): Place
    requires x < |chains| && i < |chains[x].hops|
  {
    At(chains[x].hops[i].nodeId, HopTag(snap, chains, x, i))
  }

  /** The node runs what the compiler makes of this snapshot and chain set. */
  ghost predicate RunsBuild(snap: Snapshot, chains: seq<Chain>, fleet: map<string, Converter.Document>, n: string) {
    hide Build;
    && n in fleet
    && Build(snap, n, chains).Ok? && fleet[n] == Build(snap, n, chains).value.config
    && DistinctTags(fleet[n])
  }

  ghost predicate BuiltFleet(snap: Snapshot, chains: seq<Chain>, fleet: map<string, Converter.Document>) {
    && snap.Valid() && ValidChains(chains)
    && (forall n | n in fleet :: RunsBuild(snap, chains, fleet, n))
    && (forall x, i | 0 <= x < |chains| && chains[x].enabled && 0 <= i < |chains[x].hops| :: chains[x].hops[i].nodeId in fleet)
  }

  lemma {:induction false} WalkSplits(snap: Snapshot, fleet: map<string, Converter.Document>, conn: Conn, p: Place, m: nat, n: nat)
    ensures Walk(snap, fleet, conn, p, m + n) == Walk(snap, fleet, conn, Walk(snap, fleet, conn, p, m), n)
    decreases m
  {
    hide Step;
    if m > 0 {
      WalkSplits(snap, fleet, conn, Step(snap, fleet, conn, p), m - 1, n);
    }
  }

  // ----- Chains deliver in order -----

  lemma {:induction false} RelayStep(snap: Snapshot, chains: seq<Chain>, fleet: map<string, Converter.Document>, conn: Conn, x: nat, i: nat)
    requires snap.Valid()
    requires x < |chains| && chains[x].enabled && i + 1 < |chains[x].hops|
    requires RunsBuild(snap, chains, fleet, chains[x].hops[i].nodeId)
    ensures Step(snap, fleet, conn, AtHop(snap, chains, x, i)) == AtHop(snap, chains, x, i + 1)
  {
    hide Converter.InboundTag, Build, Decide, PlanDecision, ResolveHopEndpoint;
    var n := chains[x].hops[i].nodeId;
    BuiltDecides(snap, n, chains);
    assert RelayHere(chains, n, x, i);
    NextHopLeadsOn(snap, chains, x, i);
  }

  /** Traffic arriving on hop i of an enabled chain visits hops i+1, i+2, ... of that chain, in
      order and whatever the plans say, as far as those hops run the compiled tables. */
  lemma {:induction false} ChainDelivers(
    snap: Snapshot, chains: seq<Chain>, fleet: map<string, Converter.Document>, conn: Conn, x: nat, i: nat, k: nat)
    requires snap.Valid()
    requires x < |chains| && chains[x].enabled && i + k < |chains[x].hops|
    requires forall j | i <= j < i + k :: RunsBuild(snap, chains, fleet, chains[x].hops[j].nodeId)
    ensures Walk(snap, fleet, conn, AtHop(snap, chains, x, i), k) == AtHop(snap, chains, x, i + k)
    decreases k
  {
    hide RunsBuild, Step, Converter.InboundTag;
    if k > 0 {
      RelayStep(snap, chains, fleet, conn, x, i);
      ChainDelivers(snap, chains, fleet, conn, x, i + 1, k - 1);
    }
  }

  // ----- No connection loops -----

  ghost predicate Settles(snap: Snapshot, fleet: map<string, Converter.Document>, conn: Conn, p: Place, n: nat) {
    !Walk(snap, fleet, conn, p, n).At?
  }

  lemma {:induction false} OutsideStays(snap: Snapshot, fleet: map<string, Converter.Document>, conn: Conn, p: Place, n: nat)
    requires !p.At?
    ensures Walk(snap, fleet, conn, p, n) == p
  {
    if n > 0 {
      OutsideStays(snap, fleet, conn, p, n - 1);
    }
  }

  /** Settling after a prefix of the path, and staying settled. */
  lemma {:induction false} SettlesAfter(snap: Snapshot, fleet: map<string, Converter.Document>, conn: Conn, p: Place, m: nat, q: Place, n: nat, total: nat)
    requires Walk(snap, fleet, conn, p, m) == q && Settles(snap, fleet, conn, q, n) && m + n <= total
    ensures Settles(snap, fleet, conn, p, total)
  {
    hide Step;
    WalkSplits(snap, fleet, conn, p, m, n);
    WalkSplits(snap, fleet, conn, p, m + n, total - (m + n));
    OutsideStays(snap, fleet, conn, Walk(snap, fleet, conn, p, m + n), total - (m + n));
  }

  /** The tag serves no relay hop of the node, so its traffic follows the plans. */
  ghost predicate Transit(snap: Snapshot, chains: seq<Chain>, n: string, tag: string) {
    hide Converter.InboundTag;
    forall y: nat, j: nat | RelayHere(chains, n, y, j) :: HopTag(snap, chains, y, j) != tag
  }

  ghost function SelectedAt(snap: Snapshot, chains: seq<Chain>, n: string, conn: Conn): nat {
    Selected(FlatRules(snap.plans), 0, snap, chains, n, conn)
  }

  lemma {:induction false} ExitIsTransit(snap: Snapshot, chains: seq<Chain>, fleet: map<string, Converter.Document>, x: nat)
    requires BuiltFleet(snap, chains, fleet) && x < |chains| && chains[x].enabled
    ensures var last := |chains[x].hops| - 1;
            Transit(snap, chains, chains[x].hops[last].nodeId, HopTag(snap, chains, x, last))
  {
    hide Converter.InboundTag, Build, Decide, PlanDecision, ResolveHopEndpoint;
    var last := |chains[x].hops| - 1;
    var e := chains[x].hops[last].nodeId;
    assert RunsBuild(snap, chains, fleet, e);
    BuiltDecides(snap, e, chains);
    assert HopHere(chains, e, x, last);
  }

  lemma {:induction false} EntryHopUnique(chain: Chain, i: nat, h: nat)
    requires ValidChain(chain) && i <= h < |chain.hops|
    ensures EntryHop(chain, chain.hops[h].nodeId, i) == h
    decreases h - i
  {
    if i < h {
      EntryHopUnique(chain, i + 1, h);
    }
  }

  /** A rule that sends traffic into a chain applies at the chain's exit too, where it means
      "leave here". */
  lemma {:induction false} RuleAtExit(snap: Snapshot, chains: seq<Chain>, n: string, conn: Conn, rule: PlanRule) returns (x: nat, i: nat)
    requires ValidChains(chains)
    requires RuleApplies(rule, snap, chains, n, conn) && PlanAction(rule, snap, chains, n).value.Forward?
    ensures RelayHere(chains, n, x, i)
    ensures PlanAction(rule, snap, chains, n) == Some(NextHop(snap, chains, x, i))
    ensures var e := chains[x].hops[|chains[x].hops| - 1].nodeId;
            RuleApplies(rule, snap, chains, e, conn) && PlanAction(rule, snap, chains, e) == Some(Leave)
  {
    hide Text.TrimSpace, Converter.SupportedMatch, ResolveHopEndpoint;
    x := EntryChain(chains, rule.targetChainId, 0);
    EntryChainSpec(chains, rule.targetChainId, n, 0);
    i := EntryHop(chains[x], n, 0);
    EntryHopSpec(chains[x], n, 0);
    EntryHopUnique(chains[x], 0, |chains[x].hops| - 1);
  }

  lemma {:induction false} TransitStep(snap: Snapshot, chains: seq<Chain>, fleet: map<string, Converter.Document>, conn: Conn, n: string, tag: string)
    requires BuiltFleet(snap, chains, fleet) && n in fleet && Transit(snap, chains, n, tag)
    ensures Decide(fleet[n], tag, conn) == PlanDecision(snap, chains, n, conn)
  {
    hide Converter.InboundTag, Build, Decide, PlanDecision, ResolveHopEndpoint;
    assert RunsBuild(snap, chains, fleet, n);
    BuiltDecides(snap, n, chains);
  }

  /** From any place where the plans decide, the connection leaves the fleet. The selected rule
      index strictly decreases from one chain exit to the next. */
  lemma {:induction false} TransitSettles(
    snap: Snapshot, chains: seq<Chain>, fleet: map<string, Converter.Document>, conn: Conn, n: string, tag: string)
    requires BuiltFleet(snap, chains, fleet) && n in fleet && Transit(snap, chains, n, tag)
    ensures var g := SelectedAt(snap, chains, n, conn);
            Settles(snap, fleet, conn, At(n, tag), if g == |FlatRules(snap.plans)| then 1 else 7 * (g + 1) + 1)
    decreases SelectedAt(snap, chains, n, conn)
  {
    hide Converter.InboundTag, Decide, Transit, RuleApplies, PlanAction, ResolveHopEndpoint, RunsBuild;
    var rules := FlatRules(snap.plans);
    var g := SelectedAt(snap, chains, n, conn);
    var p := At(n, tag);
    TransitStep(snap, chains, fleet, conn, n, tag);
    var d := PlanDecision(snap, chains, n, conn);
    if d.Forward? {
      var x, i := RuleAtExit(snap, chains, n, conn, rules[g]);
      var last := |chains[x].hops| - 1;
      var e := chains[x].hops[last].nodeId;
      ExitIsTransit(snap, chains, fleet, x);
      LeaveThroughChain(snap, chains, fleet, conn, p, x, i);
      var h := SelectedAt(snap, chains, e, conn);
      assert h <= g;
      if h == g {
        TransitStep(snap, chains, fleet, conn, e, HopTag(snap, chains, x, last));
        assert Settles(snap, fleet, conn, AtHop(snap, chains, x, last), 1) by {
          assert Walk(snap, fleet, conn, AtHop(snap, chains, x, last), 1) == Step(snap, fleet, conn, AtHop(snap, chains, x, last));
        }
        SettlesAfter(snap, fleet, conn, p, last - i, AtHop(snap, chains, x, last), 1, 7 * (g + 1) + 1);
      } else {
        TransitSettles(snap, chains, fleet, conn, e, HopTag(snap, chains, x, last));
        SettlesAfter(snap, fleet, conn, p, last - i, AtHop(snap, chains, x, last), 7 * (h + 1) + 1, 7 * (g + 1) + 1);
      }
    } else {
      assert Walk(snap, fleet, conn, p, 1) == Step(snap, fleet, conn, p);
      SettlesAfter(snap, fleet, conn, p, 1, Step(snap, fleet, conn, p), 0, 1);
      SettlesAfter(snap, fleet, conn, p, 1, Step(snap, fleet, conn, p), 0, if g == |rules| then 1 else 7 * (g + 1) + 1);
    }
  }

  /** A place that forwards to hop i+1 of a chain reaches the chain's exit in the remaining hops. */
  lemma {:induction false} LeaveThroughChain(
    snap: Snapshot, chains: seq<Chain>, fleet: map<string, Converter.Document>, conn: Conn, p: Place, x: nat, i: nat)
    requires BuiltFleet(snap, chains, fleet)
    requires x < |chains| && chains[x].enabled && i + 1 < |chains[x].hops|
    requires p.At? && p.node in fleet && Decide(fleet[p.node], p.tag, conn) == NextHop(snap, chains, x, i)
    requires NextHop(snap, chains, x, i).Forward?
    ensures var last := |chains[x].hops| - 1;
            Walk(snap, fleet, conn, p, last - i) == AtHop(snap, chains, x, last)
  {
    hide Converter.InboundTag, Decide, RunsBuild, ResolveHopEndpoint;
    var last := |chains[x].hops| - 1;
    NextHopLeadsOn(snap, chains, x, i);
    assert Step(snap, fleet, conn, p) == AtHop(snap, chains, x, i + 1);
    ChainDelivers(snap, chains, fleet, conn, x, i + 1, last - i - 1);
  }

  /** Every connection that enters the fleet anywhere leaves it, or is rejected, after at most
      7 (R + 1) + 1 routing decisions, where R is the number of plan rules. */
  lemma {:induction false} EveryConnectionSettles(
    snap: Snapshot, chains: seq<Chain>, fleet: map<string, Converter.Document>, conn: Conn, n: string, tag: string)
    requires BuiltFleet(snap, chains, fleet) && n in fleet
    ensures Settles(snap, fleet, conn, At(n, tag), 7 * (|FlatRules(snap.plans)| + 1) + 1)
  {
    hide Converter.InboundTag, Decide, RunsBuild, ResolveHopEndpoint, RuleApplies, PlanAction;
    var total := 7 * (|FlatRules(snap.plans)| + 1) + 1;
    if Transit(snap, chains, n, tag) {
      TransitSettles(snap, chains, fleet, conn, n, tag);
      var g := SelectedAt(snap, chains, n, conn);
      SettlesAfter(snap, fleet, conn, At(n, tag), 0, At(n, tag),
                   if g == |FlatRules(snap.plans)| then 1 else 7 * (g + 1) + 1, total);
    } else {
      var x: nat, i: nat :| RelayHere(chains, n, x, i) && HopTag(snap, chains, x, i) == tag;
      var last := |chains[x].hops| - 1;
      var e := chains[x].hops[last].nodeId;
      ChainDelivers(snap, chains, fleet, conn, x, i, last - i);
      ExitIsTransit(snap, chains, fleet, x);
      TransitSettles(snap, chains, fleet, conn, e, HopTag(snap, chains, x, last));
      var g := SelectedAt(snap, chains, e, conn);
      SettlesAfter(snap, fleet, conn, At(n, tag), last - i, AtHop(snap, chains, x, last),
                   if g == |FlatRules(snap.plans)| then 1 else 7 * (g + 1) + 1, total);
    }
  }
}
