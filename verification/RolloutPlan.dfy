/** The plan of an ordered chain rollout: effective chain sets, apply order, intermediate fleets. */
module RolloutPlan {
  import opened Outcomes
  import opened Fleet
  import opened NodeConfig
  import Converter

  // ----- Effective chain sets -----

  predicate Replaces(replacement: Option<Chain>, chain: Chain) {
    replacement.Some? && chain.id == replacement.value.id
  }

  /** What one stored chain contributes. */
  function Effective(chain: Chain, replacement: Option<Chain>, disable: bool): seq<Chain> {
    if Replaces(replacement, chain) then (if disable then [] else [replacement.value.(enabled := true)])
    else if chain.enabled then [chain]
    else []
  }

  /** The enabled chains, with a stored chain replaced (and enabled) in place or left out. */
  function KeptChains(chains: seq<Chain>, replacement: Option<Chain>, disable: bool): seq<Chain> {
    if chains == [] then []
    else Effective(chains[0], replacement, disable) + KeptChains(chains[1..], replacement, disable)
  }

  predicate HasChain(chains: seq<Chain>, id: string) {
    exists k | 0 <= k < |chains| :: chains[k].id == id
  }

  /** A replacement that is not stored yet goes last. */
  function EffectiveChains(chains: seq<Chain>, replacement: Option<Chain>, disable: bool): seq<Chain> {
    KeptChains(chains, replacement, disable)
    + if replacement.Some? && !disable && !HasChain(chains, replacement.value.id) then [replacement.value.(enabled := true)]
      else []
  }

  method CollectEffectiveChains(chains: seq<Chain>, replacement: Option<Chain>, disable: bool) returns (out: seq<Chain>)
    ensures out == EffectiveChains(chains, replacement, disable)
  {
    hide KeptChains, Replaces, Effective;
    out := [];
    var replaced := false;
    KeptFrom(chains, 0, replacement, disable);
    for i := 0 to |chains|
      invariant out + KeptChains(chains[i..], replacement, disable) == KeptChains(chains, replacement, disable)
      invariant replaced <==> exists k | 0 <= k < i :: Replaces(replacement, chains[k])
    {
      ghost var before := out;
      KeptFrom(chains, i, replacement, disable);
      Regroup(before, Effective(chains[i], replacement, disable), KeptChains(chains[i + 1..], replacement, disable));
      if Replaces(replacement, chains[i]) {
        ReplacesSome(replacement, chains[i]);
        replaced := true;
        if !disable {
          out := out + [replacement.value.(enabled := true)];
        }
      } else if chains[i].enabled {
        out := out + [chains[i]];
      }
      assert out == before + Effective(chains[i], replacement, disable) by { EffectiveOf(chains[i], replacement, disable); }
    }
    KeptFrom(chains, |chains|, replacement, disable);
    ReplacedIff(chains, replacement);
    if replacement.Some? && !replaced && !disable {
      out := out + [replacement.value.(enabled := true)];
    }
  }

  lemma {:induction false} Regroup(a: seq<Chain>, b: seq<Chain>, c: seq<Chain>)
    ensures a + (b + c) == (a + b) + c
  {
  }

  lemma {:induction false} EffectiveOf(chain: Chain, replacement: Option<Chain>, disable: bool)
    ensures Effective(chain, replacement, disable)
            == if Replaces(replacement, chain) then (if disable then [] else [replacement.value.(enabled := true)])
               else if chain.enabled then [chain] else []
  {
  }

  lemma {:induction false} KeptFrom(chains: seq<Chain>, i: nat, replacement: Option<Chain>, disable: bool)
    requires i <= |chains|
    ensures KeptChains(chains[0..], replacement, disable) == KeptChains(chains, replacement, disable)
    ensures i < |chains| ==> KeptChains(chains[i..], replacement, disable)
                             == Effective(chains[i], replacement, disable) + KeptChains(chains[i + 1..], replacement, disable)
    ensures i == |chains| ==> KeptChains(chains[i..], replacement, disable) == []
  {
    hide Effective;
    assert chains[0..] == chains;
    if i < |chains| {
      assert chains[i..][0] == chains[i] && chains[i..][1..] == chains[i + 1..];
    }
  }

  lemma {:induction false} ReplacesSome(replacement: Option<Chain>, chain: Chain)
    requires Replaces(replacement, chain)
    ensures replacement.Some?
  {
  }

  lemma {:induction false} ReplacedIff(chains: seq<Chain>, replacement: Option<Chain>)
    ensures replacement.Some? && HasChain(chains, replacement.value.id)
            <==> exists k | 0 <= k < |chains| :: Replaces(replacement, chains[k])
  {
    hide Effective;
    forall k | 0 <= k < |chains| && Replaces(replacement, chains[k]) ensures HasChain(chains, replacement.value.id) {
      assert chains[k].id == replacement.value.id;
    }
    forall k | 0 <= k < |chains| && replacement.Some? && chains[k].id == replacement.value.id
      ensures Replaces(replacement, chains[k])
    {
    }
  }

  /** The stored rows after the chain with this id is rewritten. */
  function ReplaceChain(chains: seq<Chain>, chain: Chain): seq<Chain> {
    if chains == [] then []
    else [if chains[0].id == chain.id then chain else chains[0]] + ReplaceChain(chains[1..], chain)
  }

  function SetEnabled(chains: seq<Chain>, id: string, enabled: bool): seq<Chain> {
    if chains == [] then []
    else [if chains[0].id == id then chains[0].(enabled := enabled) else chains[0]] + SetEnabled(chains[1..], id, enabled)
  }

  /** What is committed is what was built against. */
  lemma {:induction false} CommittedDeploy(chains: seq<Chain>, candidate: Chain)
    requires candidate.enabled
    ensures EnabledChains(ReplaceChain(chains, candidate)) == KeptChains(chains, Some(candidate), false)
  {
    if chains != [] {
      CommittedDeploy(chains[1..], candidate);
      var c := if chains[0].id == candidate.id then candidate else chains[0];
      assert ReplaceChain(chains, candidate)[1..] == ReplaceChain(chains[1..], candidate);
    }
  }

  lemma {:induction false} CommittedDisable(chains: seq<Chain>, current: Chain)
    ensures EnabledChains(SetEnabled(chains, current.id, false)) == KeptChains(chains, Some(current), true)
  {
    if chains != [] {
      CommittedDisable(chains[1..], current);
      assert SetEnabled(chains, current.id, false)[1..] == SetEnabled(chains[1..], current.id, false);
    }
  }

  lemma {:induction false} CurrentChains(chains: seq<Chain>)
    ensures KeptChains(chains, None, false) == EffectiveChains(chains, None, false) == EnabledChains(chains)
  {
    if chains != [] {
      CurrentChains(chains[1..]);
    }
  }

  lemma {:induction false} StoredReplacement(chains: seq<Chain>, replacement: Chain, disable: bool)
    requires disable || HasChain(chains, replacement.id)
    ensures EffectiveChains(chains, Some(replacement), disable) == KeptChains(chains, Some(replacement), disable)
  {
    hide KeptChains;
  }

  // ----- A node's build depends only on the chains the node is on -----

  predicate OnChain(chain: Chain, nodeId: string) {
    exists i | 0 <= i < |chain.hops| :: chain.hops[i].nodeId == nodeId
  }

  function Relevant(chains: seq<Chain>, nodeId: string): seq<Chain> {
    if chains == [] then []
    else (if chains[0].enabled && OnChain(chains[0], nodeId) then [chains[0]] else []) + Relevant(chains[1..], nodeId)
  }

  ghost predicate DistinctChainIds(chains: seq<Chain>) {
    forall i, j | 0 <= i < j < |chains| :: chains[i].id != chains[j].id
  }

  lemma {:induction false} SkipChainHops(snap: Snapshot, node: Node, chain: Chain, i: nat, acc: Parts)
    requires i <= |chain.hops| && !OnChain(chain, node.id)
    ensures AddHops(snap, node, chain, i, acc) == Ok(acc)
    decreases |chain.hops| - i
  {
    hide ResolveHopEndpoint, ChainOutboundTag;
    if i < |chain.hops| {
      SkipChainHops(snap, node, chain, i + 1, acc);
    }
  }

  lemma {:induction false} AddChainsShift(snap: Snapshot, node: Node, a: seq<Chain>, i: nat, b: seq<Chain>, j: nat, acc: Parts)
    requires i <= |a| && j <= |b| && a[i..] == b[j..]
    ensures AddChains(snap, node, a, i, acc) == AddChains(snap, node, b, j, acc)
    decreases |a| - i
  {
    hide AddHops;
    if i < |a| {
      assert a[i] == a[i..][0] == b[j..][0] == b[j];
      assert a[i + 1..] == a[i..][1..] && b[j + 1..] == b[j..][1..];
      var next := if a[i].enabled then AddHops(snap, node, a[i], 0, acc) else Ok(acc);
      if next.Ok? {
        AddChainsShift(snap, node, a, i + 1, b, j + 1, next.value);
      }
    }
  }

  lemma {:induction false} AddChainsRelevant(snap: Snapshot, node: Node, chains: seq<Chain>, acc: Parts)
    ensures AddChains(snap, node, chains, 0, acc) == AddChains(snap, node, Relevant(chains, node.id), 0, acc)
  {
    hide AddHops;
    if chains != [] {
      var rest, rel := Relevant(chains[1..], node.id), Relevant(chains, node.id);
      var next := if chains[0].enabled then AddHops(snap, node, chains[0], 0, acc) else Ok(acc);
      if chains[0].enabled && OnChain(chains[0], node.id) {
        assert rel[0] == chains[0] && rel[1..] == rest;
        if next.Ok? {
          AddChainsShift(snap, node, chains, 1, chains[1..], 0, next.value);
          AddChainsRelevant(snap, node, chains[1..], next.value);
          AddChainsShift(snap, node, rel, 1, rest, 0, next.value);
        }
      } else {
        assert rel == rest;
        if chains[0].enabled {
          SkipChainHops(snap, node, chains[0], 0, acc);
        }
        AddChainsShift(snap, node, chains, 1, chains[1..], 0, acc);
        AddChainsRelevant(snap, node, chains[1..], acc);
      }
    }
  }

  lemma {:induction false} NoHopOutbound(chain: Chain, nodeId: string, i: nat)
    requires i <= |chain.hops| && !OnChain(chain, nodeId)
    ensures HopOutbound(chain, nodeId, i) == None
    decreases |chain.hops| - i
  {
    if i < |chain.hops| {
      NoHopOutbound(chain, nodeId, i + 1);
    }
  }

  lemma {:induction false} UnknownChain(chains: seq<Chain>, chainId: string, nodeId: string)
    requires forall k | 0 <= k < |chains| :: chains[k].id != chainId
    ensures ChainOutboundForNode(chains, chainId, nodeId) == None
  {
    if chains != [] {
      UnknownChain(chains[1..], chainId, nodeId);
    }
  }

  lemma {:induction false} EntryRelevant(chains: seq<Chain>, chainId: string, nodeId: string)
    requires DistinctChainIds(chains)
    ensures ChainOutboundForNode(chains, chainId, nodeId) == ChainOutboundForNode(Relevant(chains, nodeId), chainId, nodeId)
  {
    hide HopOutbound;
    if chains != [] {
      var rest := chains[1..];
      EntryRelevant(rest, chainId, nodeId);
      if !(chains[0].enabled && OnChain(chains[0], nodeId)) {
        assert Relevant(chains, nodeId) == Relevant(rest, nodeId);
      }
      if chains[0].id == chainId && chains[0].enabled && !OnChain(chains[0], nodeId) {
        NoHopOutbound(chains[0], nodeId, 0);
        UnknownChain(rest, chainId, nodeId);
      } else if chains[0].enabled && OnChain(chains[0], nodeId) {
        assert Relevant(chains, nodeId)[0] == chains[0] && Relevant(chains, nodeId)[1..] == Relevant(rest, nodeId);
      }
    }
  }

  lemma {:induction false} PlanRulesRelevant(rules: seq<PlanRule>, chains: seq<Chain>, nodeId: string)
    requires DistinctChainIds(chains)
    ensures ResolvePlanRules(rules, chains, nodeId) == ResolvePlanRules(rules, Relevant(chains, nodeId), nodeId)
  {
    if rules != [] {
      EntryRelevant(chains, rules[0].targetChainId, nodeId);
      PlanRulesRelevant(rules[1..], chains, nodeId);
    }
  }

  lemma {:induction false} BuildRelevant(snap: Snapshot, nodeId: string, chains: seq<Chain>)
    requires snap.Valid() && DistinctChainIds(chains)
    ensures Build(snap, nodeId, chains) == Build(snap, nodeId, Relevant(chains, nodeId))
  {
    hide AddChains, ApplyManagedTls, ResolvePlanRules, Converter.Convert, Relocate, Relevant;
    if nodeId in snap.nodes {
      AddChainsRelevant(snap, snap.nodes[nodeId], chains, Standalone(snap, nodeId));
      PlanRulesRelevant(FlatRules(snap.plans), chains, nodeId);
    }
  }

  lemma {:induction false} SameRelevant(chains: seq<Chain>, replacement: Chain, disable: bool, nodeId: string)
    requires !disable ==> !OnChain(replacement, nodeId)
    requires forall k | 0 <= k < |chains| && chains[k].id == replacement.id :: !OnChain(chains[k], nodeId)
    ensures Relevant(KeptChains(chains, Some(replacement), disable), nodeId) == Relevant(EnabledChains(chains), nodeId)
  {
    if chains != [] {
      SameRelevant(chains[1..], replacement, disable, nodeId);
      var next := replacement.(enabled := true);
      var now := if chains[0].enabled then [chains[0]] else [];
      var changed := if chains[0].id == replacement.id then (if disable then [] else [next]) else now;
      RelevantConcat(changed, KeptChains(chains[1..], Some(replacement), disable), nodeId);
      RelevantConcat(now, EnabledChains(chains[1..]), nodeId);
      if chains[0].id == replacement.id {
        assert next.hops == replacement.hops;
        OffChainIrrelevant(now, nodeId);
        OffChainIrrelevant(changed, nodeId);
      }
    }
  }

  lemma {:induction false} OffChainIrrelevant(chains: seq<Chain>, nodeId: string)
    requires |chains| <= 1 && forall c | c in chains :: !OnChain(c, nodeId)
    ensures Relevant(chains, nodeId) == []
  {
    if chains != [] {
      assert chains[1..] == [];
    }
  }

  lemma {:induction false} RelevantConcat(a: seq<Chain>, b: seq<Chain>, nodeId: string)
    ensures Relevant(a + b, nodeId) == Relevant(a, nodeId) + Relevant(b, nodeId)
  {
    if a == [] {
      assert a + b == b;
    } else {
      assert (a + b)[1..] == a[1..] + b;
      RelevantConcat(a[1..], b, nodeId);
    }
  }

  lemma {:induction false} EffectiveIdsDistinct(chains: seq<Chain>, replacement: Option<Chain>, disable: bool)
    requires DistinctChainIds(chains)
    ensures DistinctChainIds(KeptChains(chains, replacement, disable))
    ensures forall c | c in KeptChains(chains, replacement, disable) :: HasChain(chains, c.id)
  {
    if chains != [] {
      var rest := KeptChains(chains[1..], replacement, disable);
      EffectiveIdsDistinct(chains[1..], replacement, disable);
      forall c | c in rest ensures HasChain(chains, c.id) && c.id != chains[0].id {
        var k :| 0 <= k < |chains[1..]| && chains[1..][k].id == c.id;
        assert chains[k + 1].id == c.id;
      }
      assert HasChain(chains, chains[0].id);
    }
  }

  /** Nodes on neither the old nor the new hops of the changed chain keep their configuration. */
  lemma {:induction false} OffChainUnchanged(snap: Snapshot, chains: seq<Chain>, replacement: Chain, disable: bool, nodeId: string)
    requires snap.Valid() && DistinctChainIds(chains)
    requires !disable ==> !OnChain(replacement, nodeId)
    requires forall k | 0 <= k < |chains| && chains[k].id == replacement.id :: !OnChain(chains[k], nodeId)
    ensures Build(snap, nodeId, KeptChains(chains, Some(replacement), disable)) == Build(snap, nodeId, EnabledChains(chains))
  {
    hide Build;
    SameRelevant(chains, replacement, disable, nodeId);
    EffectiveIdsDistinct(chains, Some(replacement), disable);
    EffectiveIdsDistinct(chains, None, false);
    CurrentChains(chains);
    BuildRelevant(snap, nodeId, KeptChains(chains, Some(replacement), disable));
    BuildRelevant(snap, nodeId, EnabledChains(chains));
  }
}
