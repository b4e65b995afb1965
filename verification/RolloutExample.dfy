/** Two rollouts that leave a fleet neither in step with the store nor cut in order. */
module RolloutExample {
  import opened Outcomes
  import opened Fleet
  import opened NodeConfig
  import opened RolloutPlan
  import opened RolloutOrder
  import opened RolloutFleets
  import opened FleetExample
  import Converter
  import Rollout

  const PUSH := {"a", "b"}

  /** Without the chain both nodes still build, with no inbounds at all. */
  lemma {:induction false} EmptyBuilds(n: string)
    requires n == "a" || n == "b"
    ensures Build(SNAPSHOT, n, []).Ok? && Build(SNAPSHOT, n, []).value.config.inbounds == []
  {
    hide ResolvePlanRules, PortsInUse, Converter.EmitRules;
    var node := SNAPSHOT.nodes[n];
    var parts := Parts([], {}, []);
    assert Standalone(SNAPSHOT, n) == parts;
    assert AddChains(SNAPSHOT, node, [], 0, parts) == Ok(parts);
    var opts := OptionsFor(SNAPSHOT, node, [], parts);
    assert Converter.Convert([], opts).Ok? && Converter.Convert([], opts).value.inbounds == [];
    var doc := ConvertParts([], opts).value;
    assert Relocate([], 0, StartRelocation(doc.inbounds)) == Ok(StartRelocation(doc.inbounds));
  }

  lemma {:induction false} BothDiffer(n: string)
    requires n == "a" || n == "b"
    ensures Build(SNAPSHOT, n, []).Ok? && Build(SNAPSHOT, n, [CHAIN]).Ok?
    ensures Build(SNAPSHOT, n, []).value.config.inbounds == [] && |Build(SNAPSHOT, n, [CHAIN]).value.config.inbounds| == 1
  {
    hide Build;
    EmptyBuilds(n);
    SecondDialled();
    assert Pair(SNAPSHOT, CHAIN, SECOND, CHAIN.hops[1]);
    EntryBuilds(SNAPSHOT, CHAIN, SECOND, CHAIN.hops[1]);
    ExitBuilds(SNAPSHOT, CHAIN, SECOND, CHAIN.hops[1]);
  }

  lemma {:induction false} ChainAlone()
    ensures EnabledChains([CHAIN]) == [CHAIN]
    ensures EffectiveChains([CHAIN], Some(CHAIN), true) == []
  {
    assert [CHAIN][1..] == [];
    assert KeptChains([], Some(CHAIN), true) == [];
    assert Effective(CHAIN, Some(CHAIN), true) == [];
    assert KeptChains([CHAIN], Some(CHAIN), true) == [];
  }

  /** A disable whose last store write failed: the store still has the chain, and neither agent
      runs what the store builds any more. */
  lemma {:induction false} UnrecordedDisable(start: Agents, agents: Agents)
    requires var oldChains := EnabledChains([CHAIN]);
             var newChains := EffectiveChains([CHAIN], Some(CHAIN), true);
             Rollout.Ahead(SNAPSHOT, PUSH, CHAIN, oldChains, newChains, start, agents)
    ensures "a" in agents && !InStep(SNAPSHOT, EnabledChains([CHAIN]), agents, "a")
    ensures "b" in agents && !InStep(SNAPSHOT, EnabledChains([CHAIN]), agents, "b")
    ensures agents["a"].config.inbounds == agents["b"].config.inbounds == []
  {
    hide Build;
    ChainAlone();
    BothDiffer("a");
    BothDiffer("b");
    assert CHAIN.hops[0].nodeId == "a" && CHAIN.hops[1].nodeId == "b";
  }

  lemma {:induction false} UnrecordedDisableExists() returns (agents: Agents)
    ensures Rollout.Ahead(SNAPSHOT, PUSH, CHAIN, EnabledChains([CHAIN]), EffectiveChains([CHAIN], Some(CHAIN), true), map[], agents)
  {
    hide Build;
    ChainAlone();
    BothDiffer("a");
    BothDiffer("b");
    agents := map["a" := Build(SNAPSHOT, "a", []).value, "b" := Build(SNAPSHOT, "b", []).value];
    assert OnChain(CHAIN, "a") && OnChain(CHAIN, "b") by {
      assert CHAIN.hops[0].nodeId == "a" && CHAIN.hops[1].nodeId == "b";
    }
    assert forall n | OnChain(CHAIN, n) :: n == "a" || n == "b";
    assert Differs(SNAPSHOT, [CHAIN], [], "a") && Differs(SNAPSHOT, [CHAIN], [], "b");
    assert !InStep(SNAPSHOT, [CHAIN], agents, "a") && !InStep(SNAPSHOT, [CHAIN], agents, "b");
  }

  lemma {:induction false} Order()
    ensures PushNodes(DeployOrder(CHAIN, CHAIN), PUSH) == ["b", "a"]
  {
    assert HopNodes(CHAIN.hops) == ["a", "b"];
    assert Reversed(["a", "b"]) == ["b", "a"];
    assert AppendAll(["b"], ["a"]) == ["b", "a"];
    assert AppendAll([], ["b", "a"]) == ["b", "a"];
    assert AppendAll(["b", "a"], ["b"]) == ["b", "a"];
    assert AppendAll(["b", "a"], ["a", "b"]) == ["b", "a"];
    assert PushNodes(["b"], PUSH) == ["b"];
    assert ["b", "a"][..1] == ["b"];
  }

  lemma {:induction false} KeepsEntry(snap: Snapshot, oldChains: seq<Chain>, newChains: seq<Chain>, start: Agents, agents: Agents)
    requires InStep(snap, oldChains, start, "a") && InStep(snap, oldChains, start, "b")
    requires Differs(snap, oldChains, newChains, "a") && Differs(snap, oldChains, newChains, "b")
    requires InStep(snap, newChains, agents, "a") && forall n | n != "a" :: SameAt(start, agents, n)
    ensures Undone(snap, ["b", "a"], oldChains, newChains, start, agents, 2, [false, true])
    ensures Rollout.HalfUndone(snap, ["b", "a"], oldChains, newChains, start, agents)
    ensures !Cut(snap, ["b", "a"], oldChains, newChains, start, agents)
  {
    hide Build;
    var nodes, oks := ["b", "a"], [false, true];
    assert nodes[..2] == nodes;
    assert TakenBack(2, oks, 0) && !TakenBack(2, oks, 1);
    assert SameAt(start, agents, "b");
    assert forall n | n !in nodes :: n != "a";
    assert OutOfTurn(snap, nodes, oldChains, newChains, start, 2, oks, 0, 1);
    assert !oks[0];
    UndoneCutIff(snap, nodes, oldChains, newChains, start, agents, 2, oks);
  }

  /** Two nodes that run what they build at first, of which the first then runs what it builds
      with the new chains. */
  lemma {:induction false} EntryAhead(snap: Snapshot, oldChains: seq<Chain>, newChains: seq<Chain>) returns (start: Agents, agents: Agents)
    requires Build(snap, "a", oldChains).Ok? && Build(snap, "b", oldChains).Ok? && Build(snap, "a", newChains).Ok?
    requires Differs(snap, oldChains, newChains, "a") && Differs(snap, oldChains, newChains, "b")
    ensures InStep(snap, oldChains, start, "a") && InStep(snap, oldChains, start, "b")
    ensures Undone(snap, ["b", "a"], oldChains, newChains, start, agents, 2, [false, true])
    ensures Rollout.HalfUndone(snap, ["b", "a"], oldChains, newChains, start, agents)
    ensures !Cut(snap, ["b", "a"], oldChains, newChains, start, agents)
    ensures InStep(snap, newChains, agents, "a") && InStep(snap, oldChains, agents, "b")
  {
    hide Build, Undone, Cut, Rollout.HalfUndone;
    var a, b, c := Build(snap, "a", oldChains).value, Build(snap, "b", oldChains).value, Build(snap, "a", newChains).value;
    start := map["a" := a, "b" := b];
    agents := start["a" := c];
    KeepsEntry(snap, oldChains, newChains, start, agents);
  }

  /** A deployment whose chain the store refused after both applies: taking the entry back fails,
      taking the exit back succeeds. The entry goes on sending into a hop that is gone, so the
      changed hops are no suffix. */
  lemma {:induction false} HalfRollback() returns (start: Agents, agents: Agents)
    ensures PushNodes(DeployOrder(CHAIN, CHAIN), PUSH) == ["b", "a"]
    ensures InStep(SNAPSHOT, [], start, "a") && InStep(SNAPSHOT, [], start, "b")
    ensures Rollout.HalfUndone(SNAPSHOT, ["b", "a"], [], [CHAIN], start, agents)
    ensures !Cut(SNAPSHOT, ["b", "a"], [], [CHAIN], start, agents)
    ensures InStep(SNAPSHOT, [CHAIN], agents, "a") && InStep(SNAPSHOT, [], agents, "b")
  {
    BuildsDiffer("a");
    BuildsDiffer("b");
    Order();
    hide *;
    start, agents := EntryAhead(SNAPSHOT, [], [CHAIN]);
  }

  lemma {:induction false} BuildsDiffer(n: string)
    requires n == "a" || n == "b"
    ensures Build(SNAPSHOT, n, []).Ok? && Build(SNAPSHOT, n, [CHAIN]).Ok? && Differs(SNAPSHOT, [], [CHAIN], n)
  {
    BothDiffer(n);
    hide Build;
  }
}
