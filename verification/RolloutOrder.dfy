/** The order in which a rollout touches nodes, and the fleets it passes through. */
module RolloutOrder {
  import opened Fleet
  import opened NodeConfig

  function HopNodes(hops: seq<Hop>): seq<string> {
    seq(|hops|, i requires 0 <= i < |hops| => hops[i].nodeId)
  }

  function AppendUnique(values: seq<string>, value: string): seq<string> {
    if value in values then values else values + [value]
  }

  function AppendAll(acc: seq<string>, nodes: seq<string>): seq<string>
    decreases |nodes|
  {
    if nodes == [] then acc else AppendAll(AppendUnique(acc, nodes[0]), nodes[1..])
  }

  function Reversed(nodes: seq<string>): seq<string> {
    seq(|nodes|, i requires 0 <= i < |nodes| => nodes[|nodes| - 1 - i])
  }

  /** Deploying starts at the exit, so that a hop is ready before anything dials it. */
  function DeployOrder(candidate: Chain, current: Chain): seq<string> {
    AppendAll(AppendAll([], Reversed(HopNodes(candidate.hops))), HopNodes(current.hops))
  }

  /** Disabling starts at the entry, so that a hop is dialled only while it is still there. */
  function DisableOrder(current: Chain): seq<string> {
    AppendAll([], HopNodes(current.hops))
  }

  method OrderForDeploy(candidate: Chain, current: Chain) returns (order: seq<string>)
    ensures order == DeployOrder(candidate, current)
  {
    order := [];
    var nodes := Reversed(HopNodes(candidate.hops));
    for i := 0 to |nodes|
      invariant AppendAll(order, nodes[i..]) == AppendAll([], nodes)
    {
      assert nodes[i..][0] == nodes[i] && nodes[i..][1..] == nodes[i + 1..];
      order := AppendUnique(order, nodes[i]);
    }
    ghost var first := order;
    var rest := HopNodes(current.hops);
    for i := 0 to |rest|
      invariant AppendAll(order, rest[i..]) == AppendAll(first, rest)
    {
      assert rest[i..][0] == rest[i] && rest[i..][1..] == rest[i + 1..];
      order := AppendUnique(order, rest[i]);
    }
  }

  method OrderForDisable(current: Chain) returns (order: seq<string>)
    ensures order == DisableOrder(current)
  {
    order := [];
    var nodes := HopNodes(current.hops);
    for i := 0 to |nodes|
      invariant AppendAll(order, nodes[i..]) == AppendAll([], nodes)
    {
      assert nodes[i..][0] == nodes[i] && nodes[i..][1..] == nodes[i + 1..];
      order := AppendUnique(order, nodes[i]);
    }
  }

  ghost predicate Distinct(nodes: seq<string>) {
    forall i, j | 0 <= i < j < |nodes| :: nodes[i] != nodes[j]
  }

  lemma {:induction false} AppendAllKeeps(acc: seq<string>, nodes: seq<string>)
    requires Distinct(acc)
    ensures Distinct(AppendAll(acc, nodes))
    ensures acc <= AppendAll(acc, nodes)
    ensures forall n :: n in AppendAll(acc, nodes) <==> n in acc || n in nodes
    decreases |nodes|
  {
    if nodes != [] {
      AppendAllKeeps(AppendUnique(acc, nodes[0]), nodes[1..]);
      assert nodes == [nodes[0]] + nodes[1..];
    }
  }

  lemma {:induction false} AppendAllDistinct(acc: seq<string>, nodes: seq<string>)
    requires Distinct(acc + nodes)
    ensures AppendAll(acc, nodes) == acc + nodes
    decreases |nodes|
  {
    if nodes != [] {
      assert (acc + nodes)[|acc|] == nodes[0];
      assert forall i | 0 <= i < |acc| :: (acc + nodes)[i] == acc[i];
      assert (acc + [nodes[0]]) + nodes[1..] == acc + nodes;
      AppendAllDistinct(acc + [nodes[0]], nodes[1..]);
    }
  }

  /** A deploy order lists each node once: the candidate's hops from the exit to the entry, and
      then the nodes only the current chain uses. */
  lemma {:induction false} DeployOrderShape(candidate: Chain, current: Chain)
    requires ValidChain(candidate)
    ensures Distinct(DeployOrder(candidate, current))
    ensures Reversed(HopNodes(candidate.hops)) <= DeployOrder(candidate, current)
    ensures forall n :: n in DeployOrder(candidate, current)
                        <==> n in HopNodes(candidate.hops) || n in HopNodes(current.hops)
  {
    var nodes := HopNodes(candidate.hops);
    var back := Reversed(nodes);
    ReversedNodes(nodes);
    assert [] + back == back;
    hide Reversed, HopNodes, AppendAll;
    AppendAllDistinct([], back);
    AppendAllKeeps(back, HopNodes(current.hops));
  }

  lemma {:induction false} ReversedNodes(nodes: seq<string>)
    ensures Distinct(nodes) ==> Distinct(Reversed(nodes))
    ensures forall n :: n in Reversed(nodes) <==> n in nodes
  {
    var back := Reversed(nodes);
    assert |back| == |nodes| && forall i | 0 <= i < |nodes| :: back[i] == nodes[|nodes| - 1 - i];
    hide Reversed;
    forall n ensures n in back <==> n in nodes {
      if n in nodes {
        var i :| 0 <= i < |nodes| && nodes[i] == n;
        assert back[|nodes| - 1 - i] == n;
      }
    }
  }

  lemma {:induction false} DisableOrderShape(current: Chain)
    requires ValidChain(current)
    ensures DisableOrder(current) == HopNodes(current.hops) && Distinct(DisableOrder(current))
  {
    var nodes := HopNodes(current.hops);
    assert [] + nodes == nodes;
    AppendAllDistinct([], nodes);
  }

  // ----- Pushing configurations one node at a time -----

  type Agents = map<string, NodeDocument>

  /** The nodes a rollout pushes to; the others fetch their configuration themselves. */
  function PushNodes(order: seq<string>, push: set<string>): seq<string> {
    if order == [] then []
    else
      var last := order[|order| - 1];
      PushNodes(order[..|order| - 1], push) + if last in push then [last] else []
  }

  function PushAll(agents: Agents, nodes: seq<string>, configs: Agents): Agents
    requires forall n | n in nodes :: n in configs
  {
    if nodes == [] then agents
    else
      var last := nodes[|nodes| - 1];
      PushAll(agents, nodes[..|nodes| - 1], configs)[last := configs[last]]
  }

  lemma {:induction false} PushAllSpec(agents: Agents, nodes: seq<string>, configs: Agents)
    requires forall n | n in nodes :: n in configs
    ensures forall n :: n in PushAll(agents, nodes, configs) <==> n in agents || n in nodes
    ensures forall n | n in PushAll(agents, nodes, configs) ::
              PushAll(agents, nodes, configs)[n] == if n in nodes then configs[n] else agents[n]
  {
    if nodes != [] {
      PushAllSpec(agents, nodes[..|nodes| - 1], configs);
      assert nodes == nodes[..|nodes| - 1] + [nodes[|nodes| - 1]];
    }
  }

  lemma {:induction false} PushNodesSpec(order: seq<string>, push: set<string>)
    ensures forall n :: n in PushNodes(order, push) <==> n in order && n in push
    ensures Distinct(order) ==> Distinct(PushNodes(order, push))
  {
    if order != [] {
      PushNodesSpec(order[..|order| - 1], push);
      assert order == order[..|order| - 1] + [order[|order| - 1]];
    }
  }

  lemma {:induction false} PushNodesPrefix(order: seq<string>, push: set<string>, p: nat)
    requires p <= |order|
    ensures PushNodes(order[..p], push) <= PushNodes(order, push)
    decreases |order|
  {
    if p < |order| {
      assert order[..|order| - 1][..p] == order[..p];
      PushNodesPrefix(order[..|order| - 1], push, p);
    } else {
      assert order[..p] == order;
    }
  }

  // ----- Taking changes back, one success or failure at a time -----

  /** The nodes, among the first, whose turn succeeded. */
  function Picked(nodes: seq<string>, oks: seq<bool>): seq<string>
    requires |oks| <= |nodes|
    decreases |oks|
  {
    if oks == [] then []
    else
      var last := |oks| - 1;
      Picked(nodes, oks[..last]) + if oks[last] then [nodes[last]] else []
  }

  lemma {:induction false} PickedNext(nodes: seq<string>, oks: seq<bool>, ok: bool)
    requires |oks| < |nodes|
    ensures Picked(nodes, oks + [ok]) == if ok then Picked(nodes, oks) + [nodes[|oks|]] else Picked(nodes, oks)
  {
    assert (oks + [ok])[..|oks|] == oks;
  }

  lemma {:induction false} PickedMembers(nodes: seq<string>, oks: seq<bool>)
    requires |oks| <= |nodes|
    ensures forall n :: n in Picked(nodes, oks) <==> exists i | 0 <= i < |oks| :: oks[i] && nodes[i] == n
    decreases |oks|
  {
    if oks != [] {
      var last := |oks| - 1;
      PickedMembers(nodes, oks[..last]);
      forall n ensures n in Picked(nodes, oks) <==> exists i | 0 <= i < |oks| :: oks[i] && nodes[i] == n {
        if n in Picked(nodes, oks[..last]) {
          var i :| 0 <= i < last && oks[..last][i] && nodes[i] == n;
          assert oks[i] && nodes[i] == n;
        }
        if i :| 0 <= i < |oks| && oks[i] && nodes[i] == n {
          if i < last {
            assert oks[..last][i] && nodes[i] == n;
          }
        }
      }
    }
  }

  lemma {:induction false} PickedAll(nodes: seq<string>, oks: seq<bool>)
    requires |oks| <= |nodes| && forall i | 0 <= i < |oks| :: oks[i]
    ensures Picked(nodes, oks) == nodes[..|oks|]
    decreases |oks|
  {
    if oks != [] {
      PickedAll(nodes, oks[..|oks| - 1]);
    }
  }

  /** What was picked so far is what the first turns picked. */
  lemma {:induction false} PickedUpTo(nodes: seq<string>, oks: seq<bool>, k: nat) returns (t: nat)
    requires |oks| <= |nodes| && k <= |Picked(nodes, oks)|
    ensures t <= |oks| && Picked(nodes, oks[..t]) == Picked(nodes, oks)[..k]
    decreases |oks|
  {
    if k == |Picked(nodes, oks)| {
      t := |oks|;
      assert oks[..t] == oks && Picked(nodes, oks)[..k] == Picked(nodes, oks);
    } else {
      var short := oks[..|oks| - 1];
      t := PickedUpTo(nodes, short, k);
      assert short[..t] == oks[..t];
      assert Picked(nodes, short)[..k] == Picked(nodes, oks)[..k];
    }
  }
}
