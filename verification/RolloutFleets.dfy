/** The fleets a rollout passes through, in terms of what each node builds before and after. */
module RolloutFleets {
  import opened Outcomes
  import opened Fleet
  import opened NodeConfig
  import opened RolloutOrder

  /** The agent runs exactly what this chain set builds for it. */
  ghost predicate InStep(snap: Snapshot, enabled: seq<Chain>, agents: Agents, n: string) {
    hide Build;
    n in agents && Build(snap, n, enabled) == Ok(agents[n])
  }

  ghost predicate SameAt(start: Agents, agents: Agents, n: string) {
    (n in agents <==> n in start) && (n in start ==> agents[n] == start[n])
  }

  /** `before` and `after` hold what each of these nodes builds under the two chain sets. */
  ghost predicate Planned(snap: Snapshot, nodes: set<string>, oldChains: seq<Chain>, newChains: seq<Chain>, before: Agents, after: Agents) {
    hide Build;
    forall n | n in nodes ::
      && n in before && Build(snap, n, oldChains) == Ok(before[n])
      && n in after && Build(snap, n, newChains) == Ok(after[n])
  }

  /** The fleets that pushing to these nodes in turn passes through. */
  ghost function Fleets(agents: Agents, nodes: seq<string>, configs: Agents): seq<Agents>
    requires forall n | n in nodes :: n in configs
  {
    seq(|nodes|, m requires 0 <= m < |nodes| => PushAll(agents, nodes[..m + 1], configs))
  }

  lemma {:induction false} FleetsLonger(agents: Agents, nodes: seq<string>, n: string, configs: Agents)
    requires n in configs && forall n | n in nodes :: n in configs
    ensures forall m | m in nodes + [n] :: m in configs
    ensures PushAll(agents, nodes + [n], configs) == PushAll(agents, nodes, configs)[n := configs[n]]
    ensures Fleets(agents, nodes + [n], configs) == Fleets(agents, nodes, configs) + [PushAll(agents, nodes + [n], configs)]
  {
    PushLonger(agents, nodes, n, configs);
    hide PushAll;
    var longer := nodes + [n];
    forall m | m in longer ensures m in configs {
    }
    var all, some := Fleets(agents, longer, configs), Fleets(agents, nodes, configs);
    forall m: nat | m < |nodes| ensures all[m] == some[m] {
      assert longer[..m + 1] == nodes[..m + 1];
    }
    assert longer[..|nodes| + 1] == longer;
    assert all == some + [PushAll(agents, longer, configs)];
  }

  lemma {:induction false} PushLonger(agents: Agents, nodes: seq<string>, n: string, configs: Agents)
    requires n in configs && forall n | n in nodes :: n in configs
    ensures forall m | m in nodes + [n] :: m in configs
    ensures PushAll(agents, nodes + [n], configs) == PushAll(agents, nodes, configs)[n := configs[n]]
  {
    assert (nodes + [n])[..|nodes|] == nodes;
  }

  // ----- A fleet part of the way -----

  /** The first m of the push nodes, in their order, run the new configuration; every other agent
      is as it was at the start, or runs what it built before. */
  ghost predicate CutAt(snap: Snapshot, nodes: seq<string>, oldChains: seq<Chain>, newChains: seq<Chain>,
                        start: Agents, agents: Agents, m: nat)
    requires m <= |nodes|
  {
    && (forall n | n in nodes[..m] :: InStep(snap, newChains, agents, n))
    && (forall n | n !in nodes[..m] :: SameAt(start, agents, n) || (n in nodes && InStep(snap, oldChains, agents, n)))
  }

  ghost predicate Cut(snap: Snapshot, nodes: seq<string>, oldChains: seq<Chain>, newChains: seq<Chain>, start: Agents, agents: Agents) {
    exists m | 0 <= m <= |nodes| :: CutAt(snap, nodes, oldChains, newChains, start, agents, m)
  }

  /** The first c nodes were changed, and going back from the last of them each was taken back, or
      not where that failed. */
  ghost predicate Undone(snap: Snapshot, nodes: seq<string>, oldChains: seq<Chain>, newChains: seq<Chain>,
                         start: Agents, agents: Agents, c: nat, oks: seq<bool>)
    requires |oks| <= c <= |nodes|
  {
    && (forall j | 0 <= j < c :: InStep(snap, if TakenBack(c, oks, j) then oldChains else newChains, agents, nodes[j]))
    && (forall n | n !in nodes[..c] :: SameAt(start, agents, n))
  }

  predicate TakenBack(c: nat, oks: seq<bool>, j: nat)
    requires j < c
  {
    c - 1 - j < |oks| && oks[c - 1 - j]
  }

  ghost predicate Reached(snap: Snapshot, nodes: seq<string>, oldChains: seq<Chain>, newChains: seq<Chain>,
                          start: Agents, agents: Agents, orderly: bool) {
    exists c: nat, oks: seq<bool> | |oks| <= c <= |nodes| ::
      Undone(snap, nodes, oldChains, newChains, start, agents, c, oks) && (orderly ==> forall i | 0 <= i < |oks| :: oks[i])
  }

  /** A node whose new configuration is news to it. */
  ghost predicate Changes(snap: Snapshot, oldChains: seq<Chain>, newChains: seq<Chain>, start: Agents, n: string) {
    hide Build;
    Build(snap, n, oldChains) != Build(snap, n, newChains) && !InStep(snap, newChains, start, n)
  }

  ghost predicate Differs(snap: Snapshot, oldChains: seq<Chain>, newChains: seq<Chain>, n: string) {
    hide Build;
    Build(snap, n, oldChains) != Build(snap, n, newChains)
  }

  /** A rollback turn that succeeded after one that failed, where both matter. */
  ghost predicate OutOfTurn(snap: Snapshot, nodes: seq<string>, oldChains: seq<Chain>, newChains: seq<Chain>, start: Agents,
                            c: nat, oks: seq<bool>, j: nat, k: nat)
    requires |oks| <= c <= |nodes| && j < k < c
  {
    && TakenBack(c, oks, j) && Differs(snap, oldChains, newChains, nodes[j])
    && !TakenBack(c, oks, k) && Changes(snap, oldChains, newChains, start, nodes[k])
  }

  lemma {:induction false} NewIsNews(snap: Snapshot, nodes: seq<string>, oldChains: seq<Chain>, newChains: seq<Chain>,
                                     start: Agents, agents: Agents, n: string)
    requires InStep(snap, newChains, agents, n) && n in nodes
    ensures Changes(snap, oldChains, newChains, start, n)
            <==> !(SameAt(start, agents, n) || InStep(snap, oldChains, agents, n))
  {
    hide Build;
  }

  lemma {:induction false} OldIsOld(snap: Snapshot, oldChains: seq<Chain>, newChains: seq<Chain>, agents: Agents, n: string)
    requires InStep(snap, oldChains, agents, n)
    ensures Differs(snap, oldChains, newChains, n) <==> !InStep(snap, newChains, agents, n)
  {
    hide Build;
  }

  /** The cut shape survives a rollback, however it fails, exactly when no node whose builds differ
      was taken back after a node still running something new to it was not. */
  lemma {:induction false} UndoneCutIff(snap: Snapshot, nodes: seq<string>, oldChains: seq<Chain>, newChains: seq<Chain>,
                                        start: Agents, agents: Agents, c: nat, oks: seq<bool>)
    requires Distinct(nodes) && |oks| <= c <= |nodes| && Undone(snap, nodes, oldChains, newChains, start, agents, c, oks)
    ensures Cut(snap, nodes, oldChains, newChains, start, agents)
            <==> forall j: nat, k: nat | j < k < c :: !OutOfTurn(snap, nodes, oldChains, newChains, start, c, oks, j, k)
  {
    if Cut(snap, nodes, oldChains, newChains, start, agents) {
      forall j: nat, k: nat | j < k < c ensures !OutOfTurn(snap, nodes, oldChains, newChains, start, c, oks, j, k) {
        CutInTurn(snap, nodes, oldChains, newChains, start, agents, c, oks, j, k);
      }
    }
    if forall j: nat, k: nat | j < k < c :: !OutOfTurn(snap, nodes, oldChains, newChains, start, c, oks, j, k) {
      var m := LastNew(snap, nodes, oldChains, newChains, start, c, oks, c);
      InTurnCut(snap, nodes, oldChains, newChains, start, agents, c, oks, m);
    }
  }

  lemma {:induction false} CutInTurn(snap: Snapshot, nodes: seq<string>, oldChains: seq<Chain>, newChains: seq<Chain>,
                                     start: Agents, agents: Agents, c: nat, oks: seq<bool>, j: nat, k: nat)
    requires Distinct(nodes) && |oks| <= c <= |nodes| && Undone(snap, nodes, oldChains, newChains, start, agents, c, oks)
    requires Cut(snap, nodes, oldChains, newChains, start, agents) && j < k < c
    ensures !OutOfTurn(snap, nodes, oldChains, newChains, start, c, oks, j, k)
  {
    hide InStep, SameAt, Changes, Differs;
    var m :| 0 <= m <= |nodes| && CutAt(snap, nodes, oldChains, newChains, start, agents, m);
    if TakenBack(c, oks, j) && !TakenBack(c, oks, k) {
      OldIsOld(snap, oldChains, newChains, agents, nodes[j]);
      NewIsNews(snap, nodes, oldChains, newChains, start, agents, nodes[k]);
      if j < m {
        assert nodes[..m][j] == nodes[j];
      } else {
        assert nodes[k] !in nodes[..m];
      }
    }
  }

  /** One past the last changed node that still runs something new to it. */
  lemma {:induction false} LastNew(snap: Snapshot, nodes: seq<string>, oldChains: seq<Chain>, newChains: seq<Chain>, start: Agents,
                                   c: nat, oks: seq<bool>, b: nat) returns (m: nat)
    requires |oks| <= c <= |nodes| && b <= c
    ensures m <= b
    ensures m > 0 ==> !TakenBack(c, oks, m - 1) && Changes(snap, oldChains, newChains, start, nodes[m - 1])
    ensures forall k | m <= k < b :: TakenBack(c, oks, k) || !Changes(snap, oldChains, newChains, start, nodes[k])
    decreases b
  {
    hide Changes;
    if b == 0 || (!TakenBack(c, oks, b - 1) && Changes(snap, oldChains, newChains, start, nodes[b - 1])) {
      m := b;
    } else {
      m := LastNew(snap, nodes, oldChains, newChains, start, c, oks, b - 1);
    }
  }

  lemma {:induction false} InTurnCut(snap: Snapshot, nodes: seq<string>, oldChains: seq<Chain>, newChains: seq<Chain>,
                                     start: Agents, agents: Agents, c: nat, oks: seq<bool>, m: nat)
    requires |oks| <= c <= |nodes| && Undone(snap, nodes, oldChains, newChains, start, agents, c, oks)
    requires forall j: nat, k: nat | j < k < c :: !OutOfTurn(snap, nodes, oldChains, newChains, start, c, oks, j, k)
    requires m <= c && (m > 0 ==> !TakenBack(c, oks, m - 1) && Changes(snap, oldChains, newChains, start, nodes[m - 1]))
    requires forall k | m <= k < c :: TakenBack(c, oks, k) || !Changes(snap, oldChains, newChains, start, nodes[k])
    ensures CutAt(snap, nodes, oldChains, newChains, start, agents, m)
  {
    hide InStep, SameAt, Changes, Differs;
    forall n | n in nodes[..m] ensures InStep(snap, newChains, agents, n) {
      var j :| 0 <= j < m && nodes[j] == n;
      if TakenBack(c, oks, j) {
        assert j < m - 1 && !OutOfTurn(snap, nodes, oldChains, newChains, start, c, oks, j, m - 1);
        OldIsOld(snap, oldChains, newChains, agents, n);
      }
    }
    forall n | n !in nodes[..m] ensures SameAt(start, agents, n) || (n in nodes && InStep(snap, oldChains, agents, n)) {
      if n in nodes[..c] {
        var j :| 0 <= j < c && nodes[j] == n;
        assert forall i | 0 <= i < m :: nodes[i] in nodes[..m];
        if !TakenBack(c, oks, j) {
          NewIsNews(snap, nodes, oldChains, newChains, start, agents, n);
        }
      }
    }
  }

  /** A rollback no turn of which failed so far keeps the shape. */
  lemma {:induction false} OrderlyCut(snap: Snapshot, nodes: seq<string>, oldChains: seq<Chain>, newChains: seq<Chain>, start: Agents, agents: Agents)
    requires Distinct(nodes) && Reached(snap, nodes, oldChains, newChains, start, agents, true)
    ensures Cut(snap, nodes, oldChains, newChains, start, agents)
  {
    hide Undone, Changes, Differs;
    var c: nat, oks: seq<bool> :| |oks| <= c <= |nodes| && Undone(snap, nodes, oldChains, newChains, start, agents, c, oks)
                                  && forall i | 0 <= i < |oks| :: oks[i];
    forall j: nat, k: nat | j < k < c ensures !OutOfTurn(snap, nodes, oldChains, newChains, start, c, oks, j, k) {
    }
    UndoneCutIff(snap, nodes, oldChains, newChains, start, agents, c, oks);
  }

  // ----- The fleets of pushing forward and back -----

  /** Pushing to the first c nodes and then back to those of them whose turn succeeded. */
  lemma {:induction false} PushedUndone(snap: Snapshot, nodes: seq<string>, oldChains: seq<Chain>, newChains: seq<Chain>,
                                        start: Agents, before: Agents, after: Agents, c: nat, oks: seq<bool>)
    requires Distinct(nodes) && |oks| <= c <= |nodes|
    requires forall n | n in nodes[..c] :: n in before && n in after && Build(snap, n, oldChains) == Ok(before[n]) && Build(snap, n, newChains) == Ok(after[n])
    ensures |Reversed(nodes[..c])| == c
    ensures forall n | n in Picked(Reversed(nodes[..c]), oks) :: n in before
    ensures Undone(snap, nodes, oldChains, newChains, start,
                   PushAll(PushAll(start, nodes[..c], after), Picked(Reversed(nodes[..c]), oks), before), c, oks)
  {
    hide Build;
    var changed := nodes[..c];
    var back := Reversed(changed);
    var picked := Picked(back, oks);
    ReversedNodes(changed);
    PickedMembers(back, oks);
    assert forall i | 0 <= i < c :: back[i] == nodes[c - 1 - i];
    hide Reversed, Picked;
    forall n | n in picked ensures n in before && n in changed {
      var i :| 0 <= i < |oks| && oks[i] && back[i] == n;
      assert changed[c - 1 - i] == n;
    }
    PushAllSpec(start, changed, after);
    PushAllSpec(PushAll(start, changed, after), picked, before);
    hide PushAll, Undone, TakenBack;
    forall j | 0 <= j < c ensures nodes[j] in picked <==> TakenBack(c, oks, j) {
      PickedAtTurn(nodes, c, back, oks, picked, j);
    }
    OverlayUndone(snap, nodes, oldChains, newChains, start, before, after, c, oks, picked, PushAll(PushAll(start, changed, after), picked, before));
  }

  lemma {:induction false} OverlayUndone(snap: Snapshot, nodes: seq<string>, oldChains: seq<Chain>, newChains: seq<Chain>,
                                         start: Agents, before: Agents, after: Agents, c: nat, oks: seq<bool>, picked: seq<string>, agents: Agents)
    requires |oks| <= c <= |nodes|
    requires forall n | n in nodes[..c] :: n in before && n in after && Build(snap, n, oldChains) == Ok(before[n]) && Build(snap, n, newChains) == Ok(after[n])
    requires forall n | n in picked :: n in nodes[..c]
    requires forall n :: n in agents <==> n in start || n in nodes[..c]
    requires forall n | n in agents :: agents[n] == if n in picked then before[n] else if n in nodes[..c] then after[n] else start[n]
    requires forall j | 0 <= j < c :: nodes[j] in picked <==> TakenBack(c, oks, j)
    ensures Undone(snap, nodes, oldChains, newChains, start, agents, c, oks)
  {
    hide Build, TakenBack;
    forall j | 0 <= j < c ensures nodes[j] in nodes[..c] {
      assert nodes[..c][j] == nodes[j];
    }
  }

  lemma {:induction false} PickedAtTurn(nodes: seq<string>, c: nat, back: seq<string>, oks: seq<bool>, picked: seq<string>, j: nat)
    requires Distinct(nodes) && |oks| <= c <= |nodes| && |back| == c && j < c
    requires forall i | 0 <= i < c :: back[i] == nodes[c - 1 - i]
    requires forall n :: n in picked <==> exists i | 0 <= i < |oks| :: oks[i] && back[i] == n
    ensures nodes[j] in picked <==> TakenBack(c, oks, j)
  {
    if TakenBack(c, oks, j) {
      assert oks[c - 1 - j] && back[c - 1 - j] == nodes[j];
    }
    if nodes[j] in picked {
      var i :| 0 <= i < |oks| && oks[i] && back[i] == nodes[j];
      assert c - 1 - i == j;
    }
  }

  /** Every fleet on the way back, whatever turns fail. */
  lemma {:induction false} BackFleets(snap: Snapshot, nodes: seq<string>, oldChains: seq<Chain>, newChains: seq<Chain>,
                                      start: Agents, before: Agents, after: Agents, c: nat, oks: seq<bool>, k: nat)
    requires Distinct(nodes) && |oks| <= c <= |nodes|
    requires forall n | n in nodes[..c] :: n in before && n in after && Build(snap, n, oldChains) == Ok(before[n]) && Build(snap, n, newChains) == Ok(after[n])
    requires |Reversed(nodes[..c])| == c && forall n | n in Picked(Reversed(nodes[..c]), oks) :: n in before
    requires k < |Picked(Reversed(nodes[..c]), oks)|
    ensures Reached(snap, nodes, oldChains, newChains, start,
                    Fleets(PushAll(start, nodes[..c], after), Picked(Reversed(nodes[..c]), oks), before)[k], forall i | 0 <= i < |oks| :: oks[i])
  {
    hide Build, Reversed, Picked, PushAll, Undone;
    var t := PickedUpTo(Reversed(nodes[..c]), oks, k + 1);
    PushedUndone(snap, nodes, oldChains, newChains, start, before, after, c, oks[..t]);
  }

  /** Every fleet on the way forward. */
  lemma {:induction false} ForwardFleets(snap: Snapshot, nodes: seq<string>, oldChains: seq<Chain>, newChains: seq<Chain>,
                                         start: Agents, after: Agents, c: nat, k: nat)
    requires Distinct(nodes) && k < c <= |nodes|
    requires forall n | n in nodes[..c] :: n in after && Build(snap, n, newChains) == Ok(after[n])
    ensures Reached(snap, nodes, oldChains, newChains, start, Fleets(start, nodes[..c], after)[k], true)
  {
    hide Build, PushAll;
    assert nodes[..c][..k + 1] == nodes[..k + 1];
    var agents := PushAll(start, nodes[..k + 1], after);
    PushAllSpec(start, nodes[..k + 1], after);
    var none: seq<bool> := [];
    assert Undone(snap, nodes, oldChains, newChains, start, agents, k + 1, none) by {
      forall j | 0 <= j < k + 1 ensures InStep(snap, newChains, agents, nodes[j]) {
        assert nodes[..k + 1][j] == nodes[j] && nodes[..c][j] == nodes[j];
      }
    }
  }

  /** Where a rollback stands after some turns. */
  ghost predicate BackTo(start: Agents, was: seq<Agents>, back: seq<string>, oks: seq<bool>, configs: Agents, agents: Agents, history: seq<Agents>)
    requires |oks| <= |back|
  {
    && (forall n | n in Picked(back, oks) :: n in configs)
    && agents == PushAll(start, Picked(back, oks), configs)
    && history == was + Fleets(start, Picked(back, oks), configs)
  }

  lemma {:induction false} BackStart(start: Agents, was: seq<Agents>, back: seq<string>, configs: Agents)
    ensures BackTo(start, was, back, [], configs, start, was)
  {
  }

  lemma {:induction false} BackIs(start: Agents, was: seq<Agents>, back: seq<string>, oks: seq<bool>, configs: Agents, agents: Agents, history: seq<Agents>)
    requires |oks| <= |back| && BackTo(start, was, back, oks, configs, agents, history)
    ensures forall n | n in Picked(back, oks) :: n in configs
    ensures agents == PushAll(start, Picked(back, oks), configs)
    ensures history == was + Fleets(start, Picked(back, oks), configs)
  {
  }

  lemma {:induction false} BackOn(start: Agents, was: seq<Agents>, back: seq<string>, oks: seq<bool>, configs: Agents,
                                  agents: Agents, history: seq<Agents>, ok: bool)
    requires |oks| < |back| && back[|oks|] in configs && BackTo(start, was, back, oks, configs, agents, history)
    ensures var n := back[|oks|];
            if ok then BackTo(start, was, back, oks + [true], configs, agents[n := configs[n]], history + [agents[n := configs[n]]])
            else BackTo(start, was, back, oks + [false], configs, agents, history)
  {
    PickedNext(back, oks, ok);
    hide Picked;
    if ok {
      FleetsLonger(start, Picked(back, oks), back[|oks|], configs);
      hide PushAll, Fleets;
    }
  }
}
