/** Ordered chain deployment and disabling: plan, apply node by node, roll back or commit. */
module Rollout {
  import opened Outcomes
  import opened Fleet
  import opened NodeConfig
  import opened RolloutPlan
  import opened RolloutOrder
  import opened RolloutFleets

  datatype Verdict =
    | Rejected                      // nothing was applied
    | Done
    | Unrecorded                    // applied, but the last store write failed
    | Reverted                      // an apply failed and every change was taken back
    | RevertFailed                  // an apply failed and so did taking it back
    | NotCommitted(restored: bool)  // the store refused the chain after every apply succeeded

  /** How the calls of one rollout fare, node by node: reading the row, recording a configuration to be
      fetched, applying one, writing the row of a changed node, and applying the old one again; then
      what the store and the preflight say. */
  datatype Luck = Luck(
    readable: string -> bool, saves: string -> bool, applies: string -> bool, writes: string -> bool, reapplies: string -> bool,
    refs: bool, preflight: bool, commits: bool, records: bool)

  /** The turn of a node succeeds. */
  predicate Goes(n: string, push: set<string>, luck: Luck) {
    luck.readable(n) && if n in push then luck.applies(n) else luck.saves(n)
  }

  /** How far the order is worked through. */
  function Stop(order: seq<string>, push: set<string>, luck: Luck): (k: nat)
    ensures k <= |order|
    ensures forall i | 0 <= i < k :: Goes(order[i], push, luck)
    ensures k < |order| ==> !Goes(order[k], push, luck)
  {
    if order == [] || !Goes(order[0], push, luck) then 0 else 1 + Stop(order[1..], push, luck)
  }

  lemma {:induction false} StopIs(order: seq<string>, push: set<string>, luck: Luck, k: nat)
    requires k <= |order| && (forall i | 0 <= i < k :: Goes(order[i], push, luck)) && (k < |order| ==> !Goes(order[k], push, luck))
    ensures Stop(order, push, luck) == k
  {
  }

  lemma {:induction false} PushNodesNext(order: seq<string>, push: set<string>, i: nat)
    requires i < |order|
    ensures PushNodes(order[..i + 1], push) == PushNodes(order[..i], push) + if order[i] in push then [order[i]] else []
  {
    assert order[..i + 1][..i] == order[..i];
  }

  /** The node rows once these nodes were changed, where the write succeeded. */
  function Recorded(rows: Agents, changed: seq<string>, configs: Agents, luck: Luck): Agents
    requires forall n | n in changed :: n in configs
  {
    rows + map n | n in changed && luck.writes(n) :: configs[n]
  }

  lemma {:induction false} RecordedNext(rows: Agents, changed: seq<string>, n: string, configs: Agents, luck: Luck)
    requires n in configs && forall n | n in changed :: n in configs
    ensures forall m | m in changed + [n] :: m in configs
    ensures var was := Recorded(rows, changed, configs, luck);
            Recorded(rows, changed + [n], configs, luck) == if luck.writes(n) then was[n := configs[n]] else was
  {
    var was := Recorded(rows, changed, configs, luck);
    assert Recorded(rows, changed + [n], configs, luck) == if luck.writes(n) then was[n := configs[n]] else was;
  }

  /** The row of each of these nodes carries what the new chains build, where its write succeeded, and
      every other row is as it was. Taking changes back does not take rows back. */
  ghost predicate RowsWritten(snap: Snapshot, nodes: seq<string>, newChains: seq<Chain>, luck: Luck, rows: Agents, rows': Agents) {
    hide Build;
    forall n :: if n in nodes && luck.writes(n) then n in rows' && Build(snap, n, newChains) == Ok(rows'[n]) else SameAt(rows, rows', n)
  }

  lemma {:induction false} RecordedRows(snap: Snapshot, rows: Agents, changed: seq<string>, newChains: seq<Chain>, configs: Agents, luck: Luck)
    requires forall n | n in changed :: n in configs && Build(snap, n, newChains) == Ok(configs[n])
    ensures RowsWritten(snap, changed, newChains, luck, rows, Recorded(rows, changed, configs, luck))
  {
    hide Build;
  }

  /** Where an ordered apply stands after these nodes. */
  ghost predicate Progress(start: Agents, rows: Agents, was: seq<Agents>, changed: seq<string>, configs: Agents, luck: Luck,
                           agents: Agents, rows': Agents, history: seq<Agents>)
  {
    && (forall n | n in changed :: n in configs)
    && agents == PushAll(start, changed, configs)
    && history == was + Fleets(start, changed, configs)
    && rows' == Recorded(rows, changed, configs, luck)
  }

  lemma {:induction false} NoProgress(agents: Agents, rows: Agents, history: seq<Agents>, configs: Agents, luck: Luck)
    ensures Progress(agents, rows, history, [], configs, luck, agents, rows, history)
  {
  }

  lemma {:induction false} ProgressIs(start: Agents, rows: Agents, was: seq<Agents>, changed: seq<string>, configs: Agents, luck: Luck,
                                      agents: Agents, rows': Agents, history: seq<Agents>)
    requires Progress(start, rows, was, changed, configs, luck, agents, rows', history)
    ensures forall n | n in changed :: n in configs
    ensures agents == PushAll(start, changed, configs) && history == was + Fleets(start, changed, configs)
    ensures rows' == Recorded(rows, changed, configs, luck)
  {
  }

  lemma {:induction false} NextProgress(start: Agents, rows: Agents, was: seq<Agents>, changed: seq<string>, configs: Agents, luck: Luck,
                                        agents: Agents, rows': Agents, history: seq<Agents>, n: string)
    requires n in configs && Progress(start, rows, was, changed, configs, luck, agents, rows', history)
    ensures var next := agents[n := configs[n]];
            Progress(start, rows, was, changed + [n], configs, luck, next,
                     if luck.writes(n) then rows'[n := configs[n]] else rows', history + [next])
  {
    FleetsLonger(start, changed, n, configs);
    RecordedNext(rows, changed, n, configs, luck);
    hide PushAll, Fleets, Recorded;
  }

  /** Which turns of a rollback succeed, the last changed node first. */
  function Turns(changed: seq<string>, luck: Luck): (oks: seq<bool>)
    ensures |oks| == |changed|
  {
    seq(|changed|, i requires 0 <= i < |changed| => luck.reapplies(changed[|changed| - 1 - i]))
  }

  predicate AllGood(oks: seq<bool>, i: nat)
    requires i <= |oks|
  {
    forall k | 0 <= k < i :: oks[k]
  }

  lemma {:induction false} GoodNext(oks: seq<bool>, i: nat)
    requires i < |oks|
    ensures AllGood(oks, i + 1) <==> AllGood(oks, i) && oks[i]
  {
  }

  lemma {:induction false} NoneBad(oks: seq<bool>)
    ensures AllGood(oks, 0)
  {
  }

  lemma {:induction false} TurnAt(changed: seq<string>, luck: Luck, i: nat)
    requires i < |changed|
    ensures |Reversed(changed)| == |changed|
    ensures Turns(changed, luck)[i] == luck.reapplies(changed[|changed| - 1 - i])
    ensures Reversed(changed)[i] == changed[|changed| - 1 - i] && changed[|changed| - 1 - i] in changed
  {
  }

  lemma {:induction false} TurnsBack(changed: seq<string>, luck: Luck)
    ensures |Reversed(changed)| == |changed|
    ensures var oks := Turns(changed, luck);
            && (AllGood(oks, |oks|) <==> forall n | n in changed :: luck.reapplies(n))
            && (AllGood(oks, |oks|) <==> forall i | 0 <= i < |oks| :: oks[i])
  {
    var oks := Turns(changed, luck);
    forall n | n in changed && AllGood(oks, |oks|) ensures luck.reapplies(n) {
      var i :| 0 <= i < |changed| && changed[i] == n;
      assert oks[|changed| - 1 - i];
    }
  }

  class Service {
    /** The tables that do not change during a rollout, and the nodes driven by push. */
    const snap: Snapshot
    const push: set<string>
    var chains: seq<Chain>
    /** What each agent runs. */
    var agents: Agents
    /** The configuration whose hash each node row carries. */
    var rows: Agents
    /** Every fleet that existed since construction. */
    ghost var history: seq<Agents>

    constructor (snap: Snapshot, push: set<string>, chains: seq<Chain>, agents: Agents, rows: Agents)
      ensures this.snap == snap && this.push == push && this.chains == chains && this.agents == agents && this.rows == rows
    {
      this.snap, this.push, this.chains, this.agents, this.rows := snap, push, chains, agents, rows;
      this.history := [agents];
    }

    /** The agent runs exactly what the committed store builds. */
    ghost predicate Synced(n: string)
      reads this
    {
      InStep(snap, EnabledChains(chains), agents, n)
    }

    /** One apply call: a failed one is taken to leave the agent as it was. */
    method ApplyConfig(n: string, config: NodeDocument, ok: bool)
      modifies this`agents, this`history
      ensures !ok ==> agents == old(agents) && history == old(history)
      ensures ok ==> agents == old(agents)[n := config] && history == old(history) + [agents]
    {
      if ok {
        agents := agents[n := config];
        history := history + [agents];
      }
    }

    /** The turn of one node. */
    method ApplyNode(n: string, config: NodeDocument, luck: Luck) returns (ok: bool)
      modifies this`agents, this`rows, this`history
      ensures ok <==> Goes(n, push, luck)
      ensures agents == if ok && n in push then old(agents)[n := config] else old(agents)
      ensures history == if ok && n in push then old(history) + [agents] else old(history)
      ensures rows == if ok && n in push && luck.writes(n) then old(rows)[n := config] else old(rows)
    {
      if !luck.readable(n) {
        return false;
      }
      if n !in push {
        return luck.saves(n);
      }
      ApplyConfig(n, config, luck.applies(n));
      if !luck.applies(n) {
        return false;
      }
      if luck.writes(n) {
        rows := rows[n := config];
      }
      return true;
    }

    method ApplyOrdered(order: seq<string>, configs: Agents, luck: Luck) returns (changed: seq<string>, ok: bool)
      requires Distinct(order) && forall n | n in order :: n in configs
      modifies this`agents, this`rows, this`history
      ensures changed == PushNodes(order[..Stop(order, push, luck)], push) <= PushNodes(order, push)
      ensures ok <==> forall n | n in order :: Goes(n, push, luck)
      ensures ok ==> changed == PushNodes(order, push)
      ensures forall n | n in changed :: n in configs
      ensures agents == PushAll(old(agents), changed, configs)
      ensures history == old(history) + Fleets(old(agents), changed, configs)
      ensures rows == Recorded(old(rows), changed, configs, luck)
    {
      changed, ok := [], true;
      assert PushNodes(order[..0], push) == [];
      NoProgress(agents, rows, history, configs, luck);
      hide Stop, Goes, PushNodes, PushAll, Fleets, Recorded, Progress;
      for i := 0 to |order|
        invariant forall k | 0 <= k < i :: Goes(order[k], push, luck)
        invariant changed == PushNodes(order[..i], push)
        invariant Progress(old(agents), old(rows), old(history), changed, configs, luck, agents, rows, history)
      {
        PushNodesNext(order, push, i);
        PushNodesPrefix(order, push, i);
        var n := order[i];
        ghost var here, written, so := agents, rows, history;
        ok := ApplyNode(n, configs[n], luck);
        if !ok {
          StopIs(order, push, luck, i);
          ProgressIs(old(agents), old(rows), old(history), changed, configs, luck, agents, rows, history);
          return;
        }
        if n in push {
          NextProgress(old(agents), old(rows), old(history), changed, configs, luck, here, written, so, n);
          changed := changed + [n];
        }
      }
      StopIs(order, push, luck, |order|);
      ProgressIs(old(agents), old(rows), old(history), changed, configs, luck, agents, rows, history);
      assert order[..|order|] == order;
    }

    /** Goes on after a failure; `oks` records which re-applies succeeded. */
    method Rollback(changed: seq<string>, configs: Agents, luck: Luck) returns (ok: bool, ghost oks: seq<bool>)
      requires forall n | n in changed :: n in configs
      modifies this`agents, this`history
      ensures oks == Turns(changed, luck) && |oks| == |Reversed(changed)|
      ensures ok <==> forall n | n in changed :: luck.reapplies(n)
      ensures forall n | n in Picked(Reversed(changed), oks) :: n in configs
      ensures agents == PushAll(old(agents), Picked(Reversed(changed), oks), configs)
      ensures history == old(history) + Fleets(old(agents), Picked(Reversed(changed), oks), configs)
    {
      hide Reversed, BackTo, PushAll, Fleets, Picked, Turns, AllGood;
      ok, oks := true, Turns(changed, luck);
      ghost var back := Reversed(changed);
      TurnsBack(changed, luck);
      BackStart(agents, history, back, configs);
      assert oks[..0] == [];
      NoneBad(oks);
      for i := 0 to |changed|
        invariant ok <==> AllGood(oks, i)
        invariant BackTo(old(agents), old(history), back, oks[..i], configs, agents, history)
      {
        GoodNext(oks, i);
        TurnAt(changed, luck, i);
        var n := changed[|changed| - 1 - i];
        ghost var here, so := agents, history;
        var applied := luck.reapplies(n);
        ApplyConfig(n, configs[n], applied);
        assert back[i] == n && oks[i] == applied;
        BackOn(old(agents), old(history), back, oks[..i], configs, here, so, applied);
        assert oks[..i + 1] == oks[..i] + [applied];
        ok := ok && applied;
      }
      assert oks[..|changed|] == oks;
      BackIs(old(agents), old(history), back, oks, configs, agents, history);
    }

    /** The old and new configuration of every node on the old or the new hops, and the order. */
    method PlanConfigs(current: Chain, candidate: Chain, oldChains: seq<Chain>, newChains: seq<Chain>, disabling: bool)
      returns (ok: bool, before: Agents, after: Agents, order: seq<string>)
      ensures order == if disabling then DisableOrder(current) else DeployOrder(candidate, current)
      ensures ok ==> Planned(snap, HopSet(current) + if disabling then {} else HopSet(candidate), oldChains, newChains, before, after)
      ensures ok <==> AllBuild(snap, HopSet(current) + (if disabling then {} else HopSet(candidate)), oldChains, newChains)
    {
      hide Build;
      order := if disabling then [] else [];
      if disabling {
        order := OrderForDisable(current);
      } else {
        order := OrderForDeploy(candidate, current);
      }
      ghost var nodeIds := HopSet(current) + if disabling then {} else HopSet(candidate);
      var todo := HopSet(current) + if disabling then {} else HopSet(candidate);
      before, after := map[], map[];
      while todo != {}
        invariant todo <= nodeIds
        invariant Planned(snap, nodeIds - todo, oldChains, newChains, before, after)
        decreases |todo|
      {
        var n :| n in todo;
        var oldConfig := BuildWithChains(snap, n, oldChains);
        if oldConfig.Err? {
          return false, before, after, order;
        }
        var newConfig := BuildWithChains(snap, n, newChains);
        if newConfig.Err? {
          return false, before, after, order;
        }
        before, after := before[n := oldConfig.value], after[n := newConfig.value];
        todo := todo - {n};
      }
      assert nodeIds - todo == nodeIds;
      return true, before, after, order;
    }

    /** Takes every change of a run back, as far as that succeeds. */
    method Revert(changed: seq<string>, before: Agents, ghost all: seq<string>, ghost oldChains: seq<Chain>, ghost newChains: seq<Chain>,
                  ghost start: Agents, ghost after: Agents, ghost was: seq<Agents>, luck: Luck) returns (restored: bool)
      requires Distinct(all) && changed <= all
      requires forall n | n in changed :: n in before && n in after && Build(snap, n, oldChains) == Ok(before[n]) && Build(snap, n, newChains) == Ok(after[n])
      requires agents == PushAll(start, changed, after) && Ran(snap, all, oldChains, newChains, start, was, history, true)
      modifies this`agents, this`history
      ensures Ran(snap, all, oldChains, newChains, start, was, history, restored)
      ensures restored <==> forall n | n in changed :: luck.reapplies(n)
      ensures restored ==> SameWhereInStep(snap, oldChains, start, agents)
      ensures !restored ==> HalfUndone(snap, all, oldChains, newChains, start, agents)
    {
      hide Build, Reached, Undone, PushAll, Reversed, Picked, Ran, SameWhereInStep;
      ghost var c := |changed|;
      assert changed == all[..c];
      ghost var there := history;
      ghost var oks;
      restored, oks := Rollback(changed, before, luck);
      TurnsBack(changed, luck);
      RanBack(snap, all, oldChains, newChains, start, before, after, c, oks, was, there, history);
      PushedUndone(snap, all, oldChains, newChains, start, before, after, c, oks);
      if restored {
        PickedAll(Reversed(changed), oks);
        assert Reversed(changed)[..|oks|] == Reversed(changed);
        RollbackRestores(snap, oldChains, start, changed, before, after);
      }
    }

    /** Applies the planned configurations in order and takes them back when an apply fails. */
    method Execute(order: seq<string>, ghost nodes: set<string>, oldChains: seq<Chain>, newChains: seq<Chain>, before: Agents, after: Agents, luck: Luck)
      returns (changed: seq<string>, failure: Option<Verdict>)
      requires Distinct(order) && (forall n | n in order :: n in nodes)
      requires Planned(snap, nodes, oldChains, newChains, before, after)
      modifies this`agents, this`rows, this`history
      ensures failure.None? ==>
                && changed == PushNodes(order, push)
                && (forall n | n in changed :: n in before && n in after && Build(snap, n, oldChains) == Ok(before[n]))
                && agents == PushAll(old(agents), changed, after)
      ensures failure.Some? ==> failure.value.Reverted? || failure.value.RevertFailed?
      ensures failure.None? <==> forall n | n in order :: Goes(n, push, luck)
      ensures failure == Some(RevertFailed) <==>
                !(forall n | n in order :: Goes(n, push, luck))
                && exists n | n in PushNodes(order[..Stop(order, push, luck)], push) :: !luck.reapplies(n)
      ensures failure == Some(Reverted) ==> SameWhereInStep(snap, oldChains, old(agents), agents)
      ensures Ran(snap, PushNodes(order, push), oldChains, newChains, old(agents), old(history), history, failure != Some(RevertFailed))
      ensures failure == Some(RevertFailed) ==> HalfUndone(snap, PushNodes(order, push), oldChains, newChains, old(agents), agents)
      ensures RowsWritten(snap, PushNodes(order[..Stop(order, push, luck)], push), newChains, luck, old(rows), rows)
    {
      hide Build, PushNodes, Reached, Undone, PushAll, Reversed, Picked, Recorded, RowsWritten;
      PushNodesSpec(order, push);
      ghost var all := PushNodes(order, push);
      var applied;
      changed, applied := ApplyOrdered(order, after, luck);
      ghost var c := |changed|;
      assert changed == all[..c];
      forall n | n in changed
        ensures n in before && n in after && Build(snap, n, oldChains) == Ok(before[n]) && Build(snap, n, newChains) == Ok(after[n])
      {
        assert n in all;
      }
      RecordedRows(snap, old(rows), changed, newChains, after, luck);
      RanForward(snap, all, oldChains, newChains, old(agents), after, c, old(history), history);
      if applied {
        return changed, None;
      }
      var restored := Revert(changed, before, all, oldChains, newChains, old(agents), after, old(history), luck);
      return changed, Some(if restored then Reverted else RevertFailed);
    }

    /** Enables a chain, or replaces an enabled one. */
    method Deploy(request: Chain, luck: Luck) returns (r: Verdict)
      requires snap.Valid() && ValidChains(chains)
      modifies this
      ensures r.Rejected? ==> unchanged(this)
      ensures !r.Rejected? ==> HasChain(old(chains), request.id)
      ensures r.Done? || r.Unrecorded? ==>
                DeployedFrom(snap, push, old(chains), old(agents), Candidate(request, Stored(old(chains), request.id)), chains, agents)
      ensures !r.Done? && !r.Unrecorded? ==> chains == old(chains)
      ensures r.Done? || r.Unrecorded? ==> Replaced(old(chains), request, chains) && RequestRuns(snap, push, request, old(chains), chains, agents)
      ensures DeployVerdict(snap, push, request, old(chains), luck, r)
      ensures r.Reverted? || r == NotCommitted(true) ==>
                SameWhereInStep(snap, EnabledChains(old(chains)), old(agents), agents)
      ensures !r.Rejected? ==>
                var current := Stored(old(chains), request.id);
                var candidate := Candidate(request, current);
                var nodes := PushNodes(DeployOrder(candidate, current), push);
                var newChains := EffectiveChains(old(chains), Some(candidate), false);
                && ValidChain(candidate) && Distinct(nodes)
                && Ran(snap, nodes, EnabledChains(old(chains)), newChains, old(agents), old(history), history,
                       !r.RevertFailed? && r != NotCommitted(false))
                && (r.RevertFailed? || r == NotCommitted(false) ==>
                      HalfUndone(snap, nodes, EnabledChains(old(chains)), newChains, old(agents), agents))
      ensures !r.Rejected? ==>
                var current := Stored(old(chains), request.id);
                var candidate := Candidate(request, current);
                var order := DeployOrder(candidate, current);
                RowsWritten(snap, PushNodes(order[..Stop(order, push, luck)], push),
                            EffectiveChains(old(chains), Some(candidate), false), luck, old(rows), rows)
    {
      hide Build, KeptChains, EnabledChains, EffectiveChains, ReplaceChain, DeployedFrom, SameWhereInStep, DeployOrder, PushAll, ValidChain, Ran,
           HalfUndone, PushNodes, AllBuild, Goes, Stop, Replaced, RequestRuns, HopSet, Stored, HasChain, RowsWritten;
      if !HasChain(chains, request.id) {
        return Rejected;
      }
      var current := Stored(chains, request.id);
      var candidate := Candidate(request, current);
      if !ValidChain(candidate) || !luck.refs {
        return Rejected;
      }
      CurrentChains(chains);
      var oldChains := CollectEffectiveChains(chains, None, false);
      var newChains := CollectEffectiveChains(chains, Some(candidate), false);
      ghost var nodes := HopSet(current) + HopSet(candidate);
      var planned, before, after, order := PlanConfigs(current, candidate, oldChains, newChains, false);
      if !planned || !luck.preflight {
        return Rejected;
      }
      DeployOrderNodes(candidate, current);
      PushNodesSpec(order, push);
      var changed, failure := Execute(order, nodes, oldChains, newChains, before, after, luck);
      if failure.Some? {
        return failure.value;
      }
      StopIs(order, push, luck, |order|);
      assert order[..|order|] == order;
      if !luck.commits {
        forall n | n in changed ensures n in before && Build(snap, n, oldChains) == Ok(before[n]) && Build(snap, n, newChains) == Ok(after[n]) {
          PushNodesSpec(order, push);
        }
        var restored := Revert(changed, before, changed, oldChains, newChains, old(agents), after, old(history), luck);
        return NotCommitted(restored);
      }
      chains := ReplaceChain(chains, candidate);
      DeployedInStep(snap, old(chains), candidate, push, old(agents), order, before, after);
      DeployReplaces(snap, push, old(chains), old(agents), request, chains, agents);
      return if luck.records then Done else Unrecorded;
    }

    /** Takes an enabled chain out of service, from its entry to its exit. When the last store
        write fails the agents are ahead of the store; nothing is taken back. */
    method Disable(id: string, luck: Luck) returns (r: Verdict)
      requires snap.Valid() && ValidChains(chains)
      modifies this
      ensures !r.NotCommitted?
      ensures r.Rejected? ==> unchanged(this)
      ensures !r.Rejected? ==> HasChain(old(chains), id)
      ensures r.Done? && !Stored(old(chains), id).enabled ==> unchanged(this)
      ensures r.Done? && Stored(old(chains), id).enabled ==> DisabledFrom(snap, push, old(chains), old(agents), id, chains, agents)
      ensures !r.Done? ==> chains == old(chains)
      ensures r.Done? ==> SwitchedOff(old(chains), id, chains)
      ensures DisableVerdict(snap, push, id, old(chains), luck, r)
      ensures r.Reverted? ==> SameWhereInStep(snap, EnabledChains(old(chains)), old(agents), agents)
      ensures !r.Rejected? && Stored(old(chains), id).enabled ==>
                var current := Stored(old(chains), id);
                var nodes := PushNodes(DisableOrder(current), push);
                var newChains := EffectiveChains(old(chains), Some(current), true);
                && ValidChain(current) && Distinct(nodes)
                && Ran(snap, nodes, EnabledChains(old(chains)), newChains, old(agents), old(history), history, !r.RevertFailed?)
                && (r.RevertFailed? ==> HalfUndone(snap, nodes, EnabledChains(old(chains)), newChains, old(agents), agents))
      ensures !r.Rejected? && Stored(old(chains), id).enabled ==>
                var current := Stored(old(chains), id);
                var order := DisableOrder(current);
                RowsWritten(snap, PushNodes(order[..Stop(order, push, luck)], push),
                            EffectiveChains(old(chains), Some(current), true), luck, old(rows), rows)
      ensures r.Unrecorded? ==>
                var current := Stored(old(chains), id);
                Ahead(snap, push, current, EnabledChains(chains), EffectiveChains(chains, Some(current), true), old(agents), agents)
    {
      hide Build, KeptChains, EnabledChains, EffectiveChains, SetEnabled, DisabledFrom, SameWhereInStep, DisableOrder, PushAll, Ran, HalfUndone,
           PushNodes, Ahead, AllBuild, Goes, Stop, SwitchedOff, HopSet, RowsWritten;
      if !HasChain(chains, id) {
        return Rejected;
      }
      var current := Stored(chains, id);
      StoredSpec(chains, id);
      if !current.enabled {
        OffAlready(chains, id);
        return Done;
      }
      assert HopSet(current) + {} == HopSet(current);
      CurrentChains(chains);
      var oldChains := CollectEffectiveChains(chains, None, false);
      var newChains := CollectEffectiveChains(chains, Some(current), true);
      var planned, before, after, order := PlanConfigs(current, current, oldChains, newChains, true);
      if !planned {
        return Rejected;
      }
      DisableOrderNodes(current);
      PushNodesSpec(order, push);
      var changed, failure := Execute(order, HopSet(current), oldChains, newChains, before, after, luck);
      if failure.Some? {
        return failure.value;
      }
      if !luck.commits {
        AheadOfStore(snap, push, current, order, oldChains, newChains, old(agents), before, after);
        return Unrecorded;
      }
      chains := SetEnabled(chains, id, false);
      SwitchAll(old(chains), id);
      DisabledInStep(snap, old(chains), id, push, old(agents), order, before, after);
      return Done;
    }
  }

  /** The store still has the chain, and exactly the push nodes on it run what they build without
      it. So these are in step with the store exactly where taking the chain out changes nothing. */
  ghost predicate Ahead(snap: Snapshot, push: set<string>, current: Chain, oldChains: seq<Chain>, newChains: seq<Chain>,
                        start: Agents, agents: Agents) {
    && (forall n | n in push && OnChain(current, n) ::
          && InStep(snap, newChains, agents, n)
          && (InStep(snap, oldChains, agents, n) <==> !Differs(snap, oldChains, newChains, n)))
    && (forall n | !(n in push && OnChain(current, n)) :: SameAt(start, agents, n))
  }

  lemma {:induction false} AheadOfStore(snap: Snapshot, push: set<string>, current: Chain, order: seq<string>,
                                        oldChains: seq<Chain>, newChains: seq<Chain>, start: Agents, before: Agents, after: Agents)
    requires Planned(snap, HopSet(current), oldChains, newChains, before, after)
    requires forall n :: n in order <==> n in HopSet(current)
    ensures forall n | n in PushNodes(order, push) :: n in after
    ensures Ahead(snap, push, current, oldChains, newChains, start, PushAll(start, PushNodes(order, push), after))
  {
    hide Build, PushNodes, PushAll;
    PushNodesSpec(order, push);
    HopSetMembers(current);
    PushAllSpec(start, PushNodes(order, push), after);
  }

  /** What a run added to the history: every fleet in it was reached by pushing to some of the nodes
      in order and taking some back; while no re-apply fails each is a cut of the order. */
  ghost predicate Ran(snap: Snapshot, nodes: seq<string>, oldChains: seq<Chain>, newChains: seq<Chain>, start: Agents,
                      was: seq<Agents>, history: seq<Agents>, orderly: bool) {
    && was <= history
    && (forall k | |was| <= k < |history| :: Reached(snap, nodes, oldChains, newChains, start, history[k], orderly))
    && (orderly ==> forall k | |was| <= k < |history| :: Cut(snap, nodes, oldChains, newChains, start, history[k]))
  }

  /** After a rollback some turn of which failed. */
  ghost predicate HalfUndone(snap: Snapshot, nodes: seq<string>, oldChains: seq<Chain>, newChains: seq<Chain>, start: Agents, agents: Agents) {
    exists c: nat, oks: seq<bool> | |oks| == c <= |nodes| ::
      Undone(snap, nodes, oldChains, newChains, start, agents, c, oks) && exists i | 0 <= i < c :: !oks[i]
  }

  lemma {:induction false} RanForward(snap: Snapshot, nodes: seq<string>, oldChains: seq<Chain>, newChains: seq<Chain>, start: Agents,
                                      after: Agents, c: nat, was: seq<Agents>, history: seq<Agents>)
    requires Distinct(nodes) && c <= |nodes|
    requires forall n | n in nodes[..c] :: n in after && Build(snap, n, newChains) == Ok(after[n])
    requires history == was + Fleets(start, nodes[..c], after)
    ensures Ran(snap, nodes, oldChains, newChains, start, was, history, true)
  {
    hide Build, Reached, Cut;
    forall k | |was| <= k < |history|
      ensures Reached(snap, nodes, oldChains, newChains, start, history[k], true)
      ensures Cut(snap, nodes, oldChains, newChains, start, history[k])
    {
      ForwardFleets(snap, nodes, oldChains, newChains, start, after, c, k - |was|);
      OrderlyCut(snap, nodes, oldChains, newChains, start, history[k]);
    }
  }

  lemma {:induction false} RanBack(snap: Snapshot, nodes: seq<string>, oldChains: seq<Chain>, newChains: seq<Chain>, start: Agents,
                                   before: Agents, after: Agents, c: nat, oks: seq<bool>, was: seq<Agents>, there: seq<Agents>, history: seq<Agents>)
    requires Distinct(nodes) && |oks| <= c <= |nodes|
    requires forall n | n in nodes[..c] :: n in before && n in after && Build(snap, n, oldChains) == Ok(before[n]) && Build(snap, n, newChains) == Ok(after[n])
    requires |Reversed(nodes[..c])| == c && forall n | n in Picked(Reversed(nodes[..c]), oks) :: n in before
    requires Ran(snap, nodes, oldChains, newChains, start, was, there, true)
    requires history == there + Fleets(PushAll(start, nodes[..c], after), Picked(Reversed(nodes[..c]), oks), before)
    ensures Ran(snap, nodes, oldChains, newChains, start, was, history, forall i | 0 <= i < |oks| :: oks[i])
  {
    hide Build, Cut, PushAll, Picked, Reversed, Undone;
    var orderly := forall i | 0 <= i < |oks| :: oks[i];
    forall k | |was| <= k < |history|
      ensures Reached(snap, nodes, oldChains, newChains, start, history[k], orderly)
      ensures orderly ==> Cut(snap, nodes, oldChains, newChains, start, history[k])
    {
      if k < |there| {
        assert history[k] == there[k];
      } else {
        BackFleets(snap, nodes, oldChains, newChains, start, before, after, c, oks, k - |there|);
        hide Reached;
        if orderly {
          OrderlyCut(snap, nodes, oldChains, newChains, start, history[k]);
        }
      }
    }
  }

  ghost predicate SameWhereInStep(snap: Snapshot, enabled: seq<Chain>, agents: Agents, later: Agents) {
    hide Build;
    forall n | InStep(snap, enabled, agents, n) :: n in later && later[n] == agents[n]
  }

  /** A completed deployment: the store holds the candidate, every push node of its old and new
      hops runs what the store builds, and so does every other node that did so before. */
  ghost predicate DeployedFrom(snap: Snapshot, push: set<string>, chains: seq<Chain>, agents: Agents, candidate: Chain,
                               chains': seq<Chain>, agents': Agents)
  {
    hide Build;
    var current := Stored(chains, candidate.id);
    && chains' == ReplaceChain(chains, candidate)
    && (forall n | n in push && (OnChain(candidate, n) || OnChain(current, n)) :: InStep(snap, EnabledChains(chains'), agents', n))
    && (forall n | !OnChain(candidate, n) && !OnChain(current, n) && InStep(snap, EnabledChains(chains), agents, n) ::
          InStep(snap, EnabledChains(chains'), agents', n))
  }

  ghost predicate DisabledFrom(snap: Snapshot, push: set<string>, chains: seq<Chain>, agents: Agents, id: string,
                               chains': seq<Chain>, agents': Agents)
  {
    hide Build;
    var current := Stored(chains, id);
    && chains' == SetEnabled(chains, id, false)
    && (forall n | n in push && OnChain(current, n) :: InStep(snap, EnabledChains(chains'), agents', n))
    && (forall n | !OnChain(current, n) && InStep(snap, EnabledChains(chains), agents, n) ::
          InStep(snap, EnabledChains(chains'), agents', n))
  }

  // ----- The same in terms of the request and the rows -----

  /** The row of the requested chain is enabled, with the name and hops asked for, or its own where
      none are; every other row is as it was. */
  predicate Replaced(chains: seq<Chain>, request: Chain, chains': seq<Chain>) {
    && |chains'| == |chains|
    && forall k | 0 <= k < |chains| ::
         if chains[k].id != request.id then chains'[k] == chains[k]
         else
           && chains'[k].id == request.id && chains'[k].enabled
           && chains'[k].name == (if request.name != "" then request.name else chains[k].name)
           && chains'[k].hops == (if |request.hops| > 0 then request.hops else chains[k].hops)
  }

  /** Every push node on the hops asked for, or else on the stored ones, runs what the rows build, and
      so does every push node the stored hops had before. */
  ghost predicate RequestRuns(snap: Snapshot, push: set<string>, request: Chain, chains: seq<Chain>, chains': seq<Chain>, agents: Agents) {
    && (forall i | 0 <= i < |request.hops| && request.hops[i].nodeId in push :: InStep(snap, EnabledRows(chains'), agents, request.hops[i].nodeId))
    && (forall k, i | 0 <= k < |chains| && chains[k].id == request.id && 0 <= i < |chains[k].hops| && chains[k].hops[i].nodeId in push ::
          InStep(snap, EnabledRows(chains'), agents, chains[k].hops[i].nodeId))
  }

  /** The enabled rows, in order. */
  function EnabledRows(chains: seq<Chain>): seq<Chain> {
    if chains == [] then []
    else if chains[|chains| - 1].enabled then EnabledRows(chains[..|chains| - 1]) + [chains[|chains| - 1]]
    else EnabledRows(chains[..|chains| - 1])
  }

  lemma {:induction false} EnabledRowsAre(chains: seq<Chain>)
    ensures EnabledRows(chains) == EnabledChains(chains)
    ensures forall c :: c in EnabledRows(chains) <==> c in chains && c.enabled
  {
    EnabledSplit([], chains);
    assert [] + chains == chains;
    EnabledMembers(chains);
  }

  lemma {:induction false} EnabledMembers(chains: seq<Chain>)
    ensures forall c :: c in EnabledRows(chains) <==> c in chains && c.enabled
    decreases |chains|
  {
    if chains != [] {
      EnabledMembers(chains[..|chains| - 1]);
    }
  }

  lemma {:induction false} EnabledSplit(a: seq<Chain>, b: seq<Chain>)
    ensures EnabledRows(a + b) == EnabledRows(a) + EnabledChains(b)
    decreases |b|
  {
    if b == [] {
      assert a + b == a;
    } else {
      var c, first := a + [b[0]], if b[0].enabled then [b[0]] else [];
      assert a + b == c + b[1..];
      assert EnabledRows(c) == EnabledRows(a) + first by {
        assert c[..|c| - 1] == a && EnabledRows(a) + [] == EnabledRows(a);
      }
      EnabledSplit(c, b[1..]);
      assert (EnabledRows(a) + first) + EnabledChains(b[1..]) == EnabledRows(a) + (first + EnabledChains(b[1..]));
    }
  }

  lemma {:induction false} ReplaceAt(chains: seq<Chain>, chain: Chain, k: nat)
    ensures |ReplaceChain(chains, chain)| == |chains|
    ensures k < |chains| ==> ReplaceChain(chains, chain)[k] == if chains[k].id == chain.id then chain else chains[k]
    decreases |chains|
  {
    if chains != [] {
      ReplaceAt(chains[1..], chain, if k > 0 then k - 1 else 0);
    }
  }

  lemma {:induction false} SwitchAt(chains: seq<Chain>, id: string, k: nat)
    ensures |SetEnabled(chains, id, false)| == |chains|
    ensures k < |chains| ==> SetEnabled(chains, id, false)[k] == if chains[k].id == id then chains[k].(enabled := false) else chains[k]
    decreases |chains|
  {
    if chains != [] {
      SwitchAt(chains[1..], id, if k > 0 then k - 1 else 0);
    }
  }

  lemma {:induction false} OffAlready(chains: seq<Chain>, id: string)
    requires DistinctChainIds(chains) && HasChain(chains, id) && !Stored(chains, id).enabled
    ensures SwitchedOff(chains, id, chains)
  {
    StoredSpec(chains, id);
  }

  lemma {:induction false} SwitchAll(chains: seq<Chain>, id: string)
    ensures SwitchedOff(chains, id, SetEnabled(chains, id, false))
  {
    SwitchAt(chains, id, 0);
    forall k: nat | k < |chains|
      ensures SetEnabled(chains, id, false)[k] == if chains[k].id == id then chains[k].(enabled := false) else chains[k]
    {
      SwitchAt(chains, id, k);
    }
  }

  lemma {:induction false} DeployReplaces(snap: Snapshot, push: set<string>, chains: seq<Chain>, agents: Agents, request: Chain,
                                          chains': seq<Chain>, agents': Agents)
    requires DistinctChainIds(chains) && HasChain(chains, request.id)
    requires DeployedFrom(snap, push, chains, agents, Candidate(request, Stored(chains, request.id)), chains', agents')
    ensures Replaced(chains, request, chains') && RequestRuns(snap, push, request, chains, chains', agents')
  {
    hide Build, EnabledRows, InStep, EnabledChains;
    var current := Stored(chains, request.id);
    var candidate := Candidate(request, current);
    StoredSpec(chains, request.id);
    EnabledRowsAre(chains');
    ReplaceAt(chains, candidate, 0);
    forall k: nat | k < |chains|
      ensures chains'[k] == if chains[k].id == request.id then candidate else chains[k]
    {
      ReplaceAt(chains, candidate, k);
    }
    hide ReplaceChain, Stored;
    assert forall i | 0 <= i < |request.hops| :: OnChain(candidate, request.hops[i].nodeId) by {
      assert request.hops != [] ==> candidate.hops == request.hops;
    }
  }

  predicate SwitchedOff(chains: seq<Chain>, id: string, chains': seq<Chain>) {
    && |chains'| == |chains|
    && forall k | 0 <= k < |chains| :: chains'[k] == if chains[k].id == id then chains[k].(enabled := false) else chains[k]
  }

  /** Every node that a rollout of these hops concerns builds before and after. */
  ghost predicate AllBuild(snap: Snapshot, nodes: set<string>, oldChains: seq<Chain>, newChains: seq<Chain>) {
    hide Build;
    forall n | n in nodes :: Build(snap, n, oldChains).Ok? && Build(snap, n, newChains).Ok?
  }

  /** How a deployment ends, by what its calls say. */
  ghost predicate DeployVerdict(snap: Snapshot, push: set<string>, request: Chain, chains: seq<Chain>, luck: Luck, r: Verdict) {
    var current := Stored(chains, request.id);
    var candidate := Candidate(request, current);
    var nodes, order := HopSet(current) + HopSet(candidate), DeployOrder(candidate, current);
    var accepted := && HasChain(chains, request.id) && ValidChain(candidate) && luck.refs && luck.preflight
                    && AllBuild(snap, nodes, EnabledChains(chains), EffectiveChains(chains, Some(candidate), false));
    var all := forall n | n in nodes :: Goes(n, push, luck);
    var back := forall n | n in PushNodes(order[..Stop(order, push, luck)], push) :: luck.reapplies(n);
    r == if !accepted then Rejected
         else if !all then (if back then Reverted else RevertFailed)
         else if !luck.commits then NotCommitted(back)
         else if luck.records then Done else Unrecorded
  }

  ghost predicate DisableVerdict(snap: Snapshot, push: set<string>, id: string, chains: seq<Chain>, luck: Luck, r: Verdict) {
    var current := Stored(chains, id);
    var nodes, order := HopSet(current), DisableOrder(current);
    var all := forall n | n in nodes :: Goes(n, push, luck);
    var back := forall n | n in PushNodes(order[..Stop(order, push, luck)], push) :: luck.reapplies(n);
    r == if !HasChain(chains, id) then Rejected
         else if !current.enabled then Done
         else if !AllBuild(snap, nodes, EnabledChains(chains), EffectiveChains(chains, Some(current), true)) then Rejected
         else if !all then (if back then Reverted else RevertFailed)
         else if luck.commits then Done else Unrecorded
  }

  function HopSet(chain: Chain): set<string> {
    set i | 0 <= i < |chain.hops| :: chain.hops[i].nodeId
  }

  lemma {:induction false} HopSetMembers(chain: Chain)
    ensures forall n :: n in HopSet(chain) <==> OnChain(chain, n)
    ensures forall n :: n in HopNodes(chain.hops) <==> OnChain(chain, n)
  {
    forall n | OnChain(chain, n) ensures n in HopNodes(chain.hops) {
      var i :| 0 <= i < |chain.hops| && chain.hops[i].nodeId == n;
      assert HopNodes(chain.hops)[i] == n;
    }
  }

  function Stored(chains: seq<Chain>, id: string): Chain {
    if chains == [] then Chain(id, "", false, [])
    else if chains[0].id == id then chains[0]
    else Stored(chains[1..], id)
  }

  /** A request without a name or hops keeps the stored ones. */
  function Candidate(request: Chain, current: Chain): Chain {
    Chain(request.id, if request.name == "" then current.name else request.name, true,
          if request.hops == [] then current.hops else request.hops)
  }

  lemma {:induction false} StoredSpec(chains: seq<Chain>, id: string)
    requires HasChain(chains, id)
    ensures Stored(chains, id) in chains && Stored(chains, id).id == id
    ensures DistinctChainIds(chains) ==> forall k | 0 <= k < |chains| && chains[k].id == id :: chains[k] == Stored(chains, id)
  {
    if chains[0].id != id {
      var k :| 0 <= k < |chains| && chains[k].id == id;
      assert chains[1..][k - 1].id == id;
      StoredSpec(chains[1..], id);
      forall j | 0 <= j < |chains| && chains[j].id == id && DistinctChainIds(chains) ensures chains[j] == Stored(chains, id) {
        assert chains[1..][j - 1] == chains[j];
      }
    }
  }

  /** Taking every change back leaves each agent that was in step exactly as it was. */
  lemma {:induction false} RollbackRestores(snap: Snapshot, oldChains: seq<Chain>, agents: Agents, changed: seq<string>, before: Agents, after: Agents)
    requires forall m | m in changed :: m in before && m in after && Build(snap, m, oldChains) == Ok(before[m])
    ensures forall m | m in Reversed(changed) :: m in before
    ensures SameWhereInStep(snap, oldChains, agents, PushAll(PushAll(agents, changed, after), Reversed(changed), before))
  {
    hide Build, PushAll;
    ReversedNodes(changed);
    PushAllSpec(agents, changed, after);
    PushAllSpec(PushAll(agents, changed, after), Reversed(changed), before);
  }

  lemma {:induction false} DeployOrderNodes(candidate: Chain, current: Chain)
    requires ValidChain(candidate)
    ensures Distinct(DeployOrder(candidate, current))
    ensures forall n :: n in DeployOrder(candidate, current) <==> n in HopSet(current) + HopSet(candidate)
  {
    DeployOrderShape(candidate, current);
    HopSetMembers(candidate);
    HopSetMembers(current);
  }

  lemma {:induction false} DisableOrderNodes(current: Chain)
    requires ValidChain(current)
    ensures Distinct(DisableOrder(current))
    ensures forall n :: n in DisableOrder(current) <==> n in HopSet(current)
  {
    DisableOrderShape(current);
    HopSetMembers(current);
  }

  /** After a successful rollout every agent it concerns runs what the committed store builds. */
  lemma {:induction false} DeployedInStep(snap: Snapshot, chains: seq<Chain>, candidate: Chain, push: set<string>, agents: Agents,
                       order: seq<string>, before: Agents, after: Agents)
    requires snap.Valid() && DistinctChainIds(chains) && HasChain(chains, candidate.id) && candidate.enabled
    requires var current := Stored(chains, candidate.id);
             && Planned(snap, HopSet(current) + HopSet(candidate), EnabledChains(chains),
                        EffectiveChains(chains, Some(candidate), false), before, after)
             && (forall m :: m in order <==> m in HopSet(current) + HopSet(candidate))
    ensures forall m | m in PushNodes(order, push) :: m in after
    ensures DeployedFrom(snap, push, chains, agents, candidate, ReplaceChain(chains, candidate),
                         PushAll(agents, PushNodes(order, push), after))
  {
    hide Build, KeptChains, EnabledChains, PushAll, PushNodes, ReplaceChain;
    var current := Stored(chains, candidate.id);
    PushNodesSpec(order, push);
    HopSetMembers(candidate);
    HopSetMembers(current);
    CommittedDeploy(chains, candidate);
    StoredReplacement(chains, candidate, false);
    PushAllSpec(agents, PushNodes(order, push), after);
    StoredSpec(chains, candidate.id);
    forall n | !OnChain(candidate, n) && !OnChain(current, n)
      ensures Build(snap, n, KeptChains(chains, Some(candidate), false)) == Build(snap, n, EnabledChains(chains))
    {
      OffChainUnchanged(snap, chains, candidate, false, n);
    }
  }

  lemma {:induction false} DisabledInStep(snap: Snapshot, chains: seq<Chain>, id: string, push: set<string>, agents: Agents,
                       order: seq<string>, before: Agents, after: Agents)
    requires snap.Valid() && DistinctChainIds(chains) && HasChain(chains, id)
    requires var current := Stored(chains, id);
             && Planned(snap, HopSet(current), EnabledChains(chains), EffectiveChains(chains, Some(current), true), before, after)
             && (forall m :: m in order <==> m in HopSet(current))
    ensures forall m | m in PushNodes(order, push) :: m in after
    ensures DisabledFrom(snap, push, chains, agents, id, SetEnabled(chains, id, false),
                         PushAll(agents, PushNodes(order, push), after))
  {
    hide Build, KeptChains, EnabledChains, PushAll, PushNodes, SetEnabled;
    var current := Stored(chains, id);
    PushNodesSpec(order, push);
    HopSetMembers(current);
    StoredSpec(chains, id);
    CommittedDisable(chains, current);
    StoredReplacement(chains, current, true);
    PushAllSpec(agents, PushNodes(order, push), after);
    forall n | !OnChain(current, n)
      ensures Build(snap, n, KeptChains(chains, Some(current), true)) == Build(snap, n, EnabledChains(chains))
    {
      OffChainUnchanged(snap, chains, current, true, n);
    }
  }
}
