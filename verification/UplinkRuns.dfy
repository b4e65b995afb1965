/** Runs of rounds towards one wanted configuration, with calls of others at any time. */
module UplinkRuns {
  import opened Outcomes
  import opened NodeFrps
  import opened UplinkSync
  import Box = BoxRuntime

  /** Every round of the run is answered with this configuration. */
  predicate Fixed(steps: seq<Step>, d: Desired) {
    forall k | 0 <= k < |steps| && steps[k].RoundStep? :: steps[k].turn.head == d && steps[k].turn.post == d
  }

  predicate Succeeds(env: Box.Env, w: World, s: Step) {
    s.RoundStep? && Round(env, w, s.turn).1 == Synced
  }

  function Successes(env: Box.Env, w: World, steps: seq<Step>): nat
    decreases |steps|
  {
    if steps == [] then 0 else (if Succeeds(env, w, steps[0]) then 1 else 0) + Successes(env, Next(env, w, steps[0]), steps[1..])
  }

  lemma {:induction false} StepCloser(env: Box.Env, w: World, d: Desired, s: Step)
    requires WellFormed(d) && (s.RoundStep? ==> s.turn.head == d && s.turn.post == d)
    ensures var v := Next(env, w, s);
            && Distance(v, d) <= Distance(w, d)
            && (Succeeds(env, w, s) && Distance(w, d) > 0 ==> Distance(v, d) == Distance(w, d) - 1)
            && (InSync(w, d) ==> v.mem.configCalls == w.mem.configCalls && v.mem.frpsCalls == w.mem.frpsCalls)
            && |w.mem.confirmed| <= |v.mem.confirmed| <= |w.mem.confirmed| + (if w.mem.configHash != d.hash then 1 else 0)
            && (w.mem.configHash == d.hash ==> v.mem.configHash == d.hash)
            && (|v.mem.confirmed| > |w.mem.confirmed| ==> v.mem.configHash == d.hash)
  {
    hide Round, Box.Perform, Box.Accepts, PerformFrps;
    if s.RoundStep? {
      RoundCloser(env, w, s.turn);
    }
  }

  /** With the wanted configuration fixed, whatever fails and whatever others do in between, two
      successful rounds bring both hashes in sync, one unless the FRPS configuration was removed
      while the proxy configuration changed; the latter is confirmed at most once on the way. */
  lemma {:induction false} Converges(env: Box.Env, w: World, d: Desired, steps: seq<Step>)
    requires WellFormed(d) && Fixed(steps, d)
    ensures var v := Run(env, w, steps);
            && (Successes(env, w, steps) >= Distance(w, d) ==> InSync(v, d))
            && Distance(w, d) <= 2
            && |w.mem.confirmed| <= |v.mem.confirmed| <= |w.mem.confirmed| + (if w.mem.configHash != d.hash then 1 else 0)
    decreases |steps|
  {
    hide Next, RemovedWhileChanged, Succeeds;
    if steps != [] {
      StepCloser(env, w, d, steps[0]);
      Converges(env, Next(env, w, steps[0]), d, steps[1..]);
    }
  }

  /** Once in sync neither configuration is applied again by the client. */
  lemma {:induction false} StaysInSync(env: Box.Env, w: World, d: Desired, steps: seq<Step>)
    requires WellFormed(d) && Fixed(steps, d) && InSync(w, d)
    ensures var v := Run(env, w, steps);
            InSync(v, d) && v.mem.configCalls == w.mem.configCalls && v.mem.frpsCalls == w.mem.frpsCalls
    decreases |steps|
  {
    hide Next, Succeeds;
    if steps != [] {
      StepCloser(env, w, d, steps[0]);
      StaysInSync(env, Next(env, w, steps[0]), d, steps[1..]);
    }
  }

  /** One successful round is enough exactly unless FRPS was removed while the rest changed. */
  lemma {:induction false} OneRoundIff(env: Box.Env, w: World, t: Turn)
    requires t.head == t.post && WellFormed(t.post) && Round(env, w, t).1 == Synced
    ensures InSync(Round(env, w, t).0, t.post) <==> !RemovedWhileChanged(w, t.post)
  {
    RoundCloser(env, w, t);
    hide Round;
  }

  // ----- The FRPS service -----

  /** The FRPS service a successful round leaves: as wanted exactly if its configuration was sent now,
      because the remembered hash differed, or it was as wanted before. */
  lemma {:induction false} FrpsServedIff(env: Box.Env, w: World, t: Turn)
    requires t.head == t.post && WellFormed(t.post) && Round(env, w, t).1 == Synced
    ensures var d := t.post;
            Serves(Round(env, w, t).0.frps, d.frps) <==> (d.frps.Some? && w.mem.frpsHash != FrpsHash(d)) || Serves(w.frps, d.frps)
  {
    FrpsAfter(env, w, t);
    var d := t.post;
    if d.frps.Some? {
      ApplyServes(w.frps, d.frps.value, t.luck.frps);
    }
    hide Round, ApplyFrps;
  }

  lemma {:induction false} FrpsAfter(env: Box.Env, w: World, t: Turn)
    requires t.head == t.post && WellFormed(t.post) && Round(env, w, t).1 == Synced
    ensures var d := t.post;
            var v := Round(env, w, t).0;
            if d.frps.Some? && w.mem.frpsHash != FrpsHash(d) then (v.frps, true) == ApplyFrps(w.frps, d.frps.value, t.luck.frps)
            else v.frps == w.frps
  {
    hide ApplySync, Delay, Takes, ApplyFrps;
    var d := t.post;
    ApplyShape(env, w, NoChange(d.state), t.luck);
    ApplyShape(env, Snapshot(w, d), Respond(d, w.mem.configHash, w.mem.frpsHash), t.luck);
  }

  /** In sync by hash is not the same as served: removing the FRPS configuration clears the
      remembered hash without any call, and the node keeps serving the old one. So a successful
      removal leaves no service running exactly when none was. */
  lemma {:induction false} RemovalOnlyForgets(env: Box.Env, w: World, t: Turn)
    requires t.head == t.post && WellFormed(t.post) && t.post.frps.None?
    ensures var (v, outcome) := Round(env, w, t);
            && v.frps == w.frps && v.mem.frpsCalls == w.mem.frpsCalls
            && (outcome == Synced ==> (Serves(v.frps, t.post.frps) <==> !w.frps.running))
  {
    hide ApplySync, Delay, Takes, ApplyFrps;
    var d := t.post;
    ApplyShape(env, w, NoChange(d.state), t.luck);
    ApplyShape(env, Snapshot(w, d), Respond(d, w.mem.configHash, w.mem.frpsHash), t.luck);
  }

  // ----- Backing off -----

  /** The run without its rounds. */
  function WithoutRounds(steps: seq<Step>): seq<Step> {
    if steps == [] then [] else (if steps[0].RoundStep? then [] else [steps[0]]) + WithoutRounds(steps[1..])
  }

  /** A failed round is followed by silence: nothing is asked of Panel or node before the delay,
      one, five and then fifteen minutes, is over, and what happens is what others do. */
  lemma {:induction false} QuietAfterFailure(env: Box.Env, w: World, t: Turn, steps: seq<Step>)
    requires Round(env, w, t).1 == Retry
    requires forall k | 0 <= k < |steps| && steps[k].RoundStep? ::
               steps[k].turn.now < t.now + (if w.mem.failStreak == 0 then 60 else if w.mem.failStreak == 1 then 300 else 900)
    ensures var v := Round(env, w, t).0;
            && Run(env, v, steps) == Run(env, v, WithoutRounds(steps))
            && Run(env, v, steps).mem == v.mem
  {
    var v := Round(env, w, t).0;
    assert v.mem.nextTry == Some(t.now + Delay(w.mem.failStreak + 1)) by { RoundOutcome(env, w, t); }
    hide Round, Delay;
    AllSkipped(env, v, steps);
  }

  lemma {:induction false} AllSkipped(env: Box.Env, v: World, steps: seq<Step>)
    requires v.mem.nextTry.Some? && forall k | 0 <= k < |steps| && steps[k].RoundStep? :: steps[k].turn.now < v.mem.nextTry.value
    ensures Run(env, v, steps) == Run(env, v, WithoutRounds(steps)) && Run(env, v, steps).mem == v.mem
    decreases |steps|
  {
    hide Box.Perform, Box.Accepts, PerformFrps;
    if steps != [] {
      var u := Next(env, v, steps[0]);
      assert u.mem == v.mem;
      assert steps[0].RoundStep? ==> u == v;
      hide Next;
      AllSkipped(env, u, steps[1..]);
      var rest := WithoutRounds(steps[1..]);
      if steps[0].RoundStep? {
        assert [] + rest == rest;
      } else {
        assert ([steps[0]] + rest)[1..] == rest;
      }
    }
  }
}
