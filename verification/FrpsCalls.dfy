/** Lifecycle calls run through without an exit in between are the whole calls of `NodeFrps`. */
module FrpsCalls {
  import opened Outcomes
  import opened NodeFrps
  import R = FrpsRuntime

  /** Whether the step that a call takes next succeeds. */
  predicate Fares(p: R.Phase, l: FrpsLuck) {
    match p
    case Launching(_, _, stage) => if stage.Second? then !l.second.Early? else !l.first.Early?
    case Awaiting(_, _, _, stage) => if stage.Second? then l.second.Up? else l.first.Up?
    case Disabling(_, _) => l.writes
    case Writing(_, _) => l.writes
    case _ => true
  }

  function Complete(s: R.Runtime, l: FrpsLuck, n: nat): R.Runtime
    decreases n
  {
    if n == 0 then s else Complete(R.Advance(s, Fares(s.phase, l)), l, n - 1)
  }

  function Steps(s: R.Runtime, l: FrpsLuck, n: nat): seq<R.Event>
    decreases n
  {
    if n == 0 then [] else [R.Proceed(Fares(s.phase, l))] + Steps(R.Advance(s, Fares(s.phase, l)), l, n - 1)
  }

  /** A completed call is one of the interleavings. */
  lemma {:induction false} CompleteIsRun(s: R.Runtime, l: FrpsLuck, n: nat)
    ensures R.Run(s, Steps(s, l, n)) == Complete(s, l, n)
    decreases n
  {
    hide R.Advance, Fares;
    if n > 0 {
      var e, t := R.Proceed(Fares(s.phase, l)), R.Advance(s, Fares(s.phase, l));
      assert ([e] + Steps(t, l, n - 1))[1..] == Steps(t, l, n - 1);
      CompleteIsRun(t, l, n - 1);
    }
  }

  /** The record and whether a service runs. */
  function View(s: R.Runtime): Frps {
    Frps(s.hash, s.config.enabled, s.service.Some?)
  }

  predicate Success(o: R.Outcome) {
    o.Succeeded? || o.AlreadyRunning? || (o.Disabled? && o.written)
  }

  lemma {:induction false} IdleStays(s: R.Runtime, l: FrpsLuck, n: nat)
    requires s.phase.Idle?
    ensures Complete(s, l, n) == s
  {
    if n > 0 {
      IdleStays(s, l, n - 1);
    }
  }

  /** From the old service taken out to the new one's launch. */
  lemma {:induction false} TakenOut(s: R.Runtime, c: R.Config, h: string, l: FrpsLuck, n: nat) returns (t: R.Runtime)
    requires R.Sound(s) && s.phase == R.Checking(c, h) && n >= 3 && !(s.service.Some? && c.enabled && h == s.hash)
    ensures Complete(s, l, n) == Complete(t, l, n - 3)
    ensures R.Sound(t) && t.service.None? && t.config == s.config && t.hash == s.hash
    ensures t.phase == if c.enabled then R.Launching(c, h, R.First(s.config, s.hash)) else R.Disabling(c, h)
  {
    var a := R.Advance(s, Fares(s.phase, l));
    var b := R.Advance(a, Fares(a.phase, l));
    t := R.Advance(b, Fares(b.phase, l));
    R.AdvanceSound(s, Fares(s.phase, l));
    R.AdvanceSound(a, Fares(a.phase, l));
    R.AdvanceSound(b, Fares(b.phase, l));
    hide R.Sound;
    assert Complete(s, l, n) == Complete(a, l, n - 1) == Complete(b, l, n - 2) == Complete(t, l, n - 3);
  }

  /** A launch, and what follows it: in service, or failing with the record as it was or replaced. */
  lemma {:induction false} Launches(s: R.Runtime, c: R.Config, h: string, stage: R.Stage, l: FrpsLuck, n: nat) returns (t: R.Runtime, m: nat)
    requires R.Sound(s) && s.phase == R.Launching(c, h, stage) && n >= 4
    ensures m >= n - 4 && Complete(s, l, n) == Complete(t, l, m) && R.Sound(t)
    ensures var fate := if stage.Second? then l.second else l.first;
            if fate.Up? then
              && t.service.Some? && t.config == c && t.hash == h
              && t.phase == (if stage.Second? then R.Noting(R.ApplyFailed(c, h)) else if stage.First? then R.Writing(c, h) else R.Idle(R.Succeeded(c, h)))
            else
              && t.service.None? && t.phase == R.Failing(stage)
              && (if fate.Late? then t.config == c && t.hash == h else t.config == s.config && t.hash == s.hash)
  {
    var a := R.Advance(s, Fares(s.phase, l));
    R.AdvanceSound(s, Fares(s.phase, l));
    t, m := a, n - 1;
    if a.phase.Awaiting? {
      var b := R.Advance(a, Fares(a.phase, l));
      R.AdvanceSound(a, Fares(a.phase, l));
      assert Complete(a, l, n - 1) == Complete(b, l, n - 2);
      t, m := b, n - 2;
      if b.phase.Cancelling? {
        var d := R.Advance(b, Fares(b.phase, l));
        R.AdvanceSound(b, Fares(b.phase, l));
        assert Complete(b, l, n - 2) == Complete(d, l, n - 3);
        t, m := d, n - 3;
      }
    }
    hide R.Sound;
  }

  /** An apply run through. A first launch that fails leaves a service exactly if the configuration
      before was enabled, with a hash, and starts again; that service has the configuration and hash
      of before. The record, the service and the reply are those of the whole call. */
  lemma {:induction false} ApplyRunsThrough(s: R.Runtime, c: R.Config, h: string, l: FrpsLuck, n: nat)
    requires R.Sound(s) && s.phase.Idle? && n >= 14
    ensures var t := Complete(R.Step(s, R.BeginApply(c, h, l.valid)), l, n);
            var same := s.service.Some? && c.enabled && h == s.hash;
            && t.phase.Idle? && R.Sound(t)
            && View(t) == ApplyFrps(View(s), FrpsConfig(h, c.enabled), l).0
            && (Success(t.phase.outcome) <==> ApplyFrps(View(s), FrpsConfig(h, c.enabled), l).1)
            && (!l.valid || same ==> t.service == s.service && t.config == s.config && t.hash == s.hash)
            && (l.valid && !same && !c.enabled ==> t.service.None? && t.config == c && t.hash == h)
            && (l.valid && !same && c.enabled && l.first == Up ==> t.service.Some? && t.config == c && t.hash == h)
            && (l.valid && !same && c.enabled && l.first != Up ==>
                  && (t.service.Some? <==> s.config.enabled && s.hash != "" && l.second == Up)
                  && (t.service.Some? ==> t.config == s.config && t.hash == s.hash))
  {
    var b := R.Step(s, R.BeginApply(c, h, l.valid));
    R.BeginSound(s, R.BeginApply(c, h, l.valid));
    if !l.valid {
      IdleStays(b, l, n);
    } else if s.service.Some? && c.enabled && h == s.hash {
      var t := R.Advance(b, true);
      R.AdvanceSound(b, true);
      IdleStays(t, l, n - 1);
    } else {
      var t := TakenOut(b, c, h, l, n);
      if c.enabled {
        AfterLaunch(s.config, s.hash, t, c, h, l, n - 3);
      } else {
        var u := R.Advance(t, l.writes);
        R.AdvanceSound(t, l.writes);
        IdleStays(u, l, n - 4);
        assert Complete(t, l, n - 3) == Complete(u, l, n - 4);
      }
    }
    hide Complete;
  }

  lemma {:induction false} AfterLaunch(config: R.Config, hash: string, s: R.Runtime, c: R.Config, h: string, l: FrpsLuck, n: nat)
    requires n >= 11 && R.Sound(s) && s.phase == R.Launching(c, h, R.First(config, hash)) && s.config == config && s.hash == hash && c.enabled
    ensures var t := Complete(s, l, n);
            && t.phase.Idle? && R.Sound(t)
            && (Success(t.phase.outcome) <==> l.first == Up)
            && (if l.first == Up then t.service.Some? && t.config == c && t.hash == h
                else if config.enabled && hash != "" then
                  && (t.service.Some? <==> l.second == Up)
                  && (if l.second == Early then (if l.first == Late then t.config == c && t.hash == h else t.config == config && t.hash == hash)
                      else t.config == config && t.hash == hash)
                else t.service.None? && (if l.first == Late then t.config == c && t.hash == h else t.config == config && t.hash == hash))
  {
    hide Complete, R.Sound;
    var t, m := Launches(s, c, h, R.First(config, hash), l, n);
    var u := R.Advance(t, Fares(t.phase, l));
    OneStep(t, l, m);
    if l.first == Up {
      Concludes(u, l, m - 1);
    } else if config.enabled && hash != "" {
      var v, k := Launches(u, config, hash, R.Second(config, hash), l, m - 1);
      var w := R.Advance(v, Fares(v.phase, l));
      OneStep(v, l, k);
      Concludes(w, l, k - 1);
    } else {
      Concludes(u, l, m - 1);
    }
  }

  lemma {:induction false} OneStep(s: R.Runtime, l: FrpsLuck, n: nat)
    requires R.Sound(s) && n > 0
    ensures Complete(s, l, n) == Complete(R.Advance(s, Fares(s.phase, l)), l, n - 1)
    ensures R.Sound(R.Advance(s, Fares(s.phase, l)))
  {
    R.AdvanceSound(s, Fares(s.phase, l));
    hide R.Sound;
  }

  /** What is left of a call that has noted its outcome, or has to. */
  lemma {:induction false} Concludes(s: R.Runtime, l: FrpsLuck, n: nat)
    requires R.Sound(s) && n >= 1 && (s.phase.Idle? || s.phase.Noting?)
    ensures var t := Complete(s, l, n);
            && R.Sound(t) && t.phase == R.Idle(s.phase.outcome) && t.service == s.service && t.config == s.config && t.hash == s.hash
  {
    R.AdvanceSound(s, true);
    IdleStays(R.Advance(s, true), l, n - 1);
    hide R.Sound;
  }

  /** A start run through: it leaves a service exactly if one ran, or there is an enabled
      configuration with a hash on record and it starts; it is the one on record. A stop leaves
      none, and the record as it was. */
  lemma {:induction false} StartAndStopRunThrough(s: R.Runtime, l: FrpsLuck, n: nat)
    requires R.Sound(s) && s.phase.Idle? && n >= 5
    ensures var t := Complete(R.Step(s, R.BeginStart), l, n);
            && t.phase.Idle? && R.Sound(t) && t.config == s.config && t.hash == s.hash
            && (t.service.Some? <==> s.service.Some? || (s.config.enabled && s.hash != "" && l.first == Up))
            && View(t) == PerformFrps(View(s), FrpsStart(l.first))
    ensures var t := Complete(R.Step(s, R.BeginStop), l, n);
            && t.phase.Idle? && R.Sound(t) && t.config == s.config && t.hash == s.hash && t.service.None?
            && View(t) == PerformFrps(View(s), FrpsStop)
  {
    var b := R.Step(s, R.BeginStart);
    R.BeginSound(s, R.BeginStart);
    R.BeginSound(s, R.BeginStop);
    if b.phase.Idle? {
      IdleStays(b, l, n);
    } else {
      var t, m := Launches(b, s.config, s.hash, R.FromStart, l, n);
      if l.first == Up {
        IdleStays(t, l, m);
      } else {
        var u := R.Advance(t, true);
        R.AdvanceSound(t, true);
        IdleStays(u, l, m - 1);
      }
    }
    var c := R.Step(s, R.BeginStop);
    R.AdvanceSound(c, true);
    IdleStays(R.Advance(c, true), l, n - 1);
  }
}
