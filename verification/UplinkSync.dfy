/** The configuration sync of a pull-mode node: the Agent compares hashes with the Panel, applies
    what differs and remembers a hash once its apply is accepted. The box it applies to is the
    Agent's own, and others, such as the Panel over the live channel, call that box too. */
module UplinkSync {
  import opened Outcomes
  import opened NodeFrps
  import BoxConfig
  import Box = BoxRuntime

  /** What the Panel wants of the node. */
  datatype Desired = Desired(text: BoxConfig.Text, hash: string, frps: Option<FrpsConfig>, state: string)

  datatype Response = Response(changed: bool, text: BoxConfig.Text, hash: string, frps: Option<FrpsConfig>, frpsHash: string, state: string)

  /** Whether the Panel answers each request; what others do to the box between the configuration
      call and the state call, and between asking for the status and starting; and how an FRPS
      call fares. How box calls fare is up to the box. */
  datatype Luck = Luck(head: bool, post: bool, between: seq<Box.Op>, frps: FrpsLuck, beforeStart: seq<Box.Op>)

  /** The sync client's memory and the snapshots the Panel keeps; for the record, the
      configurations confirmed so far. */
  datatype Memory = Memory(
    configHash: string, frpsHash: string, failStreak: nat, nextTry: Option<int>,
    configCalls: nat, frpsCalls: nat, confirmed: seq<string>, snapshots: set<string>)

  /** Client and node. `pushed` is the hash of the last apply accepted from others since the client's
      last confirmed one. */
  datatype World = World(mem: Memory, box: Box.Runtime, frps: Frps, pushed: Option<string>)

  predicate WellFormed(d: Desired) {
    d.text != BoxConfig.EMPTY && d.hash != "" && (d.frps.Some? ==> d.frps.value.hash != "")
  }

  function FrpsHash(d: Desired): string {
    if d.frps.Some? then d.frps.value.hash else ""
  }

  // ----- The Panel's side -----

  function Respond(d: Desired, applied: string, frpsApplied: string): Response {
    var configChanged := applied != d.hash;
    var frpsChanged := frpsApplied != FrpsHash(d);
    if !configChanged && !frpsChanged then NoChange(d.state)
    else Response(true, if configChanged then d.text else BoxConfig.EMPTY, if configChanged then d.hash else "",
                  if frpsChanged then d.frps else None, if frpsChanged then FrpsHash(d) else "", d.state)
  }

  function NoChange(state: string): Response {
    Response(false, BoxConfig.EMPTY, "", None, "", state)
  }

  function Snapshot(w: World, d: Desired): World {
    if w.mem.configHash != d.hash then w.(mem := w.mem.(snapshots := w.mem.snapshots + {d.hash})) else w
  }

  // ----- Others -----

  /** A call of someone else on the box. */
  function Push(env: Box.Env, w: World, op: Box.Op): World {
    w.(box := Box.Perform(env, w.box, op), pushed := if Box.Accepts(env, w.box, op) then Some(op.hash) else w.pushed)
  }

  function Others(env: Box.Env, w: World, ops: seq<Box.Op>): World
    decreases |ops|
  {
    if ops == [] then w else Others(env, Push(env, w, ops[0]), ops[1..])
  }

  // ----- The Agent's side -----

  predicate CallsConfig(r: Response) {
    r.changed && r.text != BoxConfig.EMPTY
  }

  /** The box accepts the response's document, and runs it. */
  predicate Takes(env: Box.Env, w: World, r: Response) {
    CallsConfig(r) && Box.Accepted(Box.ApplyTo(env, w.box, r.text, r.hash).1)
  }

  function ConfigStep(env: Box.Env, w: World, r: Response): (World, bool) {
    if !CallsConfig(r) then (w, true)
    else
      var called := w.(box := Box.ApplyTo(env, w.box, r.text, r.hash).0, mem := w.mem.(configCalls := w.mem.configCalls + 1));
      if Takes(env, w, r) then
        (called.(mem := called.mem.(configHash := r.hash, confirmed := called.mem.confirmed + [r.hash]), pushed := None), true)
      else (called, false)
  }

  function ServeStep(w: World, r: Response, l: FrpsLuck): (World, bool) {
    if r.changed && r.frps.None? && r.text == BoxConfig.EMPTY then (w.(mem := w.mem.(frpsHash := r.frpsHash)), true)
    else if !(r.changed && r.frps.Some?) then (w, true)
    else
      var (f, ok) := ApplyFrps(w.frps, r.frps.value, l);
      var called := w.(frps := f, mem := w.mem.(frpsCalls := w.mem.frpsCalls + 1));
      if ok then (called.(mem := called.mem.(frpsHash := r.frpsHash)), true) else (called, false)
  }

  /** Stops the box, or starts it if it does not run. What the box replies is not looked at. */
  function StateStep(env: Box.Env, w: World, state: string, beforeStart: seq<Box.Op>): World {
    if state == "stopped" then w.(box := Box.StopTo(env, w.box))
    else if (state == "running" || state == "") && !w.box.state.Running? then
      var v := Others(env, w, beforeStart);
      v.(box := Box.StartTo(env, v.box).0)
    else w
  }

  function ApplySync(env: Box.Env, w: World, r: Response, luck: Luck): (World, bool) {
    var (a, configured) := ConfigStep(env, w, r);
    if !configured then (a, false)
    else
      var (b, served) := ServeStep(a, r, luck.frps);
      if !served then (b, false)
      else (StateStep(env, Others(env, b, luck.between), r.state, luck.beforeStart), true)
  }

  function Delay(streak: nat): int {
    if streak >= 3 then 900 else if streak == 2 then 300 else 60
  }

  function NoteFailure(m: Memory, now: int): Memory {
    m.(failStreak := m.failStreak + 1, nextTry := Some(now + Delay(m.failStreak + 1)))
  }

  function ClearFailure(m: Memory): Memory {
    m.(failStreak := 0, nextTry := None)
  }

  predicate Backing(m: Memory, now: int) {
    m.nextTry.Some? && now < m.nextTry.value
  }

  datatype Outcome = Skipped | Synced | Retry

  function Settle(result: (World, bool), now: int): (World, Outcome) {
    if result.1 then (result.0.(mem := ClearFailure(result.0.mem)), Synced)
    else (result.0.(mem := NoteFailure(result.0.mem, now)), Retry)
  }

  /** A round, with what the Panel answers to each of its two requests. */
  datatype Turn = Turn(now: int, head: Desired, post: Desired, luck: Luck)

  /** The response a round acts on: the head alone when both hashes agree, else the Panel's. */
  function Round(env: Box.Env, w: World, t: Turn): (World, Outcome) {
    if Backing(w.mem, t.now) then (w, Skipped)
    else if t.luck.head && t.head.hash != "" && t.head.hash == w.mem.configHash && FrpsHash(t.head) == w.mem.frpsHash then
      Settle(ApplySync(env, w, NoChange(t.head.state), t.luck), t.now)
    else if !t.luck.post then Settle((w, false), t.now)
    else Settle(ApplySync(env, Snapshot(w, t.post), Respond(t.post, w.mem.configHash, w.mem.frpsHash), t.luck), t.now)
  }

  // ----- The object -----

  const START := Memory("", "", 0, None, 0, 0, [], {})

  /** An Agent that has just started; its FRPS service is restored from disk. */
  function Fresh(loaded: Box.Bytes, frps: Frps): World {
    World(START, Box.Fresh(loaded), frps, None)
  }

  class Client {
    const box: Box.Box
    var mem: Memory
    var frps: Frps
    ghost var pushed: Option<string>

    ghost function View(): World
      reads this, box
    {
      World(mem, box.View(), frps, pushed)
    }

    constructor (box: Box.Box, frps: Frps)
      ensures this.box == box && View() == World(START, box.View(), frps, None)
    {
      this.box, this.frps, mem, pushed := box, frps, START, None;
    }

    /** Where the calls of others take place. */
    method OthersAct(ops: seq<Box.Op>)
      modifies this`pushed, box
      ensures View() == Others(box.env, old(View()), ops)
    {
      hide Box.Perform, Box.ApplyTo, Box.StartTo, Box.Sound;
      for i := 0 to |ops|
        invariant Others(box.env, View(), ops[i..]) == Others(box.env, old(View()), ops)
        invariant mem == old(mem) && frps == old(frps)
      {
        ghost var was := View();
        assert ops[i..][0] == ops[i] && ops[i..][1..] == ops[i + 1..];
        OtherActs(ops[i]);
        assert View() == Push(box.env, was, ops[i]);
      }
    }

    method OtherActs(op: Box.Op)
      modifies this`pushed, box
      ensures View() == Push(box.env, old(View()), op)
    {
      hide Box.ApplyTo, Box.StartTo, Box.Sound, Box.CountTo, Box.StopTo;
      match op {
        case OpApply(text, hash) =>
          var reply := box.Apply(text, hash);
          if Box.Accepted(reply) {
            pushed := Some(hash);
          }
        case OpStart =>
          var reply := box.Start();
        case OpStop =>
          box.Stop();
        case OpCount(n) =>
          box.Count(n);
      }
    }

    method ApplyConfig(r: Response) returns (ok: bool)
      modifies this, box
      ensures (View(), ok) == ConfigStep(box.env, old(View()), r)
    {
      hide Box.ApplyTo, Box.Sound, Box.Answered, Box.KeptSound;
      if !CallsConfig(r) {
        return true;
      }
      var reply := box.Apply(r.text, r.hash);
      mem := mem.(configCalls := mem.configCalls + 1);
      if !Box.Accepted(reply) {
        return false;
      }
      mem := mem.(configHash := r.hash, confirmed := mem.confirmed + [r.hash]);
      pushed := None;
      return true;
    }

    method ApplyFrps(r: Response, l: FrpsLuck) returns (ok: bool)
      modifies this`mem, this`frps
      ensures (View(), ok) == ServeStep(old(View()), r, l)
    {
      if r.changed && r.frps.None? && r.text == BoxConfig.EMPTY {
        mem := mem.(frpsHash := r.frpsHash);
      }
      if r.changed && r.frps.Some? {
        var (f, done) := NodeFrps.ApplyFrps(frps, r.frps.value, l);
        frps, mem := f, mem.(frpsCalls := mem.frpsCalls + 1);
        if !done {
          return false;
        }
        mem := mem.(frpsHash := r.frpsHash);
      }
      return true;
    }

    method ApplyState(state: string, beforeStart: seq<Box.Op>)
      modifies this`pushed, box
      ensures View() == StateStep(box.env, old(View()), state, beforeStart)
    {
      hide Box.StartTo, Box.StopTo, Box.ApplyTo, Box.Sound, Box.KeptSound, Others;
      if state == "stopped" {
        box.Stop();
      } else if state == "running" || state == "" {
        var running := box.state.Running?;
        if !running {
          OthersAct(beforeStart);
          var reply := box.Start();
        }
      }
    }

    method Apply(r: Response, luck: Luck) returns (ok: bool)
      modifies this, box
      ensures (View(), ok) == ApplySync(box.env, old(View()), r, luck)
      ensures AppliesWell(box.env, old(View()), r, luck, View(), ok)
    {
      ApplyWell(box.env, View(), r, luck);
      hide ConfigStep, ServeStep, StateStep, Others, AppliesWell;
      ok := ApplyConfig(r);
      if ok {
        ok := ApplyFrps(r, luck.frps);
      }
      if ok {
        OthersAct(luck.between);
        ApplyState(r.state, luck.beforeStart);
      }
    }

    method SyncConfig(t: Turn) returns (outcome: Outcome)
      modifies this, box
      ensures (View(), outcome) == Round(box.env, old(View()), t)
      ensures RoundKeeps(box.env, old(View()), t, View(), outcome)
    {
      RoundKept(box.env, View(), t);
      hide ApplySync, RoundKeeps, FrpsHash, Respond, AppliesWell, Delay;
      if Backing(mem, t.now) {
        return Skipped;
      }
      var applied, frpsApplied := mem.configHash, mem.frpsHash;
      var ok;
      if t.luck.head && t.head.hash != "" && t.head.hash == applied && FrpsHash(t.head) == frpsApplied {
        ok := Apply(NoChange(t.head.state), t.luck);
      } else if t.luck.post {
        if applied != t.post.hash {
          mem := mem.(snapshots := mem.snapshots + {t.post.hash});
        }
        ok := Apply(Respond(t.post, applied, frpsApplied), t.luck);
      } else {
        ok := false;
      }
      if ok {
        mem := ClearFailure(mem);
        return Synced;
      }
      mem := NoteFailure(mem, t.now);
      return Retry;
    }
  }

  // ----- What a step leaves alone -----

  predicate CallsFrps(env: Box.Env, w: World, r: Response) {
    (CallsConfig(r) ==> Takes(env, w, r)) && r.changed && r.frps.Some?
  }

  lemma {:induction false} OthersFrame(env: Box.Env, w: World, ops: seq<Box.Op>)
    ensures var v := Others(env, w, ops); v.mem == w.mem && v.frps == w.frps
    decreases |ops|
  {
    hide Box.Perform, Box.Accepts;
    if ops != [] {
      OthersFrame(env, Push(env, w, ops[0]), ops[1..]);
    }
  }

  lemma {:induction false} StateFrame(env: Box.Env, w: World, state: string, ops: seq<Box.Op>)
    ensures var v := StateStep(env, w, state, ops); v.mem == w.mem && v.frps == w.frps
  {
    hide Others, Box.StopTo, Box.StartTo;
    OthersFrame(env, w, ops);
  }

  /** What an apply does to the client's memory and the FRPS service. */
  lemma {:induction false} ApplyShape(env: Box.Env, w: World, r: Response, luck: Luck)
    ensures var (v, ok) := ApplySync(env, w, r, luck);
            var takes := Takes(env, w, r);
            var (f, served) := if CallsFrps(env, w, r) then ApplyFrps(w.frps, r.frps.value, luck.frps) else (w.frps, true);
            && v.mem == w.mem.(
                 configHash := if takes then r.hash else w.mem.configHash,
                 confirmed := if takes then w.mem.confirmed + [r.hash] else w.mem.confirmed,
                 configCalls := w.mem.configCalls + (if CallsConfig(r) then 1 else 0),
                 frpsHash := if (CallsFrps(env, w, r) && served) || (r.changed && r.frps.None? && r.text == BoxConfig.EMPTY) then r.frpsHash
                             else w.mem.frpsHash,
                 frpsCalls := w.mem.frpsCalls + (if CallsFrps(env, w, r) then 1 else 0))
            && v.frps == f
            && (ok <==> (CallsConfig(r) ==> takes) && served)
  {
    hide Others, StateStep, Box.ApplyTo, NodeFrps.ApplyFrps;
    var (a, configured) := ConfigStep(env, w, r);
    var (b, served) := ServeStep(a, r, luck.frps);
    OthersFrame(env, b, luck.between);
    StateFrame(env, Others(env, b, luck.between), r.state, luck.beforeStart);
  }

  // ----- Safety of every run -----

  /** A round, or a call of someone else between rounds. */
  datatype Step = RoundStep(turn: Turn) | BoxStep(op: Box.Op) | ServiceStep(call: FrpsOp)

  function Next(env: Box.Env, w: World, s: Step): World {
    match s
    case RoundStep(turn) => Round(env, w, turn).0
    case BoxStep(op) => Push(env, w, op)
    case ServiceStep(call) => w.(frps := PerformFrps(w.frps, call))
  }

  function Run(env: Box.Env, w: World, steps: seq<Step>): World
    decreases |steps|
  {
    if steps == [] then w else Run(env, Next(env, w, steps[0]), steps[1..])
  }

  /** The remembered hash is that of the last confirmed apply; the box has on record what was last
      accepted, from the client or from others; and every configuration the client confirmed was
      stored by the Panel first. */
  predicate Sound(env: Box.Env, w: World) {
    && Box.Sound(env, w.box)
    && w.mem.configHash == (if w.mem.confirmed == [] then "" else w.mem.confirmed[|w.mem.confirmed| - 1])
    && (forall k | 0 <= k < |w.mem.confirmed| :: w.mem.confirmed[k] in w.mem.snapshots)
    && (w.mem.confirmed != [] || w.pushed.Some? ==>
          w.box.config != BoxConfig.EMPTY && w.box.hash == if w.pushed.Some? then w.pushed.value else w.mem.configHash)
  }

  lemma {:induction false} PushSound(env: Box.Env, w: World, op: Box.Op)
    requires Sound(env, w)
    ensures Sound(env, Push(env, w, op))
  {
    Box.PerformSound(env, w.box, op);
    Box.RecordAfter(env, w.box, op);
    hide Box.Sound, Box.Perform, Box.Accepts, BoxConfig.PrepareDocument;
  }

  lemma {:induction false} OthersSound(env: Box.Env, w: World, ops: seq<Box.Op>)
    requires Sound(env, w)
    ensures Sound(env, Others(env, w, ops))
    decreases |ops|
  {
    hide Sound, Push;
    if ops != [] {
      PushSound(env, w, ops[0]);
      OthersSound(env, Push(env, w, ops[0]), ops[1..]);
    }
  }

  lemma {:induction false} ConfigSound(env: Box.Env, w: World, r: Response)
    requires Sound(env, w) && (CallsConfig(r) ==> r.hash in w.mem.snapshots)
    ensures Sound(env, ConfigStep(env, w, r).0)
    ensures Takes(env, w, r) ==> ConfigStep(env, w, r).0.box.instance.Some?
  {
    var op := Box.OpApply(r.text, r.hash);
    Box.PerformSound(env, w.box, op);
    Box.RecordAfter(env, w.box, op);
    hide Box.Sound, Box.ApplyTo, BoxConfig.PrepareDocument;
  }

  lemma {:induction false} StateSound(env: Box.Env, w: World, state: string, ops: seq<Box.Op>)
    requires Sound(env, w)
    ensures Sound(env, StateStep(env, w, state, ops))
  {
    OthersSound(env, w, ops);
    var v := Others(env, w, ops);
    PushSound(env, w, Box.OpStop);
    PushSound(env, v, Box.OpStart);
    assert Push(env, w, Box.OpStop) == w.(box := Box.StopTo(env, w.box));
    assert Push(env, v, Box.OpStart) == v.(box := Box.StartTo(env, v.box).0);
    hide Sound, Push, Others, Box.StopTo, Box.StartTo;
  }

  lemma {:induction false} ServeSound(env: Box.Env, w: World, r: Response, l: FrpsLuck)
    requires Sound(env, w)
    ensures Sound(env, ServeStep(w, r, l).0) && ServeStep(w, r, l).0.box == w.box
  {
    hide Box.Sound, NodeFrps.ApplyFrps;
  }

  lemma {:induction false} ApplySound(env: Box.Env, w: World, r: Response, luck: Luck)
    requires Sound(env, w) && (CallsConfig(r) ==> r.hash in w.mem.snapshots)
    ensures Sound(env, ApplySync(env, w, r, luck).0)
  {
    ConfigSound(env, w, r);
    var a := ConfigStep(env, w, r).0;
    ServeSound(env, a, r, luck.frps);
    var b := ServeStep(a, r, luck.frps).0;
    OthersSound(env, b, luck.between);
    StateSound(env, Others(env, b, luck.between), r.state, luck.beforeStart);
    hide Sound, ConfigStep, ServeStep, StateStep, Others;
  }

  lemma {:induction false} SettleSound(env: Box.Env, result: (World, bool), now: int)
    requires Sound(env, result.0)
    ensures Sound(env, Settle(result, now).0)
  {
    hide Box.Sound, Delay;
  }

  lemma {:induction false} SnapshotSound(env: Box.Env, w: World, d: Desired)
    requires Sound(env, w)
    ensures Sound(env, Snapshot(w, d))
  {
    hide Box.Sound;
  }

  lemma {:induction false} RoundSound(env: Box.Env, w: World, t: Turn)
    requires Sound(env, w)
    ensures Sound(env, Round(env, w, t).0)
  {
    var same, wanted := NoChange(t.head.state), Respond(t.post, w.mem.configHash, w.mem.frpsHash);
    var kept := Snapshot(w, t.post);
    SnapshotSound(env, w, t.post);
    hide Sound, ApplySync, FrpsHash;
    ApplySound(env, w, same, t.luck);
    ApplySound(env, kept, wanted, t.luck);
    hide Respond, Snapshot, Settle, NoChange;
    SettleSound(env, ApplySync(env, w, same, t.luck), t.now);
    SettleSound(env, ApplySync(env, kept, wanted, t.luck), t.now);
    SettleSound(env, (w, false), t.now);
  }

  /** Over every run of rounds, calls of others and FRPS calls, in any order, also in the midst of a
      round, and however they fare. */
  lemma {:induction false} EveryRunSound(env: Box.Env, w: World, steps: seq<Step>)
    requires Sound(env, w)
    ensures Sound(env, Run(env, w, steps))
    decreases |steps|
  {
    if steps != [] {
      match steps[0] {
        case RoundStep(turn) => RoundSound(env, w, turn);
        case BoxStep(op) => PushSound(env, w, op);
        case ServiceStep(call) => hide Box.Sound;
      }
      hide Sound, Round, Push;
      EveryRunSound(env, Next(env, w, steps[0]), steps[1..]);
    }
  }

  lemma {:induction false} FreshSound(env: Box.Env, loaded: Box.Bytes, frps: Frps)
    ensures Sound(env, Fresh(loaded, frps))
  {
  }

  // ----- The state of the node -----

  /** A start would leave the box running. */
  predicate StartTakes(env: Box.Env, b: Box.Runtime) {
    b.instance.Some? || (b.config != BoxConfig.EMPTY && env.starts(b.attempts))
  }

  /** The world when a round that acts on this response asks for the status. */
  function Asked(env: Box.Env, w: World, r: Response, luck: Luck): World {
    Others(env, ServeStep(ConfigStep(env, w, r).0, r, luck.frps).0, luck.between)
  }

  /** The box runs then, or the start that follows takes. */
  predicate Runs(env: Box.Env, w: World, r: Response, luck: Luck) {
    var a := Asked(env, w, r, luck);
    a.box.instance.Some? || StartTakes(env, Others(env, a, luck.beforeStart).box)
  }

  /** A successful apply: the node is stopped if it should be; if it should run it does exactly if it
      ran when asked or the start took, which is not looked at. */
  lemma {:induction false} ApplyState(env: Box.Env, w: World, r: Response, luck: Luck)
    requires Box.Sound(env, w.box) && ApplySync(env, w, r, luck).1
    ensures r.state == "stopped" ==> ApplySync(env, w, r, luck).0.box.instance.None?
    ensures r.state == "running" || r.state == "" ==> (ApplySync(env, w, r, luck).0.box.instance.Some? <==> Runs(env, w, r, luck))
  {
    var a := Asked(env, w, r, luck);
    AskedSound(env, w, r, luck);
    BoxSound(env, a, luck.beforeStart);
    var b := Others(env, a, luck.beforeStart);
    Box.StartRunsIff(env, b.box);
    Box.StopSound(env, a.box);
    assert a.box.state.Running? <==> a.box.instance.Some?;
    hide ConfigStep, ServeStep, Others, Box.Sound, Box.StartTo, Box.StopInstance;
  }

  lemma {:induction false} BoxSound(env: Box.Env, w: World, ops: seq<Box.Op>)
    requires Box.Sound(env, w.box)
    ensures Box.Sound(env, Others(env, w, ops).box)
    decreases |ops|
  {
    hide Box.Sound, Box.Perform, Box.Accepts;
    if ops != [] {
      Box.PerformSound(env, w.box, ops[0]);
      BoxSound(env, Push(env, w, ops[0]), ops[1..]);
    }
  }

  lemma {:induction false} AskedSound(env: Box.Env, w: World, r: Response, luck: Luck)
    requires Box.Sound(env, w.box)
    ensures Box.Sound(env, Asked(env, w, r, luck).box)
  {
    Box.PerformSound(env, w.box, Box.OpApply(r.text, r.hash));
    hide Box.Sound, Box.ApplyTo, NodeFrps.ApplyFrps;
    var b := ServeStep(ConfigStep(env, w, r).0, r, luck.frps).0;
    assert Box.Sound(env, b.box);
    BoxSound(env, b, luck.between);
    hide ConfigStep, ServeStep, Others;
  }

  // ----- Contracts of the calls -----

  /** An apply keeps soundness if the Panel stored what it sends; remembers a hash exactly if the box
      accepted its document; and if it succeeds the node is in the desired state as `ApplyState` says. */
  predicate AppliesWell(env: Box.Env, w: World, r: Response, luck: Luck, v: World, ok: bool) {
    && (Sound(env, w) && (CallsConfig(r) ==> r.hash in w.mem.snapshots) ==> Sound(env, v))
    && v.mem.confirmed == (if Takes(env, w, r) then w.mem.confirmed + [r.hash] else w.mem.confirmed)
    && v.mem.configHash == (if Takes(env, w, r) then r.hash else w.mem.configHash)
    && (Box.Sound(env, w.box) && ok ==>
          && (r.state == "stopped" ==> v.box.instance.None?)
          && (r.state == "running" || r.state == "" ==> (v.box.instance.Some? <==> Runs(env, w, r, luck))))
  }

  lemma {:induction false} ApplyWell(env: Box.Env, w: World, r: Response, luck: Luck)
    ensures AppliesWell(env, w, r, luck, ApplySync(env, w, r, luck).0, ApplySync(env, w, r, luck).1)
  {
    if Sound(env, w) && (CallsConfig(r) ==> r.hash in w.mem.snapshots) {
      ApplySound(env, w, r, luck);
    }
    ApplyShape(env, w, r, luck);
    if Box.Sound(env, w.box) && ApplySync(env, w, r, luck).1 {
      ApplyState(env, w, r, luck);
    }
    hide Sound, Box.Sound, ApplySync, Takes, Runs, NodeFrps.ApplyFrps;
  }

  /** The Panel's head says that both hashes agree, or its answer is had, the box accepts the
      configuration if that differs, and the FRPS apply succeeds if that differs. */
  predicate RoundGoes(env: Box.Env, w: World, t: Turn) {
    || (t.luck.head && t.head.hash != "" && t.head.hash == w.mem.configHash
        && w.mem.frpsHash == if t.head.frps.Some? then t.head.frps.value.hash else "")
    || (&& t.luck.post
        && (t.post.hash != w.mem.configHash && t.post.text != BoxConfig.EMPTY ==>
              Box.Accepted(Box.ApplyTo(env, w.box, t.post.text, t.post.hash).1))
        && (t.post.frps.Some? && t.post.frps.value.hash != w.mem.frpsHash ==> ApplyFrps(w.frps, t.post.frps.value, t.luck.frps).1))
  }

  /** Outside its delay a round succeeds exactly when it goes through. */
  lemma {:induction false} RoundIff(env: Box.Env, w: World, t: Turn)
    ensures var waits := w.mem.nextTry.Some? && t.now < w.mem.nextTry.value;
            && (Round(env, w, t).1 == Skipped <==> waits)
            && (Round(env, w, t).1 == Synced <==> !waits && RoundGoes(env, w, t))
  {
    var wanted := Respond(t.post, w.mem.configHash, w.mem.frpsHash);
    ApplyShape(env, w, NoChange(t.head.state), t.luck);
    ApplyShape(env, Snapshot(w, t.post), wanted, t.luck);
    hide ApplySync, Box.ApplyTo, NodeFrps.ApplyFrps, NoteFailure, ClearFailure;
  }

  /** A round keeps soundness, backs off after a failure and only then, and comes closer to a
      configuration that both of its requests were answered with. */
  predicate RoundKeeps(env: Box.Env, w: World, t: Turn, v: World, outcome: Outcome) {
    && (outcome == Synced <==> outcome != Skipped && RoundGoes(env, w, t))
    && (Sound(env, w) ==> Sound(env, v))
    && (outcome == Skipped <==> w.mem.nextTry.Some? && t.now < w.mem.nextTry.value) && (outcome == Skipped ==> v == w)
    && (outcome == Synced ==> v.mem.failStreak == 0 && v.mem.nextTry == None)
    && (outcome == Retry ==> v.mem.failStreak == w.mem.failStreak + 1 && v.mem.nextTry == Some(t.now + Delay(v.mem.failStreak)))
    && (t.head == t.post && WellFormed(t.post) ==>
          && Distance(v, t.post) <= Distance(w, t.post)
          && (outcome == Synced && Distance(w, t.post) > 0 ==> Distance(v, t.post) == Distance(w, t.post) - 1)
          && (InSync(w, t.post) ==> v.mem.configCalls == w.mem.configCalls && v.mem.frpsCalls == w.mem.frpsCalls))
    && (Sound(env, w) && t.head == t.post && outcome == Synced ==> ReachesState(env, w, t, v))
  }

  /** What a successful round leaves the box doing. */
  predicate ReachesState(env: Box.Env, w: World, t: Turn, v: World) {
    var d := t.post;
    && (d.state == "stopped" ==> v.box.instance.None?)
    && (d.state == "running" || d.state == "" ==>
          (v.box.instance.Some? <==> Runs(env, w, Respond(d, w.mem.configHash, w.mem.frpsHash), t.luck)))
  }

  lemma {:induction false} RoundKept(env: Box.Env, w: World, t: Turn)
    ensures RoundKeeps(env, w, t, Round(env, w, t).0, Round(env, w, t).1)
  {
    if Sound(env, w) {
      RoundSound(env, w, t);
      if t.head == t.post && Round(env, w, t).1 == Synced {
        StateReached(env, w, t);
      }
    }
    if t.head == t.post && WellFormed(t.post) {
      RoundCloser(env, w, t);
    }
    RoundOutcome(env, w, t);
    RoundIff(env, w, t);
    hide Round, Sound, Distance, InSync, Delay, ReachesState, RoundGoes;
  }

  lemma {:induction false} RoundOutcome(env: Box.Env, w: World, t: Turn)
    ensures var (v, outcome) := Round(env, w, t);
            && (outcome == Skipped <==> Backing(w.mem, t.now)) && (outcome == Skipped ==> v == w)
            && (outcome == Synced ==> v.mem.failStreak == 0 && v.mem.nextTry == None)
            && (outcome == Retry ==> v.mem.failStreak == w.mem.failStreak + 1 && v.mem.nextTry == Some(t.now + Delay(v.mem.failStreak)))
  {
    StreakUntouched(env, w, NoChange(t.head.state), t.luck);
    StreakUntouched(env, Snapshot(w, t.post), Respond(t.post, w.mem.configHash, w.mem.frpsHash), t.luck);
    hide Delay, ApplySync, Respond, FrpsHash;
  }

  lemma {:induction false} StreakUntouched(env: Box.Env, w: World, r: Response, luck: Luck)
    ensures ApplySync(env, w, r, luck).0.mem.failStreak == w.mem.failStreak
  {
    ApplyShape(env, w, r, luck);
    hide ApplySync;
  }

  /** After a successful round that wants the node running, it runs exactly if it ran when the round
      asked for its status or the start that follows took. A round that wants it stopped stops it. */
  lemma {:induction false} StateReached(env: Box.Env, w: World, t: Turn)
    requires Sound(env, w) && t.head == t.post && Round(env, w, t).1 == Synced
    ensures ReachesState(env, w, t, Round(env, w, t).0)
  {
    var d := t.post;
    var same, wanted := NoChange(d.state), Respond(d, w.mem.configHash, w.mem.frpsHash);
    var kept := Snapshot(w, d);
    assert InSync(w, d) ==> wanted == same;
    SameBox(env, w, kept, wanted, t.luck);
    hide Box.Sound;
    if ApplySync(env, w, same, t.luck).1 {
      ApplyState(env, w, same, t.luck);
    }
    if ApplySync(env, kept, wanted, t.luck).1 {
      ApplyState(env, kept, wanted, t.luck);
    }
    hide ApplySync, Runs, Respond, Snapshot, FrpsHash, NoChange;
  }

  /** The Panel's snapshots do not bear on the box. */
  lemma {:induction false} SameBox(env: Box.Env, w: World, v: World, r: Response, luck: Luck)
    requires v.box == w.box && v.frps == w.frps
    ensures Runs(env, v, r, luck) <==> Runs(env, w, r, luck)
  {
    hide Box.ApplyTo, NodeFrps.ApplyFrps;
    var a, b := ServeStep(ConfigStep(env, w, r).0, r, luck.frps).0, ServeStep(ConfigStep(env, v, r).0, r, luck.frps).0;
    assert a.box == b.box;
    hide ConfigStep, ServeStep;
    SameOthers(env, a, b, luck.between);
    SameOthers(env, Others(env, a, luck.between), Others(env, b, luck.between), luck.beforeStart);
  }

  lemma {:induction false} SameOthers(env: Box.Env, w: World, v: World, ops: seq<Box.Op>)
    requires w.box == v.box
    ensures Others(env, w, ops).box == Others(env, v, ops).box
    decreases |ops|
  {
    hide Box.Perform, Box.Accepts;
    if ops != [] {
      SameOthers(env, Push(env, w, ops[0]), Push(env, v, ops[0]), ops[1..]);
    }
  }

  // ----- Convergence to a fixed configuration -----

  predicate InSync(w: World, d: Desired) {
    w.mem.configHash == d.hash && w.mem.frpsHash == FrpsHash(d)
  }

  /** The FRPS configuration was removed while the proxy configuration changed. */
  predicate RemovedWhileChanged(w: World, d: Desired) {
    d.frps.None? && w.mem.frpsHash != "" && w.mem.configHash != d.hash
  }

  /** How many successful rounds are still needed. */
  function Distance(w: World, d: Desired): nat {
    if InSync(w, d) then 0 else if RemovedWhileChanged(w, d) then 2 else 1
  }

  /** One round towards a fixed configuration. A successful round comes one closer, any other
      no farther; a node in sync is not sent either configuration again, and each of the two is
      confirmed at most once more. */
  lemma {:induction false} RoundCloser(env: Box.Env, w: World, t: Turn)
    requires t.head == t.post && WellFormed(t.post)
    ensures var d := t.post;
            var (v, outcome) := Round(env, w, t);
            && Distance(v, d) <= Distance(w, d)
            && (outcome == Synced && Distance(w, d) > 0 ==> Distance(v, d) == Distance(w, d) - 1)
            && (InSync(w, d) ==> v.mem.configCalls == w.mem.configCalls && v.mem.frpsCalls == w.mem.frpsCalls && v.frps == w.frps)
            && |w.mem.confirmed| <= |v.mem.confirmed| <= |w.mem.confirmed| + (if w.mem.configHash != d.hash then 1 else 0)
            && (w.mem.configHash == d.hash ==> v.mem.configHash == d.hash)
            && (|v.mem.confirmed| > |w.mem.confirmed| ==> v.mem.configHash == d.hash)
  {
    hide ApplySync, Delay, Takes, NodeFrps.ApplyFrps;
    var d := t.post;
    ApplyShape(env, w, NoChange(d.state), t.luck);
    ApplyShape(env, Snapshot(w, d), Respond(d, w.mem.configHash, w.mem.frpsHash), t.luck);
    OnlyCalled(env, Snapshot(w, d), Respond(d, w.mem.configHash, w.mem.frpsHash));
  }

  lemma {:induction false} OnlyCalled(env: Box.Env, w: World, r: Response)
    ensures Takes(env, w, r) ==> CallsConfig(r)
  {
  }
}
