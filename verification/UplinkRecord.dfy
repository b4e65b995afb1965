/** What equal hashes say about the box: which document it has on record, and when it runs it. */
module UplinkRecord {
  import opened Outcomes
  import opened BoxConfig
  import opened NodeFrps
  import opened UplinkSync
  import opened UplinkRuns
  import Box = BoxRuntime

  // ----- Hashes stand for documents -----

  /** The text is the document with this hash, or none at all. */
  predicate Named(docs: string -> Document, text: Text, hash: string) {
    text.Canonical? ==> text.doc == docs(hash)
  }

  predicate AllNamed(docs: string -> Document, ops: seq<Box.Op>) {
    forall k | 0 <= k < |ops| && ops[k].OpApply? :: Named(docs, ops[k].text, ops[k].hash)
  }

  predicate NamedStep(docs: string -> Document, s: Step) {
    match s
    case RoundStep(t) => Named(docs, t.post.text, t.post.hash) && AllNamed(docs, t.luck.between) && AllNamed(docs, t.luck.beforeStart)
    case BoxStep(op) => AllNamed(docs, [op])
    case ServiceStep(_) => true
  }

  /** The box has the prepared document of its hash on record. */
  predicate Titled(env: Box.Env, docs: string -> Document, b: Box.Runtime) {
    && Box.Sound(env, b)
    && (b.config == EMPTY || b.config == Canonical(PrepareDocument(env.android, docs(b.hash))))
  }

  lemma {:induction false} PerformTitled(env: Box.Env, docs: string -> Document, b: Box.Runtime, op: Box.Op)
    requires Titled(env, docs, b) && (op.OpApply? ==> Named(docs, op.text, op.hash))
    ensures Titled(env, docs, Box.Perform(env, b, op))
  {
    Box.PerformSound(env, b, op);
    Box.RecordAfter(env, b, op);
    hide Box.Sound, Box.Perform, Box.Accepts, PrepareDocument;
  }

  lemma {:induction false} OthersTitled(env: Box.Env, docs: string -> Document, w: World, ops: seq<Box.Op>)
    requires Titled(env, docs, w.box) && AllNamed(docs, ops)
    ensures Titled(env, docs, Others(env, w, ops).box)
    decreases |ops|
  {
    hide Titled, Box.Perform, Box.Accepts, Named;
    if ops != [] {
      PerformTitled(env, docs, w.box, ops[0]);
      OthersTitled(env, docs, Push(env, w, ops[0]), ops[1..]);
    }
  }

  lemma {:induction false} ApplyTitled(env: Box.Env, docs: string -> Document, w: World, r: Response, luck: Luck)
    requires Titled(env, docs, w.box) && (CallsConfig(r) ==> Named(docs, r.text, r.hash))
    requires AllNamed(docs, luck.between) && AllNamed(docs, luck.beforeStart)
    ensures Titled(env, docs, ApplySync(env, w, r, luck).0.box)
  {
    hide Titled, Named, AllNamed, Others, NodeFrps.ApplyFrps;
    var a := ConfigStep(env, w, r).0;
    if CallsConfig(r) {
      PerformTitled(env, docs, w.box, Box.OpApply(r.text, r.hash));
    }
    assert Titled(env, docs, a.box) by { hide Box.ApplyTo; }
    var b := ServeStep(a, r, luck.frps).0;
    assert b.box == a.box;
    OthersTitled(env, docs, b, luck.between);
    var c := Others(env, b, luck.between);
    OthersTitled(env, docs, c, luck.beforeStart);
    PerformTitled(env, docs, c.box, Box.OpStop);
    PerformTitled(env, docs, Others(env, c, luck.beforeStart).box, Box.OpStart);
    hide ConfigStep, ServeStep, Box.StopTo, Box.StartTo;
  }

  lemma {:induction false} NextTitled(env: Box.Env, docs: string -> Document, w: World, s: Step)
    requires Titled(env, docs, w.box) && NamedStep(docs, s)
    ensures Titled(env, docs, Next(env, w, s).box)
  {
    match s {
      case RoundStep(t) =>
        var same, wanted := NoChange(t.head.state), Respond(t.post, w.mem.configHash, w.mem.frpsHash);
        hide Titled, ApplySync, AllNamed, Delay;
        ApplyTitled(env, docs, w, same, t.luck);
        ApplyTitled(env, docs, Snapshot(w, t.post), wanted, t.luck);
      case BoxStep(op) =>
        assert [op][0] == op;
        PerformTitled(env, docs, w.box, op);
      case ServiceStep(_) =>
    }
  }

  lemma {:induction false} RunTitled(env: Box.Env, docs: string -> Document, w: World, steps: seq<Step>)
    requires Titled(env, docs, w.box) && forall k | 0 <= k < |steps| :: NamedStep(docs, steps[k])
    ensures Titled(env, docs, Run(env, w, steps).box)
    decreases |steps|
  {
    hide Titled, NamedStep, Next;
    if steps != [] {
      NextTitled(env, docs, w, steps[0]);
      RunTitled(env, docs, Next(env, w, steps[0]), steps[1..]);
    }
  }

  // ----- Equal hashes -----

  /** Nothing else was accepted from others since the client's last confirmed apply. */
  predicate Undisturbed(w: World, d: Desired) {
    w.pushed.None? || w.pushed.value == d.hash
  }

  /** The wanted document, as the box prepares it, is on record. */
  predicate OnRecord(env: Box.Env, docs: string -> Document, w: World, d: Desired) {
    w.box.hash == d.hash && w.box.config == Canonical(PrepareDocument(env.android, docs(d.hash)))
  }

  /** In every world that can be reached: equal hashes mean that the wanted document is on record
      exactly if no other document was accepted from others since the last confirmed apply. */
  lemma {:induction false} RecordedIff(env: Box.Env, docs: string -> Document, loaded: Box.Bytes, frps: Frps, steps: seq<Step>, d: Desired)
    requires WellFormed(d) && forall k | 0 <= k < |steps| :: NamedStep(docs, steps[k])
    ensures var w := Run(env, Fresh(loaded, frps), steps);
            InSync(w, d) ==> (OnRecord(env, docs, w, d) <==> Undisturbed(w, d))
  {
    FreshSound(env, loaded, frps);
    EveryRunSound(env, Fresh(loaded, frps), steps);
    RunTitled(env, docs, Fresh(loaded, frps), steps);
    hide Run, NamedStep, Box.Sound, PrepareDocument;
  }

  /** After a successful round that leaves the hashes equal, the node runs the wanted document exactly
      if nothing else was accepted from others and it ran when asked or its start took. */
  lemma {:induction false} RunsDesiredIff(env: Box.Env, docs: string -> Document, loaded: Box.Bytes, frps: Frps, steps: seq<Step>, t: Turn)
    requires t.head == t.post && WellFormed(t.post) && (t.post.state == "running" || t.post.state == "")
    requires (forall k | 0 <= k < |steps| :: NamedStep(docs, steps[k])) && NamedStep(docs, RoundStep(t))
    ensures var w := Run(env, Fresh(loaded, frps), steps);
            var (v, outcome) := Round(env, w, t);
            outcome == Synced && InSync(v, t.post) ==>
              (v.box.instance.Some? && OnRecord(env, docs, v, t.post)
               <==> Undisturbed(v, t.post) && Runs(env, w, Respond(t.post, w.mem.configHash, w.mem.frpsHash), t.luck))
  {
    hide NamedStep, Round, Box.Sound, Runs, OnRecord, Undisturbed;
    var w := Run(env, Fresh(loaded, frps), steps);
    FreshSound(env, loaded, frps);
    EveryRunSound(env, Fresh(loaded, frps), steps);
    if Round(env, w, t).1 == Synced {
      StateReached(env, w, t);
    }
    var longer := steps + [RoundStep(t)];
    RunLonger(env, Fresh(loaded, frps), steps, RoundStep(t));
    RecordedIff(env, docs, loaded, frps, longer, t.post);
    hide Run;
  }

  lemma {:induction false} RunLonger(env: Box.Env, w: World, steps: seq<Step>, s: Step)
    ensures Run(env, w, steps + [s]) == Next(env, Run(env, w, steps), s)
    decreases |steps|
  {
    hide Next;
    if steps == [] {
      assert steps + [s] == [s];
      assert [s][1..] == [];
    } else {
      assert (steps + [s])[1..] == steps[1..] + [s];
      RunLonger(env, Next(env, w, steps[0]), steps[1..], s);
    }
  }

  // ----- Where equal hashes mislead -----

  /** Rounds answered with this configuration, in which nobody else acts. */
  predicate Alone(steps: seq<Step>, d: Desired) {
    forall k | 0 <= k < |steps| ::
      && steps[k].RoundStep? && steps[k].turn.head == d && steps[k].turn.post == d
      && steps[k].turn.luck.between == [] && steps[k].turn.luck.beforeStart == []
  }

  /** A refused start ends a round as a success: the failures are cleared and nothing runs. */
  lemma {:induction false} RefusedStart(env: Box.Env, w: World, t: Turn)
    requires Sound(env, w) && WellFormed(t.post) && InSync(w, t.post) && Alone([RoundStep(t)], t.post)
    requires (t.post.state == "running" || t.post.state == "") && !Backing(w.mem, t.now) && (t.luck.head || t.luck.post)
    requires w.box.instance.None? && !env.starts(w.box.attempts)
    ensures var (v, outcome) := Round(env, w, t);
            outcome == Synced && v.mem.failStreak == 0 && v.mem.nextTry == None && v.box.instance.None? && InSync(v, t.post)
  {
    assert [RoundStep(t)][0] == RoundStep(t);
    var d := t.post;
    var same := NoChange(d.state);
    assert Respond(d, w.mem.configHash, w.mem.frpsHash) == same;
    assert Snapshot(w, d) == w;
    assert Others(env, w, []) == w;
    assert !Runs(env, w, same, t.luck);
    ApplyShape(env, w, same, t.luck);
    ApplyState(env, w, same, t.luck);
    RoundCloser(env, w, t);
    RoundOutcome(env, w, t);
    hide ApplySync, Runs, Respond;
  }

  lemma {:induction false} RoundDown(env: Box.Env, w: World, t: Turn)
    requires Sound(env, w) && WellFormed(t.post) && InSync(w, t.post) && Alone([RoundStep(t)], t.post)
    requires w.box.instance.None? && forall n | n >= w.box.attempts :: !env.starts(n)
    ensures var v := Round(env, w, t).0;
            && Sound(env, v) && InSync(v, t.post) && v.box.instance.None? && v.box.attempts >= w.box.attempts
            && v.box.hash == w.box.hash && v.box.config == w.box.config
  {
    assert [RoundStep(t)][0] == RoundStep(t);
    var d := t.post;
    var same := NoChange(d.state);
    assert Respond(d, w.mem.configHash, w.mem.frpsHash) == same;
    assert Snapshot(w, d) == w;
    RoundSound(env, w, t);
    RoundCloser(env, w, t);
    StateAlone(env, w, d.state);
    assert ApplySync(env, w, same, t.luck).0 == StateStep(env, w, d.state, []);
    hide ApplySync, StateStep, Respond, Snapshot, Sound, FrpsHash, Delay;
  }

  lemma {:induction false} StateAlone(env: Box.Env, w: World, state: string)
    requires Box.Sound(env, w.box) && w.box.instance.None? && !env.starts(w.box.attempts)
    ensures var v := StateStep(env, w, state, []);
            v.box.instance.None? && v.box.attempts >= w.box.attempts && v.box.hash == w.box.hash && v.box.config == w.box.config
  {
    Box.StartRunsIff(env, w.box);
    Box.RecordAfter(env, w.box, Box.OpStart);
    Box.RecordAfter(env, w.box, Box.OpStop);
    Box.AttemptsGrow(env, w.box);
    hide Box.StartTo, Box.ApplyTo;
  }

  /** From then on, while starts are refused, rounds go on succeeding and nothing runs. */
  lemma {:induction false} StaysDown(env: Box.Env, w: World, d: Desired, steps: seq<Step>)
    requires Sound(env, w) && WellFormed(d) && InSync(w, d) && Alone(steps, d)
    requires w.box.instance.None? && forall n | n >= w.box.attempts :: !env.starts(n)
    ensures var v := Run(env, w, steps);
            InSync(v, d) && v.box.instance.None? && v.box.hash == w.box.hash && v.box.config == w.box.config
    decreases |steps|
  {
    hide Sound, Round, InSync;
    if steps != [] {
      assert [RoundStep(steps[0].turn)][0] == steps[0];
      RoundDown(env, w, steps[0].turn);
      StaysDown(env, Next(env, w, steps[0]), d, steps[1..]);
    }
  }

  const FIRST := Desired(Canonical(map[]), "d", None, "running")
  const SECOND := Desired(Canonical(map["log" := Null]), "e", None, "running")
  const NO_FRPS := Frps("", false, false)
  const ALONE := Luck(true, true, [], FrpsLuck(true, Up, Up, true), [])

  /** Only the very first start succeeds. */
  const ONE_START := Box.Env(false, false, (doc: Document) => true, (n: nat) => n == 0, (n: nat) => true)
  const ALL_STARTS := Box.Env(false, false, (doc: Document) => true, (n: nat) => true, (n: nat) => true)

  lemma {:induction false} FirstRound(env: Box.Env)
    requires env == ONE_START || env == ALL_STARTS
    ensures var v := Round(env, Fresh(Box.ZERO, NO_FRPS), Turn(0, FIRST, FIRST, ALONE)).0;
            && Sound(env, v) && InSync(v, FIRST) && v.mem.failStreak == 0 && v.mem.nextTry == None
            && v.box.instance == Some(0) && v.box.attempts == 1 && v.box.hash == "d"
            && v.box.config == Canonical(PrepareDocument(false, map[])) && v.pushed == None
  {
    var w, t := Fresh(Box.ZERO, NO_FRPS), Turn(0, FIRST, FIRST, ALONE);
    FreshSound(env, Box.ZERO, NO_FRPS);
    RoundSound(env, w, t);
    var kept, wanted := Snapshot(w, FIRST), Respond(FIRST, "", "");
    FirstApply(env, kept.box);
    assert Takes(env, kept, wanted);
    ApplyShape(env, kept, wanted, ALONE);
    hide Box.ApplyTo, Sound;
    var a := ConfigStep(env, kept, wanted).0;
    assert ServeStep(a, wanted, ALONE.frps) == (a, true);
    assert Others(env, a, []) == a;
    assert StateStep(env, a, "running", []) == a;
    assert ApplySync(env, kept, wanted, ALONE) == (a, true);
  }

  lemma {:induction false} FirstApply(env: Box.Env, b: Box.Runtime)
    requires env == ONE_START || env == ALL_STARTS
    requires b == Box.Fresh(Box.ZERO)
    ensures var (c, reply) := Box.ApplyTo(env, b, FIRST.text, "d");
            && reply == Box.Applied && c.state.Running? && c.instance == Some(0) && c.attempts == 1 && c.hash == "d"
            && c.config == Canonical(PrepareDocument(false, map[]))
  {
    var doc := PrepareDocument(false, map[]);
    assert Box.FrpcReadable(doc);
    hide PrepareDocument;
  }

  /** The second document does not start, and the first does not start again either. */
  lemma {:induction false} SecondApply(b: Box.Runtime)
    requires Box.Sound(ONE_START, b) && b.instance == Some(0) && b.attempts == 1 && b.hash == "d"
    requires b.config == Canonical(PrepareDocument(false, map[]))
    ensures var (c, reply) := Box.ApplyTo(ONE_START, b, SECOND.text, "e");
            reply == Box.Down && c.instance.None? && c.attempts == 3 && c.hash == "d" && c.config == b.config
  {
    var first, second := PrepareDocument(false, map[]), PrepareDocument(false, map["log" := Null]);
    assert "log" in second && "log" !in first;
    assert Box.FrpcReadable(first) && Box.FrpcReadable(second);
    PrepareIdempotent(false, map[]);
    hide PrepareDocument;
  }

  lemma {:induction false} SecondRound(w: World)
    requires Sound(ONE_START, w) && InSync(w, FIRST) && w.mem.failStreak == 0 && w.mem.nextTry == None
    requires w.box.instance == Some(0) && w.box.attempts == 1 && w.box.hash == "d" && w.pushed == None
    requires w.box.config == Canonical(PrepareDocument(false, map[]))
    ensures var (v, outcome) := Round(ONE_START, w, Turn(10, SECOND, SECOND, ALONE));
            && outcome == Retry && Sound(ONE_START, v) && InSync(v, FIRST) && v.mem.nextTry == Some(70) && v.pushed == None
            && v.box.instance.None? && v.box.attempts == 3 && v.box.hash == "d" && v.box.config == w.box.config
  {
    var t := Turn(10, SECOND, SECOND, ALONE);
    RoundSound(ONE_START, w, t);
    SecondApply(w.box);
    var kept, wanted := Snapshot(w, SECOND), Respond(SECOND, "d", "");
    assert SECOND.text != EMPTY;
    hide Box.ApplyTo, Sound, PrepareDocument;
    assert !Takes(ONE_START, kept, wanted);
    assert ApplySync(ONE_START, kept, wanted, ALONE) == ConfigStep(ONE_START, kept, wanted);
  }

  const OLD_AGAIN := [
    RoundStep(Turn(0, FIRST, FIRST, ALONE)), RoundStep(Turn(10, SECOND, SECOND, ALONE)), RoundStep(Turn(100, FIRST, FIRST, ALONE))]

  /** A node that is in sync, has been pushed nothing by others, and runs nothing. */
  predicate DownInSync(w: World) {
    && Sound(ONE_START, w) && InSync(w, FIRST) && w.pushed == None && w.mem.failStreak == 0 && w.mem.nextTry == None
    && w.box.instance.None? && w.box.attempts >= 3 && w.box.hash == FIRST.hash
  }

  lemma {:induction false} ThirdRound(w: World, t: Turn)
    requires Sound(ONE_START, w) && InSync(w, FIRST) && w.mem.nextTry == Some(70) && w.pushed == None
    requires w.box.instance.None? && w.box.attempts == 3 && w.box.hash == "d" && t == Turn(100, FIRST, FIRST, ALONE)
    ensures DownInSync(Round(ONE_START, w, t).0)
  {
    assert Alone([RoundStep(t)], FIRST) && NoPush(RoundStep(t)) && WellFormed(FIRST);
    assert forall n | n >= 3 :: !ONE_START.starts(n);
    RoundKeepsRecord(ONE_START, w, t);
    hide Round, Sound, InSync, Alone, NoPush, WellFormed;
    RefusedStart(ONE_START, w, t);
    RoundDown(ONE_START, w, t);
  }

  lemma {:induction false} OldAgain() returns (w: World)
    ensures w == Run(ONE_START, Fresh(Box.ZERO, NO_FRPS), OLD_AGAIN) && DownInSync(w)
  {
    var a, b, c := Turn(0, FIRST, FIRST, ALONE), Turn(10, SECOND, SECOND, ALONE), Turn(100, FIRST, FIRST, ALONE);
    var start := Fresh(Box.ZERO, NO_FRPS);
    hide Round, Sound, InSync, DownInSync;
    FirstRound(ONE_START);
    var one := Round(ONE_START, start, a).0;
    SecondRound(one);
    var two := Round(ONE_START, one, b).0;
    ThirdRound(two, c);
    Three(ONE_START, start, RoundStep(a), RoundStep(b), RoundStep(c));
    w := Round(ONE_START, two, c).0;
  }

  /** A document that does not start, and the one before it that does not start again: if that one is
      then wanted again the hashes agree, nothing was pushed by others, and rounds succeed for as
      long as starts are refused, with nothing running. */
  lemma {:induction false} DownSticks(steps: seq<Step>) returns (w: World)
    requires Alone(steps, FIRST)
    ensures w == Run(ONE_START, Fresh(Box.ZERO, NO_FRPS), OLD_AGAIN) && DownInSync(w)
    ensures var v := Run(ONE_START, w, steps); InSync(v, FIRST) && v.box.instance.None? && v.box.hash == FIRST.hash
  {
    assert WellFormed(FIRST) && forall n | n >= 3 :: !ONE_START.starts(n);
    hide Run, Sound, InSync, Alone, WellFormed;
    w := OldAgain();
    StaysDown(ONE_START, w, FIRST, steps);
  }

  lemma {:induction false} Three(env: Box.Env, w: World, a: Step, b: Step, c: Step)
    ensures Run(env, w, [a, b, c]) == Next(env, Next(env, Next(env, w, a), b), c)
  {
    hide Next;
    assert [a, b] + [c] == [a, b, c] && [a] + [b] == [a, b] && [] + [a] == [a];
    RunLonger(env, w, [a, b], c);
    RunLonger(env, w, [a], b);
    RunLonger(env, w, [], a);
  }

  // ----- Pushes of others -----

  predicate NoApply(ops: seq<Box.Op>) {
    forall k | 0 <= k < |ops| :: !ops[k].OpApply?
  }

  /** Others may stop and start the box, but push no document. */
  predicate NoPush(s: Step) {
    match s
    case RoundStep(t) => NoApply(t.luck.between) && NoApply(t.luck.beforeStart)
    case BoxStep(op) => !op.OpApply?
    case ServiceStep(_) => true
  }

  predicate SameRecord(w: World, v: World) {
    v.box.hash == w.box.hash && v.box.config == w.box.config && v.pushed == w.pushed
  }

  lemma {:induction false} OthersKeepRecord(env: Box.Env, w: World, ops: seq<Box.Op>)
    requires Box.Sound(env, w.box) && NoApply(ops)
    ensures SameRecord(w, Others(env, w, ops)) && Box.Sound(env, Others(env, w, ops).box)
    decreases |ops|
  {
    if ops != [] {
      Box.RecordAfter(env, w.box, ops[0]);
      Box.PerformSound(env, w.box, ops[0]);
      hide Box.Perform, Box.Sound;
      OthersKeepRecord(env, Push(env, w, ops[0]), ops[1..]);
    }
  }

  lemma {:induction false} RoundKeepsRecord(env: Box.Env, w: World, t: Turn)
    requires Box.Sound(env, w.box) && t.head == t.post && WellFormed(t.post) && InSync(w, t.post) && NoPush(RoundStep(t))
    ensures SameRecord(w, Round(env, w, t).0) && Box.Sound(env, Round(env, w, t).0.box)
  {
    var d := t.post;
    assert Respond(d, w.mem.configHash, w.mem.frpsHash) == NoChange(d.state);
    assert Snapshot(w, d) == w;
    OthersKeepRecord(env, w, t.luck.between);
    var a := Others(env, w, t.luck.between);
    OthersKeepRecord(env, a, t.luck.beforeStart);
    var b := Others(env, a, t.luck.beforeStart);
    Box.RecordAfter(env, a.box, Box.OpStop);
    Box.RecordAfter(env, b.box, Box.OpStart);
    Box.PerformSound(env, a.box, Box.OpStop);
    Box.PerformSound(env, b.box, Box.OpStart);
    assert ApplySync(env, w, NoChange(d.state), t.luck) == (StateStep(env, a, d.state, t.luck.beforeStart), true);
    hide ApplySync, Others, Box.StartTo, Box.StopTo, Box.Sound;
  }

  /** In sync, and with no document pushed by others, the same document stays on record; and the FRPS
      service is left alone unless others call it or it exits. */
  lemma {:induction false} RecordStays(env: Box.Env, w: World, d: Desired, steps: seq<Step>)
    requires Box.Sound(env, w.box) && WellFormed(d) && InSync(w, d) && Fixed(steps, d) && forall k | 0 <= k < |steps| :: NoPush(steps[k])
    ensures SameRecord(w, Run(env, w, steps))
    ensures (forall k | 0 <= k < |steps| :: !steps[k].ServiceStep?) ==> Run(env, w, steps).frps == w.frps
    decreases |steps|
  {
    if steps != [] {
      var s := steps[0];
      StepCloser(env, w, d, s);
      match s {
        case RoundStep(t) =>
          RoundKeepsRecord(env, w, t);
          RoundCloser(env, w, t);
        case BoxStep(op) =>
          Box.RecordAfter(env, w.box, op);
          Box.PerformSound(env, w.box, op);
        case ServiceStep(_) =>
      }
      hide Round, Box.Perform, Box.Sound, PerformFrps;
      assert SameRecord(w, Next(env, w, s)) && Box.Sound(env, Next(env, w, s).box);
      RecordStays(env, Next(env, w, s), d, steps[1..]);
    }
  }

  /** A document pushed by others to a node in sync stays on record, whatever rounds are answered with
      the wanted one and whoever stops or starts the box: the hashes go on agreeing. */
  lemma {:induction false} PushSticks(env: Box.Env, w: World, d: Desired, op: Box.Op, steps: seq<Step>)
    requires Sound(env, w) && WellFormed(d) && InSync(w, d) && Box.Accepts(env, w.box, op)
    requires Fixed(steps, d) && forall k | 0 <= k < |steps| :: NoPush(steps[k])
    ensures var v := Run(env, Push(env, w, op), steps);
            InSync(v, d) && v.box.hash == op.hash && v.box.config != EMPTY
  {
    Box.RecordAfter(env, w.box, op);
    Box.PerformSound(env, w.box, op);
    StepCloser(env, w, d, BoxStep(op));
    hide Box.Sound, Box.Perform, Box.Accepts;
    RecordStays(env, Push(env, w, op), d, steps);
    StaysInSync(env, Push(env, w, op), d, steps);
    hide Run;
  }

  /** As when the Panel deploys a certificate over the live channel and the binding is then removed:
      the node goes on running the pushed document. */
  lemma {:induction false} PushExample(steps: seq<Step>)
    requires Alone(steps, FIRST)
    ensures var w := Round(ALL_STARTS, Fresh(Box.ZERO, NO_FRPS), Turn(0, FIRST, FIRST, ALONE)).0;
            var v := Run(ALL_STARTS, Push(ALL_STARTS, w, Box.OpApply(SECOND.text, SECOND.hash)), steps);
            InSync(v, FIRST) && v.box.instance.Some? && v.box.hash == SECOND.hash != FIRST.hash
  {
    var op := Box.OpApply(SECOND.text, SECOND.hash);
    FirstRound(ALL_STARTS);
    var w := Round(ALL_STARTS, Fresh(Box.ZERO, NO_FRPS), Turn(0, FIRST, FIRST, ALONE)).0;
    ThirdApply(w.box);
    hide Round, Sound, Box.ApplyTo;
    assert Box.Accepts(ALL_STARTS, w.box, op);
    AloneIsFixed(steps, FIRST);
    PushSticks(ALL_STARTS, w, FIRST, op, steps);
    PushSound(ALL_STARTS, w, op);
    StaysUp(ALL_STARTS, Push(ALL_STARTS, w, op), FIRST, steps);
  }

  lemma {:induction false} ThirdApply(b: Box.Runtime)
    requires Box.Sound(ALL_STARTS, b) && b.instance == Some(0) && b.attempts == 1 && b.hash == "d"
    ensures var (c, reply) := Box.ApplyTo(ALL_STARTS, b, SECOND.text, "e");
            reply == Box.Applied && c.instance.Some? && c.hash == "e"
  {
    var second := PrepareDocument(false, map["log" := Null]);
    assert Box.FrpcReadable(second);
    hide PrepareDocument;
  }

  lemma {:induction false} AloneIsFixed(steps: seq<Step>, d: Desired)
    requires Alone(steps, d)
    ensures Fixed(steps, d) && forall k | 0 <= k < |steps| :: NoPush(steps[k])
  {
  }

  /** A box that runs is left alone by rounds that want it running and nothing else. */
  lemma {:induction false} StaysUp(env: Box.Env, w: World, d: Desired, steps: seq<Step>)
    requires Sound(env, w) && WellFormed(d) && d.state == "running" && InSync(w, d) && Alone(steps, d) && w.box.instance.Some?
    ensures Run(env, w, steps).box == w.box
    decreases |steps|
  {
    if steps != [] {
      var t := steps[0].turn;
      assert Respond(d, w.mem.configHash, w.mem.frpsHash) == NoChange(d.state);
      assert Snapshot(w, d) == w && Others(env, w, []) == w;
      assert w.box.state.Running?;
      assert ApplySync(env, w, NoChange(d.state), t.luck) == (w, true);
      RoundSound(env, w, t);
      RoundCloser(env, w, t);
      hide Sound, ApplySync, Respond, Snapshot;
      StaysUp(env, Next(env, w, steps[0]), d, steps[1..]);
    }
  }
}
