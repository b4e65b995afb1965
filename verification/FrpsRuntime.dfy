/** The FRPS service of an Agent. Lifecycle calls exclude one another, but each is a series of
    critical sections, and the goroutine that waits for a service to exit takes its own
    critical section at any moment in between. */
module FrpsRuntime {
  import opened Outcomes

  datatype Config = Config(enabled: bool, body: string)

  datatype State = Stopped | Running | Error

  /** What an apply falls back to; a plain start falls back to nothing. */
  datatype Stage = First(previous: Config, previousHash: string) | Second(previous: Config, previousHash: string) | FromStart

  /** How the last completed call ended. */
  datatype Outcome =
    | NoCall
    | Succeeded(served: Config, servedHash: string)
    | Disabled(written: bool)
    | AlreadyRunning
    | Refused
    | Halted
    | StartFailed
    | ApplyFailed(fallback: Config, fallbackHash: string)

  /** Where the call in progress stands between two critical sections. */
  datatype Phase =
    | Idle(outcome: Outcome)
    | Checking(config: Config, hash: string)
    | Stopping(config: Config, hash: string, previous: Config, previousHash: string)
    | Cancelling(victim: Option<nat>, next: After)
    | Disabling(config: Config, hash: string)
    | Launching(config: Config, hash: string, stage: Stage)
    | Awaiting(id: nat, config: Config, hash: string, stage: Stage)
    | Writing(config: Config, hash: string)
    | Failing(stage: Stage)
    | Noting(outcome: Outcome)

  /** What follows once a service taken out of the fields has been cancelled and closed. */
  datatype After = ToLaunch(config: Config, hash: string, stage: Stage) | ToDisable(config: Config, hash: string)
                 | ToFail(stage: Stage) | ToHalt

  datatype Runtime = Runtime(
    service: Option<nat>,
    config: Config,
    hash: string,
    state: State,
    lastError: string,
    nextId: nat,
    cancelled: set<nat>,
    watched: set<nat>,
    phase: Phase)

  /** `watched` are the services whose exit has not been handled yet. */
  datatype Event =
    | BeginApply(config: Config, hash: string, valid: bool)
    | BeginStart
    | BeginStop
    | Proceed(ok: bool)
    | Exit(id: nat)

  const START := Runtime(None, Config(false, ""), "", Stopped, "", 0, {}, {}, Idle(NoCall))

  // ----- Critical sections -----

  function SetLastError(s: Runtime, message: string): Runtime {
    s.(lastError := message, state := if s.service.None? then Error else s.state)
  }

  function Resume(next: After): Phase {
    match next
    case ToLaunch(config, hash, stage) => Launching(config, hash, stage)
    case ToDisable(config, hash) => Disabling(config, hash)
    case ToFail(stage) => Failing(stage)
    case ToHalt => Idle(Halted)
  }

  function StopSection(s: Runtime, next: After): Runtime {
    s.(service := None, state := Stopped, phase := Cancelling(s.service, next))
  }

  function LaunchSection(s: Runtime, config: Config, hash: string, stage: Stage): Runtime {
    s.(service := Some(s.nextId), config := config, hash := hash, lastError := "", state := Running,
       nextId := s.nextId + 1, watched := s.watched + {s.nextId}, phase := Awaiting(s.nextId, config, hash, stage))
  }

  /** The exit goroutine of service `id`. */
  function ExitSection(s: Runtime, id: nat): Runtime {
    var seen := s.(watched := s.watched - {id});
    if s.service != Some(id) then seen
    else if id in s.cancelled then seen.(service := None, state := Stopped)
    else seen.(service := None, state := Error, lastError := "FRPS exited unexpectedly")
  }

  function Fail(s: Runtime, stage: Stage): Runtime {
    match stage
    case First(previous, previousHash) =>
      if previous.enabled && previousHash != "" then
        s.(phase := Launching(previous, previousHash, Second(previous, previousHash)))
      else s.(phase := Noting(ApplyFailed(previous, previousHash)))
    case Second(previous, previousHash) => s.(phase := Noting(ApplyFailed(previous, previousHash)))
    case FromStart => s.(phase := Idle(StartFailed))
  }

  /** The next step of the call in progress; `ok` says whether the environment lets it succeed. */
  function Advance(s: Runtime, ok: bool): Runtime {
    match s.phase
    case Idle(_) => s
    case Checking(config, hash) =>
      if s.state == Running && s.service.Some? && config.enabled && hash == s.hash then s.(phase := Idle(AlreadyRunning))
      else s.(phase := Stopping(config, hash, s.config, s.hash))
    case Stopping(config, hash, previous, previousHash) =>
      StopSection(s, if config.enabled then ToLaunch(config, hash, First(previous, previousHash)) else ToDisable(config, hash))
    case Cancelling(victim, next) =>
      s.(cancelled := if victim.Some? then s.cancelled + {victim.value} else s.cancelled, phase := Resume(next))
    case Disabling(config, hash) =>
      s.(config := config, hash := hash, lastError := "", state := Stopped, phase := Idle(Disabled(ok)))
    case Launching(config, hash, stage) =>
      if ok then LaunchSection(s, config, hash, stage) else s.(phase := Failing(stage))
    case Awaiting(_, config, hash, stage) =>
      if !ok then StopSection(s, ToFail(stage))
      else if stage.Second? then s.(phase := Noting(ApplyFailed(config, hash)))
      else if stage.First? then s.(phase := Writing(config, hash))
      else s.(phase := Idle(Succeeded(config, hash)))
    case Writing(config, hash) =>
      s.(phase := if ok then Idle(Succeeded(config, hash)) else Noting(Succeeded(config, hash)))
    case Failing(stage) => Fail(s, stage)
    case Noting(outcome) => SetLastError(s, "FRPS apply incomplete").(phase := Idle(outcome))
  }

  function Step(s: Runtime, e: Event): Runtime {
    match e
    case BeginApply(config, hash, valid) =>
      if !s.phase.Idle? then s
      else if !valid then SetLastError(s, "invalid FRPS configuration").(phase := Idle(Refused))
      else s.(phase := Checking(config, hash))
    case BeginStart =>
      if !s.phase.Idle? then s
      else if s.state == Running && s.service.Some? then s.(phase := Idle(AlreadyRunning))
      else if !s.config.enabled || s.hash == "" then s.(phase := Idle(Refused))
      else s.(phase := Launching(s.config, s.hash, FromStart))
    case BeginStop => if s.phase.Idle? then StopSection(s, ToHalt) else s
    case Proceed(ok) => Advance(s, ok)
    case Exit(id) => if id in s.watched then ExitSection(s, id) else s
  }

  function Run(s: Runtime, events: seq<Event>): Runtime
    decreases |events|
  {
    if events == [] then s else Run(Step(s, events[0]), events[1..])
  }

  // ----- The invariant -----

  predicate SoundFallback(s: Runtime, fallback: Config, fallbackHash: string) {
    s.service.None? || (fallback.enabled && s.config == fallback && s.hash == fallbackHash)
  }

  predicate Serves(s: Runtime, config: Config, hash: string) {
    s.config == config && s.hash == hash && config.enabled
  }

  predicate SoundLaunch(config: Config, hash: string, stage: Stage) {
    config.enabled && (stage.Second? ==> stage == Second(config, hash))
  }

  predicate SoundPhase(s: Runtime, p: Phase) {
    match p
    case Idle(outcome) =>
      (match outcome
       case ApplyFailed(fallback, fallbackHash) => SoundFallback(s, fallback, fallbackHash)
       case Succeeded(served, servedHash) => Serves(s, served, servedHash)
       case Disabled(_) => s.service.None?
       case Halted => s.service.None?
       case StartFailed => s.service.None?
       case _ => true)
    case Checking(_, _) => true
    case Stopping(_, _, _, _) => true
    case Cancelling(victim, next) =>
      && s.service.None? && (victim.Some? ==> victim.value < s.nextId)
      && (next.ToLaunch? ==> SoundLaunch(next.config, next.hash, next.stage))
      && (next.ToDisable? ==> !next.config.enabled)
    case Disabling(config, _) => s.service.None? && !config.enabled
    case Launching(config, hash, stage) => s.service.None? && SoundLaunch(config, hash, stage)
    case Awaiting(id, config, hash, stage) =>
      && (s.service.None? || s.service == Some(id)) && Serves(s, config, hash) && SoundLaunch(config, hash, stage)
    case Writing(config, hash) => Serves(s, config, hash)
    case Failing(_) => s.service.None?
    case Noting(outcome) =>
      || (outcome.ApplyFailed? && SoundFallback(s, outcome.fallback, outcome.fallbackHash))
      || (outcome.Succeeded? && Serves(s, outcome.served, outcome.servedHash))
  }

  /** Services that may still be doing work: started, not told to stop, exit not yet handled. */
  function Active(s: Runtime): set<nat> {
    s.watched - s.cancelled
  }

  function Owned(s: Runtime): set<nat> {
    (if s.service.Some? then {s.service.value} else {})
    + (if s.phase.Cancelling? && s.phase.victim.Some? then {s.phase.victim.value} else {})
  }

  predicate Sound(s: Runtime) {
    && (s.state == Running <==> s.service.Some?)
    && (s.service.Some? ==> s.service.value in s.watched && s.service.value !in s.cancelled)
    && (forall id | id in s.watched :: id < s.nextId)
    && (forall id | id in s.cancelled :: id < s.nextId)
    && Active(s) <= Owned(s)
    && SoundPhase(s, s.phase)
  }

  lemma {:induction false} AdvanceSound(s: Runtime, ok: bool)
    requires Sound(s)
    ensures Sound(Advance(s, ok))
  {
    hide Sound, SoundPhase, Advance;
    if s.phase.Cancelling? || s.phase.Disabling? || s.phase.Stopping? || s.phase.Checking? {
      TakeDownSound(s, ok);
    } else if s.phase.Awaiting? || s.phase.Launching? {
      BringUpSound(s, ok);
    } else {
      ConcludeSound(s, ok);
    }
  }

  lemma {:induction false} TakeDownSound(s: Runtime, ok: bool)
    requires Sound(s) && (s.phase.Cancelling? || s.phase.Disabling? || s.phase.Stopping? || s.phase.Checking?)
    ensures Sound(Advance(s, ok))
  {
  }

  lemma {:induction false} BringUpSound(s: Runtime, ok: bool)
    requires Sound(s) && (s.phase.Awaiting? || s.phase.Launching?)
    ensures Sound(Advance(s, ok))
  {
  }

  lemma {:induction false} ConcludeSound(s: Runtime, ok: bool)
    requires Sound(s) && (s.phase.Writing? || s.phase.Failing? || s.phase.Noting? || s.phase.Idle?)
    ensures Sound(Advance(s, ok))
  {
  }

  lemma {:induction false} ExitSound(s: Runtime, id: nat)
    requires Sound(s) && id in s.watched
    ensures Sound(ExitSection(s, id))
  {
  }

  lemma {:induction false} StepSound(s: Runtime, e: Event)
    requires Sound(s)
    ensures Sound(Step(s, e))
  {
    hide SoundPhase, Advance, ExitSection;
    match e
    case Proceed(ok) => AdvanceSound(s, ok);
    case Exit(id) =>
      if id in s.watched {
        ExitSound(s, id);
      }
    case _ => BeginSound(s, e);
  }

  lemma {:induction false} BeginSound(s: Runtime, e: Event)
    requires Sound(s) && (e.BeginApply? || e.BeginStart? || e.BeginStop?)
    ensures Sound(Step(s, e))
  {
  }

  /** Under every interleaving of lifecycle calls, their critical sections and service exits:
      the state says "running" exactly while a service is installed, no second service is ever
      active beside the installed one, and a failed apply that got past validation leaves
      either the previous enabled configuration in service or no service at all. */
  lemma {:induction false} EveryInterleavingSound(s: Runtime, events: seq<Event>)
    requires Sound(s)
    ensures var t := Run(s, events);
            && Sound(t)
            && (t.state == Running <==> t.service.Some?)
            && |Active(t)| <= 1
            && (t.phase.Idle? && t.phase.outcome.ApplyFailed? ==>
                  t.service.None?
                  || (t.config == t.phase.outcome.fallback && t.hash == t.phase.outcome.fallbackHash && t.config.enabled))
    decreases |events|
  {
    if events == [] {
      OneActive(s);
    } else {
      hide Sound, Step;
      StepSound(s, events[0]);
      EveryInterleavingSound(Step(s, events[0]), events[1..]);
    }
  }

  lemma {:induction false} OneActive(s: Runtime)
    requires Sound(s)
    ensures |Active(s)| <= 1
  {
    if s.phase.Cancelling? {
      assert s.service.None?;
    }
    var owner := if s.service.Some? then s.service else if s.phase.Cancelling? then s.phase.victim else None;
    if owner.Some? {
      assert Active(s) <= {owner.value};
      SubsetCard(Active(s), {owner.value});
    } else {
      assert Active(s) == {};
    }
  }

  lemma {:induction false} SubsetCard(a: set<nat>, b: set<nat>)
    requires a <= b
    ensures |a| <= |b|
  {
    assert a + (b - a) == b;
  }

  /** The exit of a service that is no longer installed touches none of the fields a newer
      service set; and whenever the exiting service is still installed it was not told to
      stop, so its exit is reported as unexpected. */
  lemma {:induction false} ExitIsolated(events: seq<Event>, id: nat)
    ensures var s := Run(START, events);
            id in s.watched ==>
              var t := Step(s, Exit(id));
              && (s.service != Some(id) ==> t == s.(watched := s.watched - {id}))
              && (s.service == Some(id) ==> t.state == Error && t.service.None? && t.config == s.config && t.hash == s.hash)
  {
    assert Sound(START);
    hide Step, SoundPhase;
    EveryInterleavingSound(START, events);
    var s := Run(START, events);
    if id in s.watched {
      assert Step(s, Exit(id)) == ExitSection(s, id) by {
        ExitStep(s, id);
      }
    }
  }

  lemma {:induction false} ExitStep(s: Runtime, id: nat)
    requires id in s.watched
    ensures Step(s, Exit(id)) == ExitSection(s, id)
  {
  }
}
