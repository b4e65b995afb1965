/** The single in-process box of an Agent: stop-then-start configuration changes, restore on
    failure, and traffic totals that survive reloads. */
module BoxRuntime {
  import opened Outcomes
  import opened BoxConfig

  datatype RunState = Stopped | Running

  datatype LastError =
    | NoError | PrepareFailed | ParseFailed | StartFailed | StartFailedRestored | StartAndRestoreFailed | CurrentNotWritten

  datatype Reply = Applied | Unchanged | Refused | Restored | Down | NoConfig

  datatype Bytes = Bytes(up: nat, down: nat) {
    function Plus(other: Bytes): Bytes {
      Bytes(up + other.up, down + other.down)
    }

    predicate AtMost(other: Bytes) {
      up <= other.up && down <= other.down
    }
  }

  const ZERO := Bytes(0, 0)

  /** What the environment decides: which documents parse, which start attempts succeed, which
      writes of the applied document succeed. */
  datatype Env = Env(android: bool, dataDir: bool, parses: Document -> bool, starts: nat -> bool, writes: nat -> bool)

  /** `open` holds the boxes that were created and not closed, `peak` the most that ever were. */
  datatype Runtime = Runtime(
    instance: Option<nat>,
    config: Text,
    hash: string,
    state: RunState,
    lastError: LastError,
    tracker: Option<Bytes>,
    previous: Bytes,
    saved: Option<Bytes>,
    current: Option<Document>,
    attempts: nat,
    open: set<nat>,
    peak: nat)
  {
    /** Cumulative traffic as reported: everything rolled up plus the live tracker. */
    function Reported(): Bytes {
      if tracker.Some? then previous.Plus(tracker.value) else previous
    }
  }

  predicate FrpcReadable(doc: Document) {
    "ladder_frpc" in doc ==>
      doc["ladder_frpc"].Null?
      || (doc["ladder_frpc"].Obj? && forall k | k in doc["ladder_frpc"].fields :: doc["ladder_frpc"].fields[k].Str?)
  }

  predicate Parses(env: Env, doc: Document) {
    FrpcReadable(doc) && env.parses(doc - {"ladder_frpc"})
  }

  // ----- Transitions -----

  function SetLastError(s: Runtime, e: LastError): Runtime {
    s.(lastError := e, state := if s.instance.None? then Stopped else Running)
  }

  function SaveTraffic(env: Env, s: Runtime): Runtime {
    if env.dataDir then s.(saved := Some(s.Reported())) else s
  }

  function StopInstance(env: Env, s: Runtime): Runtime {
    var rolled := s.(previous := s.Reported(), instance := None, tracker := None, state := Stopped);
    SaveTraffic(env, rolled).(open := if s.instance.Some? then s.open - {s.instance.value} else s.open)
  }

  /** The most boxes ever open at once, when one more is opened. */
  function Peak(open: set<nat>, peak: nat): nat {
    if |open| + 1 > peak then |open| + 1 else peak
  }

  function StartInstance(env: Env, s: Runtime, doc: Document, hash: string): Runtime {
    var id := s.attempts;
    var tried := s.(attempts := id + 1, peak := Peak(s.open, s.peak));
    if env.starts(id) then
      tried.(instance := Some(id), config := Canonical(doc), hash := hash, state := Running, lastError := NoError,
             tracker := Some(ZERO), open := s.open + {id})
    else tried
  }

  function Restore(env: Env, s: Runtime, text: Text, hash: string): Runtime {
    var prepared := Prepare(env.android, text);
    if prepared.None? || !Parses(env, prepared.value) then s else StartInstance(env, s, prepared.value, hash)
  }

  function ApplyTo(env: Env, s: Runtime, text: Text, hash: string): (Runtime, Reply) {
    var prepared := Prepare(env.android, text);
    if prepared.None? then (SetLastError(s, PrepareFailed), Refused)
    else
      var doc := prepared.value;
      if s.state == Running && s.instance.Some? && hash != "" && hash == s.hash && s.config == Canonical(doc) then (s, Unchanged)
      else if !Parses(env, doc) then (SetLastError(s, ParseFailed), Refused)
      else
        ReplaceTo(env, s, doc, hash)
  }

  function ReplaceTo(env: Env, s: Runtime, doc: Document, hash: string): (Runtime, Reply) {
    var stopped := StopInstance(env, s);
    var started := StartInstance(env, stopped, doc, hash);
    if started.instance.None? then
      if s.config != EMPTY && s.config != Canonical(doc) then
        var restored := Restore(env, started, s.config, s.hash);
        if restored.instance.None? then (SetLastError(restored, StartAndRestoreFailed), Down)
        else (SetLastError(restored, StartFailedRestored), Restored)
      else (SetLastError(started, StartFailed), Down)
    else if !env.dataDir then (started, Applied)
    else if env.writes(started.attempts) then (started.(current := Some(doc)), Applied)
    else (SetLastError(started, CurrentNotWritten), Applied)
  }

  function StartTo(env: Env, s: Runtime): (Runtime, Reply) {
    if s.state == Running && s.instance.Some? then (s, Unchanged)
    else if s.config == EMPTY then (s, NoConfig)
    else ApplyTo(env, s, s.config, s.hash)
  }

  function StopTo(env: Env, s: Runtime): Runtime {
    StopInstance(env, s)
  }

  /** Bytes relayed by the live box. */
  function CountTo(s: Runtime, n: Bytes): Runtime {
    if s.tracker.Some? then s.(tracker := Some(s.tracker.value.Plus(n))) else s
  }

  function Fresh(loaded: Bytes): Runtime {
    Runtime(None, EMPTY, "", Stopped, NoError, None, loaded, None, None, 0, {}, 0)
  }

  // ----- The object -----

  class Box {
    const env: Env
    var instance: Option<nat>
    var config: Text
    var hash: string
    var state: RunState
    var lastError: LastError
    var tracker: Option<Bytes>
    var previous: Bytes
    var saved: Option<Bytes>
    var current: Option<Document>
    var attempts: nat
    var open: set<nat>
    var peak: nat

    function View(): Runtime
      reads this
    {
      Runtime(instance, config, hash, state, lastError, tracker, previous, saved, current, attempts, open, peak)
    }

    constructor (env: Env, loaded: Bytes)
      ensures this.env == env && View() == Fresh(loaded) && Sound(env, View())
    {
      this.env := env;
      instance, config, hash, state, lastError := None, EMPTY, "", Stopped, NoError;
      tracker, previous, saved, current, attempts, open, peak := None, loaded, None, None, 0, {}, 0;
    }

    method SetError(e: LastError)
      modifies this
      ensures View() == SetLastError(old(View()), e)
    {
      lastError := e;
      state := if instance.None? then Stopped else Running;
    }

    method Close()
      modifies this
      ensures View() == StopInstance(env, old(View())) && instance.None?
    {
      var box := instance;
      if tracker.Some? {
        previous := previous.Plus(tracker.value);
      }
      instance, tracker, state := None, None, Stopped;
      if env.dataDir {
        saved := Some(previous);
      }
      if box.Some? {
        open := open - {box.value};
      }
    }

    /** Puts a started box in place. */
    method Install(id: nat, doc: Document, newHash: string)
      modifies this
      ensures View() == old(View()).(instance := Some(id), config := Canonical(doc), hash := newHash, state := Running, lastError := NoError,
                                     tracker := Some(ZERO), open := old(open) + {id})
    {
      instance, tracker, state, open := Some(id), Some(ZERO), Running, open + {id};
      config, hash, lastError := Canonical(doc), newHash, NoError;
    }

    method Open(doc: Document, newHash: string) returns (ok: bool)
      requires instance.None?
      modifies this
      ensures View() == StartInstance(env, old(View()), doc, newHash)
      ensures ok <==> instance.Some?
    {
      hide Peak;
      var id := attempts;
      attempts, peak := id + 1, Peak(open, peak);
      ok := env.starts(id);
      if ok {
        Install(id, doc, newHash);
      }
    }

    method Reopen(text: Text, oldHash: string) returns (ok: bool)
      requires instance.None?
      modifies this
      ensures View() == Restore(env, old(View()), text, oldHash)
      ensures ok <==> instance.Some?
    {
      hide StartInstance, Parses, Prepare;
      var prepared := PrepareConfig(env.android, text);
      ok := false;
      if prepared.Some? && Parses(env, prepared.value) {
        ok := Open(prepared.value, oldHash);
      }
    }

    method Apply(text: Text, newHash: string) returns (reply: Reply)
      modifies this
      ensures (View(), reply) == ApplyTo(env, old(View()), text, newHash)
      ensures Sound(env, old(View())) ==> KeptSound(env, old(View()), View()) && Answered(env, old(View()), text, newHash, View(), reply)
      ensures Sound(env, old(View())) ==> Settled(env, old(View()), text, newHash, View(), reply)
    {
      if Sound(env, View()) {
        ApplyContract(env, View(), text, newHash);
        ApplySettles(env, View(), text, newHash);
      }
      hide Answered, Settled, Sound, KeptSound;
      hide SetLastError, ReplaceTo, Parses, Prepare;
      var prepared := PrepareConfig(env.android, text);
      if prepared.None? {
        SetError(PrepareFailed);
        return Refused;
      }
      var doc := prepared.value;
      if state == Running && instance.Some? && newHash != "" && newHash == hash && config == Canonical(doc) {
        return Unchanged;
      }
      if !Parses(env, doc) {
        SetError(ParseFailed);
        return Refused;
      }
      reply := Replace(doc, newHash);
    }

    /** Stops the old box and starts the new one, or the old one again. */
    method Replace(doc: Document, newHash: string) returns (reply: Reply)
      modifies this
      ensures (View(), reply) == ReplaceTo(env, old(View()), doc, newHash)
    {
      hide SetLastError, StopInstance, StartInstance, Restore;
      var prevConfig, prevHash := config, hash;
      Close();
      var ok := Open(doc, newHash);
      if !ok {
        if prevConfig != EMPTY && prevConfig != Canonical(doc) {
          var restored := Reopen(prevConfig, prevHash);
          if restored {
            SetError(StartFailedRestored);
            return Restored;
          }
          SetError(StartAndRestoreFailed);
          return Down;
        }
        SetError(StartFailed);
        return Down;
      }
      if env.dataDir {
        if env.writes(attempts) {
          current := Some(doc);
        } else {
          SetError(CurrentNotWritten);
        }
      }
      return Applied;
    }

    method Start() returns (reply: Reply)
      modifies this
      ensures (View(), reply) == StartTo(env, old(View()))
      ensures Sound(env, old(View())) ==>
                && KeptSound(env, old(View()), View())
                && (reply == Unchanged <==> old(instance).Some?) && (reply == NoConfig <==> old(instance).None? && old(config) == EMPTY)
                && (reply == Applied ==> instance.Some? && config == old(config) && hash == old(hash))
                && (reply == Down ==> instance.None? && config == old(config) && !env.starts(old(attempts)))
                && reply != Refused && reply != Restored
    {
      hide ApplyTo;
      if Sound(env, View()) && config != EMPTY && instance.None? {
        ApplyContract(env, View(), config, hash);
        StartAgain(env, View());
      }
      if state == Running && instance.Some? {
        return Unchanged;
      }
      if config == EMPTY {
        return NoConfig;
      }
      reply := Apply(config, hash);
    }

    method Stop()
      modifies this
      ensures View() == StopTo(env, old(View()))
      ensures Sound(env, old(View())) ==>
                KeptSound(env, old(View()), View()) && instance.None? && open == {} && config == old(config) && hash == old(hash)
      ensures saved == if env.dataDir then Some(old(View()).Reported()) else old(saved)
      ensures previous == old(View()).Reported() && tracker.None? && instance.None? && state == Stopped
      ensures unchanged(`config, `hash, `lastError, `current, `attempts, `peak)
      ensures open == if old(instance).Some? then old(open) - {old(instance).value} else old(open)
    {
      if Sound(env, View()) {
        StopSound(env, View());
      }
      Close();
    }

    method Count(n: Bytes)
      modifies this
      ensures View() == CountTo(old(View()), n)
    {
      if tracker.Some? {
        tracker := Some(tracker.value.Plus(n));
      }
    }

    method Metrics() returns (total: Bytes)
      ensures total == View().Reported()
    {
      total := previous;
      if tracker.Some? {
        total := total.Plus(tracker.value);
      }
    }
  }

  // ----- What every run keeps -----

  /** A configuration in place is a prepared document that parses. */
  predicate ConfigSound(env: Env, config: Text) {
    config == EMPTY || (config.Canonical? && PrepareDocument(env.android, config.doc) == config.doc && Parses(env, config.doc))
  }

  predicate Sound(env: Env, s: Runtime) {
    && (s.state == Running <==> s.instance.Some?)
    && (s.tracker.Some? <==> s.instance.Some?)
    && s.open == (if s.instance.Some? then {s.instance.value} else {})
    && (s.instance.Some? ==> s.instance.value < s.attempts && s.config.Canonical?)
    && s.peak <= 1
    && ConfigSound(env, s.config)
    && (s.saved.Some? ==> s.saved.value.AtMost(s.Reported()))
  }

  /** At most one box is ever open, and no byte is lost or invented. */
  predicate KeptSound(env: Env, s: Runtime, t: Runtime) {
    Sound(env, t) && |t.open| <= 1 && t.peak <= 1 && t.Reported() == s.Reported()
  }

  lemma {:induction false} StartAgain(env: Env, s: Runtime)
    requires Sound(env, s) && s.instance.None? && s.config != EMPTY
    ensures var (t, reply) := ApplyTo(env, s, s.config, s.hash);
            && (reply == Applied || reply == Down)
            && (reply == Applied ==> t.instance.Some? && t.config == s.config && t.hash == s.hash)
            && (reply == Down ==> t.instance.None? && t.config == s.config && !env.starts(s.attempts))
  {
    ApplyContract(env, s, s.config, s.hash);
    hide Parses, PrepareDocument, StartInstance, StopInstance;
  }

  lemma {:induction false} StartSound(env: Env, s: Runtime, doc: Document, hash: string)
    requires Sound(env, s) && s.instance.None? && ConfigSound(env, Canonical(doc))
    ensures Sound(env, StartInstance(env, s, doc, hash))
    ensures StartInstance(env, s, doc, hash).Reported() == s.Reported()
  {
    hide Parses, PrepareDocument;
    assert |s.open| == 0;
  }

  lemma {:induction false} StopSound(env: Env, s: Runtime)
    requires Sound(env, s)
    ensures Sound(env, StopInstance(env, s)) && StopInstance(env, s).instance.None?
    ensures StopInstance(env, s).Reported() == s.Reported()
    ensures StopInstance(env, s).config == s.config && StopInstance(env, s).hash == s.hash
  {
    hide Parses, PrepareDocument;
  }

  lemma {:induction false} RestoreExact(env: Env, s: Runtime, text: Text, hash: string)
    requires Sound(env, s) && s.instance.None? && ConfigSound(env, text) && text != EMPTY
    ensures text.Canonical? && Restore(env, s, text, hash) == StartInstance(env, s, text.doc, hash)
    ensures Sound(env, Restore(env, s, text, hash)) && Restore(env, s, text, hash).Reported() == s.Reported()
  {
    hide Parses, PrepareDocument;
    StartSound(env, s, text.doc, hash);
  }

  /** What each reply to a configuration change means. */
  predicate Answered(env: Env, s: Runtime, text: Text, hash: string, t: Runtime, reply: Reply) {
    match reply
    case Refused => t == s.(lastError := t.lastError) && (text.Malformed? || !Parses(env, PrepareDocument(env.android, text.doc)))
    case Unchanged => t == s && s.instance.Some? && s.hash == hash && text.Canonical?
                      && s.config == Canonical(PrepareDocument(env.android, text.doc))
    case Applied => t.instance == Some(s.attempts) && env.starts(s.attempts) && t.hash == hash && text.Canonical?
                    && t.config == Canonical(PrepareDocument(env.android, text.doc))
    case Restored => t.instance == Some(s.attempts + 1) && t.config == s.config && t.hash == s.hash
                     && !env.starts(s.attempts) && env.starts(s.attempts + 1)
                     && text.Canonical? && s.config != EMPTY && s.config != Canonical(PrepareDocument(env.android, text.doc))
    case Down => text.Canonical? && t.instance.None? && t.config == s.config && t.hash == s.hash && !env.starts(s.attempts)
                 && (s.config == EMPTY || s.config == Canonical(PrepareDocument(env.android, text.doc))
                     || !env.starts(s.attempts + 1))
    case NoConfig => false
  }

  /** The running document and hash are those asked for. */
  predicate Same(s: Runtime, doc: Document, hash: string) {
    s.instance.Some? && hash != "" && hash == s.hash && s.config == Canonical(doc)
  }

  /** Another document is on record, to go back to. */
  predicate HasOther(s: Runtime, doc: Document) {
    s.config != EMPTY && s.config != Canonical(doc)
  }

  /** The reply decided by the document, the record and the start attempts, and everything the
      call leaves: the error shown, the totals saved, the applied document written. */
  predicate Settled(env: Env, s: Runtime, text: Text, hash: string, t: Runtime, reply: Reply) {
    if text.Malformed? then reply == Refused && t == s.(lastError := PrepareFailed)
    else
      var doc := PrepareDocument(env.android, text.doc);
      if Same(s, doc, hash) then reply == Unchanged && t == s
      else if !Parses(env, doc) then reply == Refused && t == s.(lastError := ParseFailed)
      else
        var first, second := env.starts(s.attempts), HasOther(s, doc) && env.starts(s.attempts + 1);
        && reply == (if first then Applied else if second then Restored else Down)
        && t.instance == (if first then Some(s.attempts) else if second then Some(s.attempts + 1) else None)
        && t.attempts == s.attempts + (if !first && HasOther(s, doc) then 2 else 1)
        && t.config == (if first then Canonical(doc) else s.config) && t.hash == (if first then hash else s.hash)
        && t.state == (if first || second then Running else Stopped)
        && t.previous == s.Reported() && t.tracker == (if first || second then Some(ZERO) else None)
        && t.saved == (if env.dataDir then Some(s.Reported()) else s.saved)
        && t.current == (if first && env.dataDir && env.writes(t.attempts) then Some(doc) else s.current)
        && t.lastError == (if first then if env.dataDir && !env.writes(t.attempts) then CurrentNotWritten else NoError
                           else if second then StartFailedRestored
                           else if HasOther(s, doc) then StartAndRestoreFailed
                           else StartFailed)
  }

  lemma {:induction false} ApplySettles(env: Env, s: Runtime, text: Text, hash: string)
    requires Sound(env, s)
    ensures Settled(env, s, text, hash, ApplyTo(env, s, text, hash).0, ApplyTo(env, s, text, hash).1)
  {
    hide Parses, PrepareDocument, Peak;
    if text.Canonical? && Parses(env, PrepareDocument(env.android, text.doc)) {
      var doc := PrepareDocument(env.android, text.doc);
      var stopped := StopInstance(env, s);
      var started := StartInstance(env, stopped, doc, hash);
      if started.instance.None? && HasOther(s, doc) {
        StopSound(env, s);
        PrepareIdempotent(env.android, text.doc);
        StartSound(env, stopped, doc, hash);
        RestoreExact(env, started, s.config, s.hash);
        hide Restore;
      }
    }
  }

  /** The contract of a configuration change, whatever starts fail:
      - a document that cannot be prepared or parsed changes nothing but the error;
      - re-applying the running document and hash changes nothing at all;
      - otherwise the old box is closed and the new one runs the prepared document; or the
        previous document and hash run again exactly; or nothing runs, the previous document
        and hash stay on record, and both attempts (or the only one due) failed. */
  lemma {:induction false} ApplyContract(env: Env, s: Runtime, text: Text, hash: string)
    requires Sound(env, s)
    ensures Sound(env, ApplyTo(env, s, text, hash).0)
    ensures ApplyTo(env, s, text, hash).0.Reported() == s.Reported()
    ensures Answered(env, s, text, hash, ApplyTo(env, s, text, hash).0, ApplyTo(env, s, text, hash).1)
  {
    hide Parses, PrepareDocument, StartInstance, StopInstance;
    if text.Canonical? {
      PrepareIdempotent(env.android, text.doc);
      var doc := PrepareDocument(env.android, text.doc);
      var stopped := StopInstance(env, s);
      StopSound(env, s);
      if Parses(env, doc) {
        StartSound(env, stopped, doc, hash);
        StartShape(env, s, stopped, doc, hash);
        var started := StartInstance(env, stopped, doc, hash);
        if started.instance.None? && s.config != EMPTY {
          RestoreExact(env, started, s.config, s.hash);
          StartShape(env, s, started, s.config.doc, s.hash);
        }
      }
    }
  }

  lemma {:induction false} StartShape(env: Env, s: Runtime, stopped: Runtime, doc: Document, hash: string)
    requires stopped.instance.None?
    ensures StopInstance(env, s).attempts == s.attempts
    ensures var t := StartInstance(env, stopped, doc, hash);
            && t.attempts == stopped.attempts + 1
            && (if env.starts(stopped.attempts) then t.instance == Some(stopped.attempts) && t.config == Canonical(doc) && t.hash == hash
                else t.instance.None? && t.config == stopped.config && t.hash == stopped.hash)
  {
  }

  // ----- Runs -----

  datatype Op = OpApply(text: Text, hash: string) | OpStart | OpStop | OpCount(n: Bytes)

  function Perform(env: Env, s: Runtime, op: Op): Runtime {
    match op
    case OpApply(text, hash) => ApplyTo(env, s, text, hash).0
    case OpStart => StartTo(env, s).0
    case OpStop => StopTo(env, s)
    case OpCount(n) => CountTo(s, n)
  }

  function Run(env: Env, s: Runtime, ops: seq<Op>): Runtime
    decreases |ops|
  {
    if ops == [] then s else Run(env, Perform(env, s, ops[0]), ops[1..])
  }

  function Counted(env: Env, s: Runtime, ops: seq<Op>): Bytes
    decreases |ops|
  {
    if ops == [] then ZERO
    else
      (if ops[0].OpCount? && s.tracker.Some? then ops[0].n else ZERO).Plus(Counted(env, Perform(env, s, ops[0]), ops[1..]))
  }

  lemma {:induction false} PerformSound(env: Env, s: Runtime, op: Op)
    requires Sound(env, s)
    ensures Sound(env, Perform(env, s, op))
    ensures Perform(env, s, op).Reported() == s.Reported().Plus(if op.OpCount? && s.tracker.Some? then op.n else ZERO)
  {
    hide Parses, PrepareDocument, ApplyTo;
    match op
    case OpApply(text, hash) => ApplyContract(env, s, text, hash);
    case OpStart =>
      if s.config != EMPTY {
        ApplyContract(env, s, s.config, s.hash);
      }
    case OpStop => StopSound(env, s);
    case OpCount(n) =>
  }

  // ----- The document on record -----

  predicate Accepted(reply: Reply) {
    reply.Applied? || reply.Unchanged?
  }

  /** A call puts a new document and hash on record exactly if it is an accepted apply. */
  predicate Accepts(env: Env, s: Runtime, op: Op) {
    op.OpApply? && Accepted(ApplyTo(env, s, op.text, op.hash).1)
  }

  lemma {:induction false} RecordAfter(env: Env, s: Runtime, op: Op)
    requires Sound(env, s)
    ensures var t := Perform(env, s, op);
            if Accepts(env, s, op) then
              && op.text.Canonical? && t.config == Canonical(PrepareDocument(env.android, op.text.doc)) && t.hash == op.hash
              && t.instance.Some?
            else t.config == s.config && t.hash == s.hash
  {
    hide Parses, PrepareDocument, ApplyTo;
    match op
    case OpApply(text, hash) => ApplyContract(env, s, text, hash);
    case OpStart =>
      if s.config != EMPTY {
        ApplyContract(env, s, s.config, s.hash);
      }
    case OpStop => StopSound(env, s);
    case OpCount(n) =>
  }

  lemma {:induction false} AttemptsGrow(env: Env, s: Runtime)
    ensures StartTo(env, s).0.attempts >= s.attempts
  {
    hide Parses, Prepare;
  }

  /** After a start the box runs exactly if it ran before, or there is a document on record and this
      attempt succeeds. */
  lemma {:induction false} StartRunsIff(env: Env, s: Runtime)
    requires Sound(env, s)
    ensures StartTo(env, s).0.instance.Some? <==> s.instance.Some? || (s.config != EMPTY && env.starts(s.attempts))
  {
    hide Parses, PrepareDocument, ApplyTo;
    if s.config != EMPTY {
      ApplyContract(env, s, s.config, s.hash);
    }
  }

  /** Over every sequence of applies, starts and stops with any start failures: never more than
      one box is open, the state says "running" exactly while one is, traffic is conserved
      (the loaded base plus every byte counted), and the saved total never exceeds it. */
  lemma {:induction false} EveryRunSound(env: Env, s: Runtime, ops: seq<Op>)
    requires Sound(env, s)
    ensures var t := Run(env, s, ops);
            && Sound(env, t) && t.peak <= 1
            && t.Reported() == s.Reported().Plus(Counted(env, s, ops))
            && s.Reported().AtMost(t.Reported())
    decreases |ops|
  {
    hide Perform, Sound;
    if ops != [] {
      PerformSound(env, s, ops[0]);
      EveryRunSound(env, Perform(env, s, ops[0]), ops[1..]);
    }
    assert Sound(env, Run(env, s, ops)) ==> Run(env, s, ops).peak <= 1 by {
      PeakOfSound(env, Run(env, s, ops));
    }
  }

  lemma {:induction false} PeakOfSound(env: Env, s: Runtime)
    ensures Sound(env, s) ==> s.peak <= 1
  {
  }
}
