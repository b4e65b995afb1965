/** Staged protocol certificates: a new generation is prepared, issued, installed on the node and
    only then made active; every step may fail or be the last before a crash. */
module CertificateIssue {
  import opened Outcomes

  datatype Status = New | Authorizing | Installing | Deploying | Active | RetryWait

  /** The certificate and key files of one generation on the node, or empty paths. */
  datatype Path = NoPath | Generation(n: nat)

  datatype Row = Row(status: Status, candidate: Path, active: Path, revision: nat, retries: nat, nextRetry: int, error: bool)

  /** A call succeeds, fails before or after it took effect, or the process dies around it. */
  datatype Fate = Fine | Fails | FailsLate | Dies | DiesLate

  datatype Point =
    | Load | Checks | Prepare | SaveAuthorizing | Acme | SaveInstalling | Install
    | Bindings | SaveDeploying | BuildConfig | ApplyConfig | SaveActive | SaveRetry

  datatype Ending = Done | Failed | Died

  /** `stored` is the database row, `copy` the one in memory. `installed` holds the generations
      present on the node, `sent` the paths named by every configuration sent to it, `confirmed`
      those it accepted during an issue. */
  datatype State = State(stored: Row, copy: Row, bound: bool, installed: set<nat>, sent: seq<Path>, confirmed: set<Path>)

  function EndingOf(f: Fate): Ending {
    match f
    case Fine => Done
    case Fails => Failed
    case FailsLate => Failed
    case Dies => Died
    case DiesLate => Died
  }

  predicate TakesEffect(f: Fate) {
    f.Fine? || f.FailsLate? || f.DiesLate?
  }

  function RetryDelay(attempt: nat): int {
    match attempt
    case 1 => 60
    case 2 => 300
    case 3 => 900
    case 4 => 3600
    case _ => 21600
  }

  predicate Staged(row: Row) {
    row.candidate != NoPath && row.candidate != row.active
  }

  /** The path a bound inbound gets when the node's configuration is built. */
  function TlsPath(row: Row): Option<Path> {
    if !(row.status.Active? || row.status.Deploying?) || row.active == NoPath then None
    else
      var path := if row.status.Deploying? then row.candidate else row.active;
      if path == NoPath then None else Some(path)
  }

  function Save(s: State, f: Fate): (State, Ending) {
    (if TakesEffect(f) then s.(stored := s.copy) else s, EndingOf(f))
  }

  function Activated(row: Row): Row {
    row.(active := row.candidate, revision := row.revision + 1, status := Active)
  }

  function Cleared(row: Row): Row {
    row.(retries := 0, nextRetry := 0, error := false)
  }

  function DeployTo(s: State, luck: Point -> Fate): (State, Ending) {
    if EndingOf(luck(Bindings)) != Done then (s, EndingOf(luck(Bindings)))
    else if !s.bound then (s.(copy := Activated(s.copy)), Done)
    else
      var (a, saved) := Save(s.(copy := s.copy.(status := Deploying)), luck(SaveDeploying));
      if saved != Done then (a, saved)
      else if EndingOf(luck(BuildConfig)) != Done then (a, EndingOf(luck(BuildConfig)))
      else if TlsPath(a.stored).None? then (a, Failed)
      else
        var path := TlsPath(a.stored).value;
        var b := a.(sent := a.sent + [path]);
        if EndingOf(luck(ApplyConfig)) != Done then (b, EndingOf(luck(ApplyConfig)))
        else (b.(copy := Activated(b.copy), confirmed := b.confirmed + {path}), Done)
  }

  /** Deploys the candidate in memory and stores the outcome. */
  function FinishTo(s: State, luck: Point -> Fate): (State, Ending) {
    var (a, deployed) := DeployTo(s, luck);
    if deployed != Done then (a, deployed)
    else Save(a.(copy := Cleared(a.copy)), luck(SaveActive))
  }

  function StageTo(s: State, luck: Point -> Fate): (State, Ending) {
    if EndingOf(luck(Prepare)) != Done then (s, EndingOf(luck(Prepare)))
    else
      var (a, authorizing) := Save(s.(copy := s.copy.(status := Authorizing, error := false)), luck(SaveAuthorizing));
      if authorizing != Done then (a, authorizing)
      else if EndingOf(luck(Acme)) != Done then (a, EndingOf(luck(Acme)))
      else
        var (b, installing) := Save(a.(copy := a.copy.(status := Installing)), luck(SaveInstalling));
        if installing != Done then (b, installing)
        else
          var g := b.copy.revision + 1;
          var c := if TakesEffect(luck(Install)) then b.(installed := b.installed + {g}) else b;
          if EndingOf(luck(Install)) != Done then (c, EndingOf(luck(Install)))
          else (c.(copy := c.copy.(candidate := Generation(g))), Done)
  }

  function TryTo(s: State, luck: Point -> Fate): (State, Ending) {
    if EndingOf(luck(Checks)) != Done then (s, EndingOf(luck(Checks)))
    else if Staged(s.copy) then FinishTo(s, luck)
    else
      var (a, staged) := StageTo(s, luck);
      if staged != Done then (a, staged) else FinishTo(a, luck)
  }

  function Deferred(row: Row, now: int): Row {
    row.(status := RetryWait, retries := row.retries + 1, nextRetry := now + RetryDelay(row.retries + 1), error := true)
  }

  function IssueTo(s: State, luck: Point -> Fate, now: int): (State, Ending) {
    if EndingOf(luck(Load)) != Done then (s, EndingOf(luck(Load)))
    else
      var (a, ending) := TryTo(s.(copy := s.stored), luck);
      if ending != Failed then (a, ending)
      else
        var (b, retried) := Save(a.(copy := Deferred(a.copy, now)), luck(SaveRetry));
        (b, if retried == Died then Died else Failed)
  }

  // ----- The object -----

  class Issuer {
    var stored: Row
    var copy: Row
    var bound: bool
    var installed: set<nat>
    var sent: seq<Path>
    var confirmed: set<Path>

    function View(): State
      reads this
    {
      State(stored, copy, bound, installed, sent, confirmed)
    }

    constructor ()
      ensures View() == First() && Sound(View())
    {
      stored, copy, bound, installed, sent, confirmed := FIRST_ROW, FIRST_ROW, false, {}, [], {};
    }

    method Update(f: Fate) returns (e: Ending)
      modifies this
      ensures (View(), e) == Save(old(View()), f)
    {
      if TakesEffect(f) {
        stored := copy;
      }
      e := EndingOf(f);
    }

    method Deploy(luck: Point -> Fate) returns (e: Ending)
      modifies this
      ensures (View(), e) == DeployTo(old(View()), luck)
    {
      hide Save;
      e := EndingOf(luck(Bindings));
      if e != Done {
        return;
      }
      if !bound {
        copy := Activated(copy);
        return;
      }
      copy := copy.(status := Deploying);
      e := Update(luck(SaveDeploying));
      if e != Done {
        return;
      }
      e := EndingOf(luck(BuildConfig));
      if e != Done {
        return;
      }
      var path := TlsPath(stored);
      if path.None? {
        return Failed;
      }
      sent := sent + [path.value];
      e := EndingOf(luck(ApplyConfig));
      if e != Done {
        return;
      }
      confirmed := confirmed + {path.value};
      copy := Activated(copy);
    }

    method Stage(luck: Point -> Fate) returns (e: Ending)
      modifies this
      ensures (View(), e) == StageTo(old(View()), luck)
    {
      hide Save;
      e := EndingOf(luck(Prepare));
      if e != Done {
        return;
      }
      copy := copy.(status := Authorizing, error := false);
      e := Update(luck(SaveAuthorizing));
      if e != Done {
        return;
      }
      e := EndingOf(luck(Acme));
      if e != Done {
        return;
      }
      copy := copy.(status := Installing);
      e := Update(luck(SaveInstalling));
      if e != Done {
        return;
      }
      var g := copy.revision + 1;
      if TakesEffect(luck(Install)) {
        installed := installed + {g};
      }
      e := EndingOf(luck(Install));
      if e != Done {
        return;
      }
      copy := copy.(candidate := Generation(g));
    }

    method Try(luck: Point -> Fate) returns (e: Ending)
      modifies this
      ensures (View(), e) == TryTo(old(View()), luck)
    {
      hide DeployTo, StageTo, Save;
      e := EndingOf(luck(Checks));
      if e != Done {
        return;
      }
      if !Staged(copy) {
        e := Stage(luck);
        if e != Done {
          return;
        }
      }
      e := Deploy(luck);
      if e != Done {
        return;
      }
      copy := Cleared(copy);
      e := Update(luck(SaveActive));
    }

    method Issue(luck: Point -> Fate, now: int) returns (e: Ending)
      modifies this
      ensures (View(), e) == IssueTo(old(View()), luck, now)
      ensures Sound(old(View())) ==> Issued(old(View()), View(), e)
      ensures Outcome(old(View()), luck, View(), e)
      ensures e == Failed && luck(Load) == Fine && TakesEffect(luck(SaveRetry)) ==>
                && stored.status.RetryWait? && stored.error && stored.retries >= 1
                && stored.nextRetry == now + if stored.retries >= 5 then 21600 else [60, 300, 900, 3600][stored.retries - 1]
      ensures e == Failed && luck(Load) != Fine ==> stored == old(stored)
    {
      if Sound(View()) {
        IssueSound(View(), luck, now);
      }
      IssueOutcome(View(), luck, now);
      hide TryTo, Save, Issued, Outcome;
      e := EndingOf(luck(Load));
      if e != Done {
        return;
      }
      copy := stored;
      e := Try(luck);
      if e == Failed {
        copy := Deferred(copy, now);
        var retried := Update(luck(SaveRetry));
        e := if retried == Died then Died else Failed;
      }
    }
  }

  // ----- What every run keeps -----

  const FIRST_ROW := Row(New, NoPath, NoPath, 0, 0, 0, false)

  function First(): State {
    State(FIRST_ROW, FIRST_ROW, false, {}, [], {})
  }

  function PathOf(revision: nat): Path {
    if revision == 0 then NoPath else Generation(revision)
  }

  predicate Present(path: Path, installed: set<nat>) {
    path.Generation? ==> path.n in installed
  }

  predicate RowSound(row: Row, installed: set<nat>) {
    && row.active == PathOf(row.revision)
    && (row.candidate == PathOf(row.revision) || row.candidate == Generation(row.revision + 1))
    && Present(row.active, installed) && Present(row.candidate, installed)
    && (row.status.Active? ==> row.candidate == row.active && row.active != NoPath)
    && (row.status.Deploying? ==> row.candidate == Generation(row.revision + 1))
  }

  predicate SentSound(sent: seq<Path>, installed: set<nat>) {
    forall k | 0 <= k < |sent| :: sent[k].Generation? && sent[k].n in installed
  }

  predicate Sound(s: State) {
    && RowSound(s.stored, s.installed)
    && SentSound(s.sent, s.installed)
    && (s.bound ==> s.stored.active != NoPath)
  }

  /** Midway: the copy is sound too, and holds the stored generation or, once its configuration
      is confirmed where one is needed, the next. */
  predicate Midway(s: State, start: State) {
    && Sound(s) && RowSound(s.copy, s.installed)
    && s.bound == start.bound && start.installed <= s.installed && start.confirmed <= s.confirmed
    && s.stored.revision == start.stored.revision
    && (s.copy.revision == start.stored.revision || Advanced(s.copy, s, start))
  }

  predicate Advanced(row: Row, s: State, start: State) {
    && row.revision == start.stored.revision + 1
    && (s.bound ==> s.sent == start.sent + [row.active] && row.active in s.confirmed)
  }

  lemma {:induction false} TlsPathPresent(row: Row, installed: set<nat>)
    requires RowSound(row, installed) && TlsPath(row).Some?
    ensures TlsPath(row).value.Generation? && TlsPath(row).value.n in installed
  {
  }

  lemma {:induction false} DeploySound(s: State, start: State, luck: Point -> Fate)
    requires Midway(s, start) && s.copy.candidate == Generation(start.stored.revision + 1) && s.copy.revision == start.stored.revision
    requires s.sent == start.sent
    ensures Midway(DeployTo(s, luck).0, start)
    ensures DeployTo(s, luck).1 == Done ==>
              Advanced(DeployTo(s, luck).0.copy, DeployTo(s, luck).0, start) && DeployTo(s, luck).0.copy.status == Active
  {
    var a := Save(s.(copy := s.copy.(status := Deploying)), luck(SaveDeploying)).0;
    if s.bound && TlsPath(a.stored).Some? {
      TlsPathPresent(a.stored, s.installed);
    }
  }

  lemma {:induction false} StageSound(s: State, start: State, luck: Point -> Fate)
    requires Midway(s, start) && s.copy == start.stored && s.sent == start.sent && !Staged(s.copy)
    ensures var (t, e) := StageTo(s, luck);
            && Midway(t, start) && t.sent == start.sent && t.copy.revision == start.stored.revision
            && (e == Done ==> t.copy.candidate == Generation(start.stored.revision + 1))
  {
    hide SentSound;
    var c := StageTo(s, luck).0;
    assert s.installed <= c.installed;
    SentGrows(s.sent, s.installed, c.installed);
  }

  lemma {:induction false} SentGrows(sent: seq<Path>, installed: set<nat>, more: set<nat>)
    requires SentSound(sent, installed) && installed <= more
    ensures SentSound(sent, more)
  {
  }

  /** The last save of an issue: whatever its fate, the row is the old generation or the next. */
  predicate Settled(t: State, start: State) {
    && Sound(t) && t.bound == start.bound && start.installed <= t.installed && start.confirmed <= t.confirmed
    && (t.stored.revision == start.stored.revision || Advanced(t.stored, t, start))
  }

  /** A row between two failures: settled, with a copy that may be saved again. */
  predicate Resting(s: State, start: State) {
    Settled(s, start) && RowSound(s.copy, s.installed)
    && ((s.copy.revision == start.stored.revision && s.stored.revision == start.stored.revision) || Advanced(s.copy, s, start))
  }

  lemma {:induction false} FinishSound(s: State, start: State, luck: Point -> Fate)
    requires Midway(s, start) && s.copy.candidate == Generation(start.stored.revision + 1) && s.copy.revision == start.stored.revision
    requires s.sent == start.sent
    ensures Resting(FinishTo(s, luck).0, start)
    ensures FinishTo(s, luck).1 == Done ==>
              Advanced(FinishTo(s, luck).0.stored, FinishTo(s, luck).0, start) && FinishTo(s, luck).0.stored.status == Active
  {
    DeploySound(s, start, luck);
    hide SentSound, DeployTo;
  }

  lemma {:induction false} TrySound(s: State, luck: Point -> Fate)
    requires Sound(s) && s.copy == s.stored
    ensures Resting(TryTo(s, luck).0, s)
    ensures TryTo(s, luck).1 == Done ==> Advanced(TryTo(s, luck).0.stored, TryTo(s, luck).0, s) && TryTo(s, luck).0.stored.status == Active
  {
    hide FinishTo, StageTo, SentSound;
    if Staged(s.copy) {
      FinishSound(s, s, luck);
    } else {
      StageSound(s, s, luck);
      if StageTo(s, luck).1 == Done {
        FinishSound(StageTo(s, luck).0, s, luck);
      }
    }
  }

  /** How an issue may end: on the generation it started from or on the next, which a bound
      certificate reaches only after the node confirmed its files. */
  predicate Issued(s: State, t: State, e: Ending) {
    && Sound(t) && t.bound == s.bound
    && ((t.stored.revision == s.stored.revision && t.stored.active == s.stored.active)
        || (&& t.stored.revision == s.stored.revision + 1 && t.stored.active == Generation(s.stored.revision + 1)
            && (s.bound ==> t.sent == s.sent + [t.stored.active] && t.stored.active in t.confirmed)))
    && (e == Done ==> t.stored.revision == s.stored.revision + 1 && t.stored.status == Active)
  }

  /** One issue, wherever it fails or dies. The active files are those of the stored revision, the
      candidate's those of it or the next one. They advance together, by one generation, and for a
      bound certificate only after the node accepted a configuration naming exactly the new
      files. Nothing sent to the node ever names files it does not hold. Success means advanced. */
  lemma {:induction false} IssueSound(s: State, luck: Point -> Fate, now: int)
    requires Sound(s)
    ensures Issued(s, IssueTo(s, luck, now).0, IssueTo(s, luck, now).1)
  {
    hide TryTo, SentSound;
    TrySound(s.(copy := s.stored), luck);
  }

  // ----- Runs -----

  datatype Op = IssueOp(luck: Point -> Fate, now: int) | BindOp | UnbindOp | PushOp

  /** Binding an inbound needs an active certificate; any other push of the node's configuration
      names whatever the stored row says. */
  function Perform(s: State, op: Op): State {
    match op
    case IssueOp(luck, now) => IssueTo(s, luck, now).0
    case BindOp => if s.stored.status.Active? && s.stored.active != NoPath then s.(bound := true) else s
    case UnbindOp => s.(bound := false)
    case PushOp => if s.bound && TlsPath(s.stored).Some? then s.(sent := s.sent + [TlsPath(s.stored).value]) else s
  }

  function Run(s: State, ops: seq<Op>): State
    decreases |ops|
  {
    if ops == [] then s else Run(Perform(s, ops[0]), ops[1..])
  }

  lemma {:induction false} PerformSound(s: State, op: Op)
    requires Sound(s)
    ensures Sound(Perform(s, op)) && s.stored.revision <= Perform(s, op).stored.revision <= s.stored.revision + 1
  {
    hide IssueTo;
    match op
    case IssueOp(luck, now) => IssueSound(s, luck, now);
    case PushOp =>
      if TlsPath(s.stored).Some? {
        TlsPathPresent(s.stored, s.installed);
      }
    case _ =>
  }

  /** Over every run of issues, bindings and pushes, with failures and crashes anywhere. */
  lemma {:induction false} EveryRunSound(s: State, ops: seq<Op>)
    requires Sound(s)
    ensures var t := Run(s, ops);
            && Sound(t) && s.stored.revision <= t.stored.revision
            && t.stored.active == PathOf(t.stored.revision)
            && (forall k | 0 <= k < |t.sent| :: t.sent[k].Generation? && t.sent[k].n in t.installed)
    decreases |ops|
  {
    hide Perform;
    if ops != [] {
      PerformSound(s, ops[0]);
      EveryRunSound(Perform(s, ops[0]), ops[1..]);
    }
  }

  /** After any number of failures and crashes, one undisturbed issue activates the next
      generation; a candidate that was already installed is deployed as it is, without a new
      order. Only a bound certificate that never had an active generation cannot get one. */
  lemma {:induction false} UndisturbedIssue(s: State, luck: Point -> Fate, now: int)
    requires RowSound(s.stored, s.installed) && forall p: Point :: luck(p) == Fine
    ensures var (t, e) := IssueTo(s, luck, now);
            && (e == Done <==> !(s.bound && s.stored.active == NoPath))
            && (e == Done ==> t.stored.active == Generation(s.stored.revision + 1) && t.stored.status == Active && t.stored.retries == 0)
            && (Staged(s.stored) ==> t.installed == s.installed)
            && (e == Done && Staged(s.stored) ==> t.stored.active == s.stored.candidate)
  {
  }

  // ----- An issue by the outcomes of its calls -----

  /** The calls of an issue up to the point where the next generation is ready to deploy: none but
      the checks if a candidate is staged. */
  predicate Ready(row: Row, luck: Point -> Fate) {
    && luck(Load) == Fine && luck(Checks) == Fine
    && ((row.candidate == NoPath || row.candidate == row.active) ==>
          && luck(Prepare) == Fine && luck(SaveAuthorizing) == Fine && luck(Acme) == Fine
          && luck(SaveInstalling) == Fine && luck(Install) == Fine)
  }

  /** A bound certificate is deployed only if there is an active one to build with, its state was
      saved, the configuration was built, and the node accepted it. */
  predicate Accepted(s: State, luck: Point -> Fate) {
    s.stored.active != NoPath && luck(SaveDeploying) == Fine && luck(BuildConfig) == Fine && luck(ApplyConfig) == Fine
  }

  predicate Deployed(s: State, luck: Point -> Fate) {
    Ready(s.stored, luck) && luck(Bindings) == Fine && (s.bound ==> Accepted(s, luck))
  }

  /** The generation an issue deploys. */
  function NextPath(row: Row): Path {
    if row.candidate != NoPath && row.candidate != row.active then row.candidate else Generation(row.revision + 1)
  }

  /** What one issue comes to, by the outcomes of its calls. It is done exactly if every call due was
      fine. The stored row moves to the next generation exactly if that was deployed and the row was
      saved, if need be by the save that schedules a retry. The node has confirmed the next files
      exactly if it accepted a configuration, and was sent one exactly if one was built. */
  ghost predicate Outcome(s: State, luck: Point -> Fate, t: State, e: Ending) {
    var kept := luck(SaveActive) == Fine || luck(SaveActive) == FailsLate || luck(SaveActive) == DiesLate;
    var late := luck(SaveActive) == Fails && (luck(SaveRetry) == Fine || luck(SaveRetry) == FailsLate || luck(SaveRetry) == DiesLate);
    && (e == Done <==> Deployed(s, luck) && luck(SaveActive) == Fine)
    && t.stored.revision == s.stored.revision + (if Deployed(s, luck) && (kept || late) then 1 else 0)
    && t.stored.active == (if Deployed(s, luck) && (kept || late) then NextPath(s.stored) else s.stored.active)
    && t.confirmed == s.confirmed + (if s.bound && Deployed(s, luck) then {NextPath(s.stored)} else {})
    && t.sent == s.sent + (if s.bound && s.stored.active != NoPath && Ready(s.stored, luck) && luck(Bindings) == Fine
                              && luck(SaveDeploying) == Fine && luck(BuildConfig) == Fine then [NextPath(s.stored)] else [])
    && t.installed == s.installed + (if Installs(s.stored, luck) then {s.stored.revision + 1} else {})
    && t.bound == s.bound
    && (luck(Load) == Fine && e == Failed && (luck(SaveRetry) == Fine || luck(SaveRetry) == FailsLate) ==>
          t.stored.status == RetryWait && t.stored.candidate == if Ready(s.stored, luck) then NextPath(s.stored) else s.stored.candidate)
    && (Deployed(s, luck) && kept && e == Done ==>
          t.stored == s.stored.(status := Active, candidate := NextPath(s.stored), active := NextPath(s.stored),
                                revision := s.stored.revision + 1, retries := 0, nextRetry := 0, error := false))
  }

  /** The install call was made and took effect. */
  predicate Installs(row: Row, luck: Point -> Fate) {
    && luck(Load) == Fine && luck(Checks) == Fine && (row.candidate == NoPath || row.candidate == row.active)
    && luck(Prepare) == Fine && luck(SaveAuthorizing) == Fine && luck(Acme) == Fine && luck(SaveInstalling) == Fine
    && (luck(Install) == Fine || luck(Install) == FailsLate || luck(Install) == DiesLate)
  }

  /** The outcome of an issue before a retry is scheduled. */
  ghost predicate Tried(s: State, luck: Point -> Fate, t: State, e: Ending) {
    var kept := luck(SaveActive) == Fine || luck(SaveActive) == FailsLate || luck(SaveActive) == DiesLate;
    var done := Deployed(s, luck);
    && (e == Done <==> done && luck(SaveActive) == Fine)
    && (done && e != Done ==> (e == Failed <==> luck(SaveActive) == Fails || luck(SaveActive) == FailsLate))
    && t.stored.revision == s.stored.revision + (if done && kept then 1 else 0)
    && t.stored.active == (if done && kept then NextPath(s.stored) else s.stored.active)
    && t.copy.revision == s.stored.revision + (if done then 1 else 0)
    && t.copy.active == (if done then NextPath(s.stored) else s.stored.active)
    && (e == Done ==> t.stored == t.copy)
    && t.copy.candidate == (if Ready(s.stored, luck) then NextPath(s.stored) else s.stored.candidate)
    && (done ==> t.copy.status == Active && t.copy.candidate == t.copy.active && t.copy.retries == 0 && t.copy.nextRetry == 0 && !t.copy.error)
  }

  ghost predicate Reached(s: State, luck: Point -> Fate, t: State) {
    && t.confirmed == s.confirmed + (if s.bound && Deployed(s, luck) then {NextPath(s.stored)} else {})
    && t.sent == s.sent + (if s.bound && s.stored.active != NoPath && Ready(s.stored, luck) && luck(Bindings) == Fine
                              && luck(SaveDeploying) == Fine && luck(BuildConfig) == Fine then [NextPath(s.stored)] else [])
    && t.installed == s.installed + (if Installs(s.stored, luck) then {s.stored.revision + 1} else {})
    && t.bound == s.bound
  }

  lemma {:induction false} TryOutcome(s: State, luck: Point -> Fate)
    requires s.copy == s.stored && luck(Load) == Fine
    ensures Tried(s, luck, TryTo(s, luck).0, TryTo(s, luck).1) && Reached(s, luck, TryTo(s, luck).0)
  {
    StageOutcome(s, luck);
    var staged := if Staged(s.stored) then (s, Done) else StageTo(s, luck);
    assert luck(Checks) == Fine ==> (staged.1 == Done <==> Ready(s.stored, luck));
    assert staged.1 == Done ==> staged.0.copy.candidate == NextPath(s.stored);
    if luck(Checks) == Fine && staged.1 == Done {
      FinishOutcome(staged.0, luck);
    }
    hide StageTo, FinishTo;
  }

  lemma {:induction false} FinishOutcome(s: State, luck: Point -> Fate)
    requires s.copy.active == s.stored.active && s.copy.revision == s.stored.revision && s.copy.candidate != NoPath
    ensures var (t, e) := FinishTo(s, luck);
            var kept := luck(SaveActive) == Fine || luck(SaveActive) == FailsLate || luck(SaveActive) == DiesLate;
            var done := Deploys(s, luck);
            && (e == Done <==> done && luck(SaveActive) == Fine)
            && (done && e != Done ==> (e == Failed <==> luck(SaveActive) == Fails || luck(SaveActive) == FailsLate))
            && t.stored.revision == s.stored.revision + (if done && kept then 1 else 0)
            && t.stored.active == (if done && kept then s.copy.candidate else s.stored.active)
            && (if done then
                  t.copy == s.copy.(active := s.copy.candidate, revision := s.copy.revision + 1, status := Active, retries := 0, nextRetry := 0, error := false)
                else t.copy == s.copy.(status := t.copy.status))
            && (e == Done ==> t.stored == t.copy)
            && t.confirmed == s.confirmed + (if s.bound && done then {s.copy.candidate} else {})
            && t.sent == s.sent + (if s.bound && s.copy.active != NoPath && luck(Bindings) == Fine && luck(SaveDeploying) == Fine
                                      && luck(BuildConfig) == Fine then [s.copy.candidate] else [])
            && t.installed == s.installed && t.bound == s.bound
  {
    DeployOutcome(s, luck);
    hide DeployTo;
  }

  lemma {:induction false} IssueOutcome(s: State, luck: Point -> Fate, now: int)
    ensures Outcome(s, luck, IssueTo(s, luck, now).0, IssueTo(s, luck, now).1)
  {
    if luck(Load) == Fine {
      TryOutcome(s.(copy := s.stored), luck);
    }
    hide TryTo, NextPath;
  }

  lemma {:induction false} StageOutcome(s: State, luck: Point -> Fate)
    requires s.copy == s.stored
    ensures var (t, e) := StageTo(s, luck);
            && (e == Done <==> luck(Prepare) == Fine && luck(SaveAuthorizing) == Fine && luck(Acme) == Fine
                               && luck(SaveInstalling) == Fine && luck(Install) == Fine)
            && t.sent == s.sent && t.confirmed == s.confirmed && t.bound == s.bound
            && t.copy.active == t.stored.active == s.stored.active && t.copy.revision == t.stored.revision == s.stored.revision
            && t.copy.candidate == (if e == Done then Generation(s.stored.revision + 1) else s.stored.candidate)
            && t.installed == s.installed + (if luck(Prepare) == Fine && luck(SaveAuthorizing) == Fine && luck(Acme) == Fine && luck(SaveInstalling) == Fine
                                                && TakesEffect(luck(Install)) then {s.stored.revision + 1} else {})
  {
  }

  /** The candidate in memory reaches the node, if it needs to. */
  predicate Deploys(s: State, luck: Point -> Fate) {
    && luck(Bindings) == Fine
    && (s.bound ==> s.copy.active != NoPath && luck(SaveDeploying) == Fine && luck(BuildConfig) == Fine && luck(ApplyConfig) == Fine)
  }

  lemma {:induction false} DeployOutcome(s: State, luck: Point -> Fate)
    requires s.copy.active == s.stored.active && s.copy.revision == s.stored.revision && s.copy.candidate != NoPath
    ensures var (t, e) := DeployTo(s, luck);
            && (e == Done <==> Deploys(s, luck))
            && t.confirmed == s.confirmed + (if s.bound && e == Done then {s.copy.candidate} else {})
            && t.sent == s.sent + (if s.bound && s.copy.active != NoPath && luck(Bindings) == Fine && luck(SaveDeploying) == Fine
                                      && luck(BuildConfig) == Fine then [s.copy.candidate] else [])
            && t.installed == s.installed && t.bound == s.bound
            && t.stored.revision == s.stored.revision && t.stored.active == s.stored.active
            && t.copy == (if e == Done then s.copy.(active := s.copy.candidate, revision := s.copy.revision + 1, status := Active)
                          else s.copy.(status := t.copy.status))
  {
  }

  // ----- Configurations during a renewal -----

  /** Over every run from the start, a bound certificate has working active files, and a
      configuration can be built with it exactly while it is active or being deployed: not while a
      renewal is authorized or installed, and not while a failed one waits for its retry. */
  lemma {:induction false} RenewalBlocksBuilds(ops: seq<Op>)
    ensures var t := Run(First(), ops);
            t.bound ==>
              && t.stored.active == Generation(t.stored.revision) && t.stored.revision in t.installed
              && (TlsPath(t.stored).Some? <==> t.stored.status.Active? || t.stored.status.Deploying?)
              && (TlsPath(t.stored).Some? ==> TlsPath(t.stored).value.Generation? && TlsPath(t.stored).value.n in t.installed)
  {
    EveryRunSound(First(), ops);
    hide Run;
  }

  const RENEWAL := [IssueOp(p => Fine, 0), BindOp, IssueOp((p: Point) => if p.Acme? then Fails else Fine, 100)]

  /** Issue, bind, and a renewal whose order fails: the active files are installed and accepted,
      but until the retry no configuration of the node can be built, or pushed. */
  lemma {:induction false} RenewalExample()
    ensures var t := Run(First(), RENEWAL);
            && t.bound && t.stored.active == Generation(1) && 1 in t.installed
            && t.stored.status.RetryWait? && t.stored.nextRetry == 160
            && TlsPath(t.stored).None? && Perform(t, PushOp) == t
  {
    var first := Perform(First(), RENEWAL[0]);
    assert first.stored == Row(Active, Generation(1), Generation(1), 1, 0, 0, false) && 1 in first.installed && !first.bound;
    var second := Perform(first, RENEWAL[1]);
    assert second == first.(bound := true);
    var third := Perform(second, RENEWAL[2]);
    assert third.stored == Row(RetryWait, Generation(1), Generation(1), 1, 1, 160, true) && third.bound && 1 in third.installed;
    hide Perform;
    assert Run(First(), RENEWAL) == Run(first, RENEWAL[1..]);
    assert RENEWAL[1..][0] == RENEWAL[1] && RENEWAL[1..][1..] == RENEWAL[2..];
    assert Run(first, RENEWAL[1..]) == Run(second, RENEWAL[2..]);
    assert RENEWAL[2..][0] == RENEWAL[2] && RENEWAL[2..][1..] == [];
    assert Run(second, RENEWAL[2..]) == Run(third, []) == third;
  }
}
