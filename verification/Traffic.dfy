/** Cumulative traffic under concurrency. Relayed bytes are counted at any time, also on trackers
    of boxes already closed; totals are computed under the lock and written to the file after it
    is released, by savers that share one temporary file. One direction is modelled; the other
    is counted the same way. */
module Traffic {

  /** What a reader of the saved file finds. Savers that overlap can leave unreadable text. */
  datatype File = Missing | Unreadable | Saved(value: nat)

  /** `counters` holds every tracker of this process, oldest first; `snapshots` the value each
      closed one had when it was rolled up. `truth` counts every byte relayed since the first
      process, `answered` is the last total reported. */
  datatype Process = Process(
    base: nat, counters: seq<nat>, snapshots: seq<nat>, live: bool, previous: nat,
    saving: seq<nat>, file: File, answered: nat, truth: nat)
  {
    function Total(): nat {
      if live && counters != [] then previous + counters[|counters| - 1] else previous
    }
  }

  datatype Step =
    | Relay(tracker: nat, bytes: nat)
    | Open
    | RollUp
    | BeginSave
    | Land(saver: nat)
    | Garble
    | EndSave(saver: nat)
    | Ask
    | Restart

  function Loaded(file: File): nat {
    if file.Saved? then file.value else 0
  }

  function Started(file: File, truth: nat): Process {
    Process(Loaded(file), [], [], false, Loaded(file), [], file, 0, truth)
  }

  /** One atomic action; an action that is not enabled changes nothing. A saver that lands may
      leave its own value, the value of any overlapping saver, or unreadable text. */
  function Next(p: Process, step: Step): Process {
    match step
    case Relay(t, n) =>
      if t < |p.counters| then p.(counters := p.counters[t := p.counters[t] + n], truth := p.truth + n) else p
    case Open =>
      if p.live then p else p.(counters := p.counters + [0], live := true)
    case RollUp =>
      if p.live && p.counters != [] then
        p.(previous := p.Total(), snapshots := p.snapshots + [p.counters[|p.counters| - 1]], live := false)
      else p
    case BeginSave => p.(saving := p.saving + [p.Total()])
    case Land(k) => if k < |p.saving| then p.(file := Saved(p.saving[k])) else p
    case Garble => if p.saving != [] then p.(file := Unreadable) else p
    case EndSave(k) => if k < |p.saving| then p.(saving := p.saving[..k] + p.saving[k + 1..]) else p
    case Ask => p.(answered := p.Total())
    case Restart => Started(p.file, p.truth)
  }

  function Run(p: Process, steps: seq<Step>): Process
    decreases |steps|
  {
    if steps == [] then p else Run(Next(p, steps[0]), steps[1..])
  }

  function Sum(s: seq<nat>): nat {
    if s == [] then 0 else Sum(s[..|s| - 1]) + s[|s| - 1]
  }

  lemma {:induction false} SumUpdate(s: seq<nat>, i: nat, v: nat)
    requires i < |s|
    ensures Sum(s[i := v]) == Sum(s) - s[i] + v
    decreases |s|
  {
    var last := |s| - 1;
    if i == last {
      assert s[i := v][..last] == s[..last];
    } else {
      assert s[i := v][..last] == s[..last][i := v];
      SumUpdate(s[..last], i, v);
    }
  }

  lemma {:induction false} SumAppend(s: seq<nat>, v: nat)
    ensures Sum(s + [v]) == Sum(s) + v
  {
    assert (s + [v])[..|s|] == s;
  }

  lemma {:induction false} SumMonotone(s: seq<nat>, t: seq<nat>)
    requires |s| <= |t| && forall i | 0 <= i < |s| :: s[i] <= t[i]
    ensures Sum(s) <= Sum(t)
    ensures |s| < |t| ==> Sum(s) + t[|t| - 1] <= Sum(t)
    decreases |t|
  {
    if |s| < |t| {
      SumMonotone(s, t[..|t| - 1]);
    } else if s != [] {
      SumMonotone(s[..|s| - 1], t[..|t| - 1]);
    }
  }

  /** The total is the loaded base plus a snapshot of every tracker, and it bounds everything
      saved, being saved or reported; no more is ever counted than was relayed. */
  ghost predicate Sound(p: Process) {
    && |p.counters| == |p.snapshots| + (if p.live then 1 else 0)
    && (forall i | 0 <= i < |p.snapshots| :: p.snapshots[i] <= p.counters[i])
    && p.previous == p.base + Sum(p.snapshots)
    && (forall k | 0 <= k < |p.saving| :: p.saving[k] <= p.Total())
    && (p.file.Saved? ==> p.file.value <= p.Total())
    && p.answered <= p.Total()
    && p.base + Sum(p.counters) <= p.truth
  }

  lemma {:induction false} TotalBounded(p: Process)
    requires Sound(p)
    ensures p.base <= p.Total() <= p.base + Sum(p.counters) <= p.truth
  {
    SumMonotone(p.snapshots, p.counters);
  }

  lemma {:induction false} RelaySound(p: Process, t: nat, n: nat)
    requires Sound(p)
    ensures Sound(Next(p, Relay(t, n))) && p.Total() <= Next(p, Relay(t, n)).Total()
  {
    hide Sum;
    if t < |p.counters| {
      SumUpdate(p.counters, t, p.counters[t] + n);
    }
  }

  lemma {:induction false} OpenSound(p: Process)
    requires Sound(p)
    ensures Sound(Next(p, Open)) && Next(p, Open).Total() == p.Total()
  {
    hide Sum;
    SumAppend(p.counters, 0);
  }

  lemma {:induction false} RollUpSound(p: Process)
    requires Sound(p)
    ensures Sound(Next(p, RollUp)) && Next(p, RollUp).Total() == p.Total()
  {
    hide Sum;
    if p.live {
      SumAppend(p.snapshots, p.counters[|p.counters| - 1]);
    }
  }

  lemma {:induction false} RestartSound(p: Process)
    requires Sound(p)
    ensures Sound(Next(p, Restart))
  {
    TotalBounded(p);
  }

  lemma {:induction false} SaveSound(p: Process, step: Step)
    requires Sound(p) && (step.BeginSave? || step.Land? || step.Garble? || step.EndSave? || step.Ask?)
    ensures Sound(Next(p, step)) && Next(p, step).Total() == p.Total()
  {
    hide Sum;
  }

  /** Bytes relayed before this process that it did not load. */
  function Unloaded(p: Process): int {
    p.truth - p.base - Sum(p.counters)
  }

  lemma {:induction false} UnloadedFixed(p: Process, step: Step)
    requires !step.Restart?
    ensures Unloaded(Next(p, step)) == Unloaded(p)
  {
    hide Sum;
    if step.Relay? && step.tracker < |p.counters| {
      SumUpdate(p.counters, step.tracker, p.counters[step.tracker] + step.bytes);
    }
    SumAppend(p.counters, 0);
  }

  lemma {:induction false} NextSound(p: Process, step: Step)
    requires Sound(p)
    ensures Sound(Next(p, step))
    ensures !step.Restart? ==> p.Total() <= Next(p, step).Total() && Next(p, step).base == p.base
    ensures !step.Restart? && !step.Relay? ==> Next(p, step).Total() == p.Total()
    ensures !step.Restart? ==> Unloaded(Next(p, step)) == Unloaded(p)
  {
    if !step.Restart? {
      UnloadedFixed(p, step);
    }
    hide Sound, Unloaded;
    match step
    case Relay(t, n) => RelaySound(p, t, n);
    case Open => OpenSound(p);
    case RollUp => RollUpSound(p);
    case Restart => RestartSound(p);
    case _ => SaveSound(p, step);
  }

  lemma {:induction false} SumEmpty()
    ensures Sum([]) == 0
  {
  }

  lemma {:induction false} FirstSound(file: File, truth: nat)
    requires Loaded(file) <= truth
    ensures Sound(Started(file, truth)) && Unloaded(Started(file, truth)) == truth - Loaded(file)
  {
    SumEmpty();
  }

  /** Over every interleaving, across any number of restarts, the total never exceeds what was
      relayed; while the process lives it never goes down, so neither does a reported total. */
  lemma {:induction false} EveryRunSound(p: Process, steps: seq<Step>)
    requires Sound(p)
    ensures var q := Run(p, steps); Sound(q) && q.Total() <= q.truth
    ensures (forall k | 0 <= k < |steps| :: !steps[k].Restart?) ==> p.Total() <= Run(p, steps).Total() && Run(p, steps).base == p.base
    ensures (forall k | 0 <= k < |steps| :: !steps[k].Restart?) ==> Unloaded(Run(p, steps)) == Unloaded(p)
    decreases |steps|
  {
    hide Next, Sound, Sum, Unloaded;
    if steps == [] {
      TotalBounded(p);
    } else {
      NextSound(p, steps[0]);
      EveryRunSound(Next(p, steps[0]), steps[1..]);
    }
  }

  /** Two answers of one process, with anything in between, are in order. */
  lemma {:induction false} AnswersNeverDecrease(p: Process, steps: seq<Step>)
    requires Sound(p) && forall k | 0 <= k < |steps| :: !steps[k].Restart?
    ensures Next(p, Ask).answered <= Next(Run(Next(p, Ask), steps), Ask).answered
  {
    hide Run, Sound, Sum;
    NextSound(p, Ask);
    EveryRunSound(Next(p, Ask), steps);
  }

  /** What was relayed on each tracker after its box was rolled up. */
  function Late(p: Process): seq<nat>
    requires |p.snapshots| <= |p.counters| && forall i | 0 <= i < |p.snapshots| :: p.snapshots[i] <= p.counters[i]
  {
    seq(|p.snapshots|, i requires 0 <= i < |p.snapshots| => p.counters[i] - p.snapshots[i])
  }

  lemma {:induction false} SumDifference(c: seq<nat>, s: seq<nat>, d: seq<nat>)
    requires |c| == |s| == |d| && forall i | 0 <= i < |c| :: c[i] == s[i] + d[i]
    ensures Sum(c) == Sum(s) + Sum(d)
    decreases |c|
  {
    if c != [] {
      SumDifference(c[..|c| - 1], s[..|s| - 1], d[..|d| - 1]);
    }
  }

  /** The bytes missing from the total are exactly those relayed on a tracker after its box was
      rolled up, and those that this process did not load when it started. */
  lemma {:induction false} Conservation(p: Process)
    requires Sound(p)
    ensures p.truth == p.Total() + Sum(Late(p)) + Unloaded(p)
    ensures Unloaded(p) >= 0
  {
    var n := |p.snapshots|;
    SumDifference(p.counters[..n], p.snapshots, Late(p));
    if p.live {
      assert p.counters[..|p.counters| - 1] == p.counters[..n];
    } else {
      assert p.counters == p.counters[..n];
    }
  }

  ghost predicate OnlyLateMissing(p: Process) {
    Sound(p) && p.truth == p.Total() + Sum(Late(p))
  }

  lemma {:induction false} FirstProcess() returns (first: Process)
    ensures first == Started(Missing, 0) && Sound(first) && Unloaded(first) == 0
  {
    hide Sound, Unloaded;
    var file: File, truth: nat := Missing, 0;
    first := Started(file, truth);
    FirstSound(file, truth);
  }

  /** From the first process on: whatever is interleaved and however often it restarts, no total
      exceeds what was relayed; and until the first restart exactly the late bytes are missing. */
  lemma {:induction false} FromTheFirst(steps: seq<Step>) returns (first: Process)
    ensures first == Started(Missing, 0)
    ensures var q := Run(first, steps);
            && Sound(q) && q.Total() <= q.truth
            && ((forall k | 0 <= k < |steps| :: !steps[k].Restart?) ==> OnlyLateMissing(q))
  {
    hide *;
    first := FirstProcess();
    FromSound(first, steps);
  }

  lemma {:induction false} FromSound(p: Process, steps: seq<Step>)
    requires Sound(p) && Unloaded(p) == 0
    ensures var q := Run(p, steps);
            && Sound(q) && q.Total() <= q.truth
            && ((forall k | 0 <= k < |steps| :: !steps[k].Restart?) ==> OnlyLateMissing(q))
  {
    hide Next, Run, OnlyLateMissing, Sound, Unloaded;
    EveryRunSound(p, steps);
    NothingElse(Run(p, steps));
  }

  lemma {:induction false} NothingElse(p: Process)
    requires Sound(p)
    ensures Unloaded(p) == 0 ==> OnlyLateMissing(p)
  {
    Conservation(p);
    hide Sum, Unloaded;
  }

  /** An orderly stop loses nothing: the periodic saver has exited, the box is rolled up, the
      total is written alone, and the next process starts from it, whatever old connections
      relayed in between. */
  lemma {:induction false} StopThenRestart(p: Process, t: nat, n: nat)
    requires Sound(p) && p.saving == []
    ensures Run(p, [RollUp, BeginSave, Relay(t, n), Land(0), EndSave(0), Restart]).Total() == p.Total()
  {
    hide Sum;
    var a := Next(p, RollUp);
    NextSound(p, RollUp);
    var b := Next(a, BeginSave);
    var c := Next(b, Relay(t, n));
    var d := Next(c, Land(0));
    var e := Next(d, EndSave(0));
    assert e.file == Saved(a.Total());
    RunSix(p, RollUp, BeginSave, Relay(t, n), Land(0), EndSave(0), Restart);
  }

  lemma {:induction false} RunSix(p: Process, a: Step, b: Step, c: Step, d: Step, e: Step, f: Step)
    ensures Run(p, [a, b, c, d, e, f]) == Next(Next(Next(Next(Next(Next(p, a), b), c), d), e), f)
  {
    hide Next;
    RunStep(p, a, [b, c, d, e, f]);
    RunStep(Next(p, a), b, [c, d, e, f]);
    RunStep(Next(Next(p, a), b), c, [d, e, f]);
    RunStep(Next(Next(Next(p, a), b), c), d, [e, f]);
    RunStep(Next(Next(Next(Next(p, a), b), c), d), e, [f]);
  }

  lemma {:induction false} RunStep(p: Process, a: Step, rest: seq<Step>)
    ensures Run(p, [a] + rest) == Run(Next(p, a), rest)
  {
    assert ([a] + rest)[1..] == rest;
  }

  // ----- Connections of one tracker -----

  function StillOpen(closed: seq<bool>): nat {
    if closed == [] then 0 else StillOpen(closed[..|closed| - 1]) + if closed[|closed| - 1] then 0 else 1
  }

  lemma {:induction false} CloseOne(closed: seq<bool>, i: nat)
    requires i < |closed|
    ensures StillOpen(closed[i := true]) == StillOpen(closed) - if closed[i] then 0 else 1
    decreases |closed|
  {
    var last := |closed| - 1;
    if i == last {
      assert closed[i := true][..last] == closed[..last];
    } else {
      assert closed[i := true][..last] == closed[..last][i := true];
      CloseOne(closed[..last], i);
    }
  }

  /** Counts active connections and bytes. A connection may be closed any number of times, by
      either side; only the first time counts. */
  class Tracker {
    var active: int
    var bytes: nat
    var closed: seq<bool>

    ghost predicate Valid()
      reads this
    {
      active == StillOpen(closed)
    }

    constructor ()
      ensures Valid() && bytes == 0 && closed == []
    {
      active, bytes, closed := 0, 0, [];
    }

    method Routed() returns (connection: nat)
      requires Valid()
      modifies this
      ensures Valid() && closed == old(closed) + [false] && connection == |old(closed)| && bytes == old(bytes)
      ensures active == old(active) + 1
    {
      connection := |closed|;
      active := active + 1;
      closed := closed + [false];
      assert closed[..|closed| - 1] == old(closed);
    }

    method Close(connection: nat)
      requires Valid() && connection < |closed|
      modifies this
      ensures Valid() && closed == old(closed)[connection := true] && bytes == old(bytes)
      ensures active == old(active) - if old(closed)[connection] then 0 else 1
    {
      CloseOne(closed, connection);
      if !closed[connection] {
        closed := closed[connection := true];
        active := active - 1;
      }
    }

    method Snapshot() returns (connections: nat, total: nat)
      requires Valid()
      ensures connections == StillOpen(closed) && total == bytes
    {
      connections, total := active, bytes;
    }

    method Count(n: nat)
      requires Valid()
      modifies this
      ensures Valid() && bytes == old(bytes) + n && closed == old(closed)
    {
      bytes := bytes + n;
    }
  }
}
