/** When commands are delivered: how far apart, until when, and how often. */
module CommandDelivery {
  import opened AgentCommands

  /** The time n leases of at least `shortest` seconds take. */
  function Span(n: nat, shortest: nat): nat {
    if n == 0 then 0 else Span(n - 1, shortest) + shortest
  }

  lemma {:induction false} SpanIsProduct(n: nat, shortest: nat)
    ensures Span(n, shortest) == n * shortest
    decreases n
  {
    if n > 0 {
      SpanIsProduct(n - 1, shortest);
    }
  }

  predicate RowSound(c: Command, clock: int, shortest: nat) {
    && c.created <= clock
    && (c.status.Pending? ==> c.attempt == 0)
    && (c.status.Leased? ==> c.leaseExpires >= c.created + Span(c.attempt, shortest))
    && (c.attempt > 0 && c.expires > 0 ==> c.created + Span(c.attempt - 1, shortest) < c.expires)
  }

  predicate EntrySound(c: Command, e: Delivery) {
    && (c.expires > 0 ==> e.time < c.expires)
    && !c.status.Pending?
    && (c.status.Leased? ==> c.leaseExpires >= e.time + e.lease)
  }

  ghost predicate Spaced(log: seq<Delivery>) {
    forall a, b | 0 <= a < b < |log| && log[a].row == log[b].row :: log[b].time >= log[a].time + log[a].lease
  }

  ghost predicate Sound(q: Queue, shortest: nat) {
    && (forall i | 0 <= i < |q.rows| :: RowSound(q.rows[i], q.clock, shortest))
    && (forall a | 0 <= a < |q.log| :: q.log[a].row < |q.rows| && EntrySound(q.rows[q.log[a].row], q.log[a]))
    && Spaced(q.log)
  }

  /** A row after a lease. */
  function After(c: Command, node: string, now: int, lease: int, claimed: bool): Command {
    var swept := Swept(c, node, now);
    if claimed then Claimed(swept, now, lease) else swept
  }

  lemma {:induction false} AfterSound(c: Command, node: string, clock: int, now: int, lease: int, claimed: bool, shortest: nat)
    requires RowSound(c, clock, shortest) && clock <= now && shortest <= lease
    requires claimed ==> Deliverable(Swept(c, node, now), node, now)
    ensures RowSound(After(c, node, now, lease, claimed), now, shortest)
  {
    assert Span(c.attempt + 1, shortest) == Span(c.attempt, shortest) + shortest;
    assert Span(0, shortest) == 0;
  }

  lemma {:induction false} AfterEntry(c: Command, node: string, now: int, lease: int, claimed: bool, e: Delivery)
    requires EntrySound(c, e) && lease > 0
    requires claimed ==> Deliverable(Swept(c, node, now), node, now)
    ensures EntrySound(After(c, node, now, lease, claimed), e)
    ensures claimed ==> now >= e.time + e.lease
  {
  }

  lemma {:induction false} NewEntry(c: Command, node: string, now: int, lease: int, row: nat)
    requires Deliverable(Swept(c, node, now), node, now)
    ensures EntrySound(After(c, node, now, lease, true), Delivery(row, now, lease))
  {
  }

  /** The rows of a lease, one by one. */
  lemma {:induction false} LeaseRow(q: Queue, s: Step, i: nat)
    requires Allowed(q, s) && s.action.LeaseAction? && s.action.node != "" && !s.action.fault.AtSweep? && i < |q.rows|
    ensures var a := s.action;
            var claimed := i in a.rows[..Updates(a.rows, a.fault)];
            && |Next(q, s).rows| == |q.rows|
            && Next(q, s).rows[i] == After(q.rows[i], a.node, s.now, LeaseSeconds(a.lease), claimed)
            && (i in a.rows ==> Deliverable(Swept(q.rows[i], a.node, s.now), a.node, s.now))
            && (claimed ==> i in a.rows)
  {
    hide Swept, Deliverable, Claimed;
    var a := s.action;
    var t := Sweep(q.rows, a.node, s.now);
    if i in a.rows {
      var p :| 0 <= p < |a.rows| && a.rows[p] == i;
      assert Deliverable(t[a.rows[p]], a.node, s.now);
    }
  }

  lemma {:induction false} LeaseRowsSound(q: Queue, s: Step, shortest: nat)
    requires Allowed(q, s) && s.action.LeaseAction? && s.action.node != "" && !s.action.fault.AtSweep?
    requires shortest <= LeaseSeconds(s.action.lease) && Sound(q, shortest)
    ensures forall i | 0 <= i < |Next(q, s).rows| :: RowSound(Next(q, s).rows[i], s.now, shortest)
  {
    LeaseLength(q, s);
    hide Next, RowSound, Allowed, After, Swept, Deliverable, EntrySound, Spaced;
    assert q.clock <= s.now by { ClockForward(q, s); }
    var a := s.action;
    forall i | 0 <= i < |Next(q, s).rows| ensures RowSound(Next(q, s).rows[i], s.now, shortest) {
      LeaseRow(q, s, i);
      AfterSound(q.rows[i], a.node, q.clock, s.now, LeaseSeconds(a.lease), i in a.rows[..Updates(a.rows, a.fault)], shortest);
    }
  }

  lemma {:induction false} ClockForward(q: Queue, s: Step)
    requires Allowed(q, s)
    ensures q.clock <= s.now
  {
  }

  lemma {:induction false} LeaseLength(q: Queue, s: Step)
    requires s.action.LeaseAction?
    ensures |Next(q, s).rows| == |q.rows|
    ensures var a := s.action;
            Next(q, s).log == if a.node != "" && !Hit(a.rows, a.fault)
                              then q.log + Deliveries(a.rows, s.now, LeaseSeconds(a.lease)) else q.log
    ensures !Hit(s.action.rows, s.action.fault) ==> s.action.rows[..Updates(s.action.rows, s.action.fault)] == s.action.rows
    ensures s.action.node == "" || s.action.fault.AtSweep? ==> Next(q, s).rows == q.rows
  {
  }

  lemma {:induction false} LeaseLogSound(q: Queue, s: Step, shortest: nat)
    requires Allowed(q, s) && s.action.LeaseAction? && s.action.node != "" && !s.action.fault.AtSweep? && Sound(q, shortest)
    ensures var n := Next(q, s);
            forall a | 0 <= a < |n.log| :: n.log[a].row < |n.rows| && EntrySound(n.rows[n.log[a].row], n.log[a])
  {
    LeaseLength(q, s);
    hide Next, RowSound, Allowed, After, Swept, Deliverable, EntrySound, Spaced, Hit, Updates;
    var n, a := Next(q, s), s.action;
    var lease := LeaseSeconds(a.lease);
    forall k | 0 <= k < |n.log| ensures n.log[k].row < |n.rows| && EntrySound(n.rows[n.log[k].row], n.log[k]) {
      if k < |q.log| {
        var e := q.log[k];
        LeaseRow(q, s, e.row);
        AfterEntry(q.rows[e.row], a.node, s.now, lease, e.row in a.rows[..Updates(a.rows, a.fault)], e);
      } else {
        var row := a.rows[k - |q.log|];
        assert row in a.rows;
        SelectedBound(q, s, row);
        LeaseRow(q, s, row);
        NewEntry(q.rows[row], a.node, s.now, lease, row);
      }
    }
  }

  lemma {:induction false} SelectedBound(q: Queue, s: Step, row: nat)
    requires Allowed(q, s) && s.action.LeaseAction? && row in s.action.rows
    ensures row < |q.rows|
  {
    assert |Sweep(q.rows, s.action.node, s.now)| == |q.rows|;
  }

  lemma {:induction false} SelectedDistinct(q: Queue, s: Step)
    requires Allowed(q, s) && s.action.LeaseAction?
    ensures forall x, y | 0 <= x < y < |s.action.rows| :: s.action.rows[x] != s.action.rows[y]
  {
  }

  /** A row handed out again had its earlier lease run out. */
  lemma {:induction false} Redelivered(q: Queue, s: Step, shortest: nat, a: nat, p: nat)
    requires Allowed(q, s) && s.action.LeaseAction? && s.action.node != "" && !s.action.fault.AtSweep? && Sound(q, shortest)
    requires !Hit(s.action.rows, s.action.fault) && a < |q.log| && p < |s.action.rows| && s.action.rows[p] == q.log[a].row
    ensures s.now >= q.log[a].time + q.log[a].lease
  {
    LeaseLength(q, s);
    hide Next, RowSound, Allowed, After, Swept, Deliverable, EntrySound, Hit, Updates, Spaced;
    var act, row := s.action, q.log[a].row;
    assert row in act.rows;
    LeaseRow(q, s, row);
    AfterEntry(q.rows[row], act.node, s.now, LeaseSeconds(act.lease), true, q.log[a]);
  }

  lemma {:induction false} LeaseSpaced(q: Queue, s: Step, shortest: nat)
    requires Allowed(q, s) && s.action.LeaseAction? && s.action.node != "" && !s.action.fault.AtSweep? && Sound(q, shortest)
    ensures Spaced(Next(q, s).log)
  {
    LeaseLength(q, s);
    SelectedDistinct(q, s);
    assert Spaced(q.log);
    var log, rows := Next(q, s).log, s.action.rows;
    if !Hit(rows, s.action.fault) {
      forall a, p | 0 <= a < |q.log| && 0 <= p < |rows| && rows[p] == q.log[a].row
        ensures s.now >= q.log[a].time + q.log[a].lease
      {
        Redelivered(q, s, shortest, a, p);
      }
      hide Next, Allowed, Sound, Hit, Updates;
      assert Spaced(q.log + Deliveries(rows, s.now, LeaseSeconds(s.action.lease)));
    }
  }

  lemma {:induction false} CreateSound(q: Queue, s: Step, shortest: nat)
    requires Allowed(q, s) && Sound(q, shortest) && s.action.CreateAction?
    ensures Sound(Next(q, s), shortest)
  {
    hide Spaced, FindId;
    assert Span(0, shortest) == 0;
  }

  lemma {:induction false} CompleteSound(q: Queue, s: Step, shortest: nat)
    requires Allowed(q, s) && Sound(q, shortest) && s.action.CompleteAction?
    ensures Sound(Next(q, s), shortest)
  {
    hide Spaced, FindId, Span;
  }

  predicate LongEnough(s: Step, shortest: nat) {
    s.action.LeaseAction? ==> shortest <= LeaseSeconds(s.action.lease)
  }

  lemma {:induction false} NextSound(q: Queue, s: Step, shortest: nat)
    requires Allowed(q, s) && Sound(q, shortest) && LongEnough(s, shortest)
    ensures Sound(Next(q, s), shortest)
  {
    if s.action.LeaseAction? {
      LeaseLength(q, s);
      if s.action.node != "" && !s.action.fault.AtSweep? {
        LeaseRowsSound(q, s, shortest);
        LeaseLogSound(q, s, shortest);
        LeaseSpaced(q, s, shortest);
        assert Next(q, s).clock == s.now;
      } else {
        ClockForward(q, s);
        assert Next(q, s) == Queue(q.rows, q.log, s.now);
      }
    } else if s.action.CreateAction? {
      CreateSound(q, s, shortest);
    } else {
      CompleteSound(q, s, shortest);
    }
  }

  lemma {:induction false} RunSound(q: Queue, steps: seq<Step>, shortest: nat)
    requires RunAllowed(q, steps) && Sound(q, shortest)
    requires forall k | 0 <= k < |steps| :: LongEnough(steps[k], shortest)
    ensures Sound(Run(q, steps), shortest)
    decreases |steps|
  {
    hide Next, Allowed, Sound, LongEnough;
    if steps != [] {
      NextSound(q, steps[0], shortest);
      RunSound(Next(q, steps[0]), steps[1..], shortest);
    }
  }

  /** From an empty queue, whatever nodes and callers do and wherever the store fails, as long as
      the clock does not go back:
      - two deliveries of one command are at least the first one's lease apart;
      - nothing is delivered at or after the end of its time to live;
      - a command created with a time to live is handed out, successfully or not, at most as many
        times as leases begin within it. */
  lemma {:induction false} EveryRunDelivers(clock: int, steps: seq<Step>, shortest: nat)
    requires RunAllowed(Queue([], [], clock), steps)
    requires forall k | 0 <= k < |steps| :: LongEnough(steps[k], shortest)
    ensures var q := Run(Queue([], [], clock), steps);
            && (forall a, b | 0 <= a < b < |q.log| && q.log[a].row == q.log[b].row ::
                  q.log[b].time >= q.log[a].time + q.log[a].lease)
            && (forall a | 0 <= a < |q.log| ::
                  q.log[a].row < |q.rows| && (q.rows[q.log[a].row].expires > 0 ==> q.log[a].time < q.rows[q.log[a].row].expires))
            && (forall i | 0 <= i < |q.rows| && q.rows[i].attempt > 0 && q.rows[i].expires > 0 ::
                  (q.rows[i].attempt - 1) * shortest < q.rows[i].expires - q.rows[i].created)
  {
    hide Run, RunAllowed, LongEnough;
    RunSound(Queue([], [], clock), steps, shortest);
    var q := Run(Queue([], [], clock), steps);
    forall i | 0 <= i < |q.rows| && q.rows[i].attempt > 0 && q.rows[i].expires > 0
      ensures (q.rows[i].attempt - 1) * shortest < q.rows[i].expires - q.rows[i].created
    {
      SpanIsProduct(q.rows[i].attempt - 1, shortest);
      assert RowSound(q.rows[i], q.clock, shortest);
    }
  }

  /** With the default lease and time to live: five times. */
  lemma {:induction false} FiveAttempts(clock: int, steps: seq<Step>, i: nat)
    requires RunAllowed(Queue([], [], clock), steps)
    requires forall k | 0 <= k < |steps| && steps[k].action.LeaseAction? :: steps[k].action.lease <= 0
    requires var q := Run(Queue([], [], clock), steps);
             i < |q.rows| && q.rows[i].expires > 0 && q.rows[i].expires == q.rows[i].created + DEFAULT_TTL
    ensures Run(Queue([], [], clock), steps).rows[i].attempt <= 5
  {
    forall k | 0 <= k < |steps| ensures LongEnough(steps[k], DEFAULT_LEASE) {
    }
    hide Run, RunAllowed, LongEnough;
    EveryRunDelivers(clock, steps, DEFAULT_LEASE);
    var q := Run(Queue([], [], clock), steps);
    assert q.rows[i].attempt > 0 ==> (q.rows[i].attempt - 1) * DEFAULT_LEASE < q.rows[i].expires - q.rows[i].created;
  }

  lemma {:induction false} RunParts(q: Queue, before: seq<Step>, after: seq<Step>)
    requires RunAllowed(q, before + after)
    ensures Run(q, before + after) == Run(Run(q, before), after) && RunAllowed(Run(q, before), after)
    decreases |before|
  {
    hide Next, Allowed;
    if before == [] {
      assert before + after == after;
    } else {
      assert (before + after)[1..] == before[1..] + after;
      RunParts(Next(q, before[0]), before[1..], after);
    }
  }

  lemma {:induction false} RowsStay(q: Queue, steps: seq<Step>, i: nat)
    requires i < |q.rows|
    ensures i < |Run(q, steps).rows|
    ensures Run(q, steps).rows[i].created == q.rows[i].created && Run(q, steps).rows[i].expires == q.rows[i].expires
    decreases |steps|
  {
    if steps != [] {
      NextRows(q, steps[0]);
      hide Next;
      RowsStay(Next(q, steps[0]), steps[1..], i);
    }
  }

  /** So a command created without a time to live of its own is handed out at most five times. */
  lemma {:induction false} DefaultFive(clock: nat, before: seq<Step>, id: string, node: string, now: int, after: seq<Step>)
    requires var s := Step(now, CreateAction(id, node, 0)); RunAllowed(Queue([], [], clock), before + ([s] + after))
    requires forall s | s in before + after :: s.action.LeaseAction? ==> s.action.lease <= 0
    requires var q := Run(Queue([], [], clock), before); clock <= q.clock && node != "" && forall i | 0 <= i < |q.rows| :: q.rows[i].id != id
    ensures var i := |Run(Queue([], [], clock), before).rows|;
            var rows := Run(Queue([], [], clock), before + ([Step(now, CreateAction(id, node, 0))] + after)).rows;
            i < |rows| && rows[i].created == now && rows[i].attempt <= 5
  {
    var s, start := Step(now, CreateAction(id, node, 0)), Queue([], [], clock);
    var rest := [s] + after;
    RunParts(start, before, rest);
    var q := Run(start, before);
    assert rest[0] == s && rest[1..] == after;
    CreateSpec(q.rows, id, node, 0, now);
    var i := |q.rows|;
    var made := Next(q, s);
    assert made.rows[i].created == now && made.rows[i].expires == now + DEFAULT_TTL && q.clock <= now;
    RowsStay(made, after, i);
    var all := before + rest;
    assert forall x | x in all :: x in before + after || x == s;
    assert forall k | 0 <= k < |all| :: all[k] in all;
    hide Next, RunAllowed, Created;
    assert Run(start, all) == Run(made, after);
    hide Run;
    FiveAttempts(clock, all, i);
  }
}
