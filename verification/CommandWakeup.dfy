/** Waking the long polls of one node. Enqueuing stores a command and then offers a token to a
    one-slot channel; a poll creates the channel, leases, and parks when nothing was there. All
    of it interleaves. */
module CommandWakeup {
  const BATCH := 16

  datatype Phase = Away | Checking | Empty | Parked

  /** Enqueuers stand after the insert, `inserted`, or hold the channel and have not sent yet,
      `holding`. `pending` counts stored commands not leased yet. */
  datatype Desk = Desk(pending: nat, channel: bool, token: bool, inserted: nat, holding: nat, polls: seq<Phase>)

  datatype Step =
    | Insert
    | LookUp
    | Send
    | Poll(i: nat)
    | Lease(i: nat)
    | LeaseFails(i: nat, taken: nat)
    | Park(i: nat)
    | Wake(i: nat)
    | Leave(i: nat)
    | Lapse(n: nat)

  predicate Is(d: Desk, i: nat, phase: Phase) {
    i < |d.polls| && d.polls[i] == phase
  }

  function Taken(d: Desk): nat {
    if d.pending <= BATCH then d.pending else BATCH
  }

  /** One atomic action; an action that is not enabled changes nothing. */
  function Next(d: Desk, s: Step): Desk {
    match s
    case Insert => d.(pending := d.pending + 1, inserted := d.inserted + 1)
    case LookUp =>
      if d.inserted == 0 then d
      else d.(inserted := d.inserted - 1, holding := if d.channel then d.holding + 1 else d.holding)
    case Send => if d.holding == 0 then d else d.(holding := d.holding - 1, token := true)
    case Poll(i) => if Is(d, i, Away) then d.(channel := true, polls := d.polls[i := Checking]) else d
    case Lease(i) =>
      if !Is(d, i, Checking) then d
      else d.(pending := d.pending - Taken(d), polls := d.polls[i := if d.pending == 0 then Empty else Away])
    case LeaseFails(i, taken) =>
      if !Is(d, i, Checking) || taken > Taken(d) then d
      else d.(pending := d.pending - taken, polls := d.polls[i := Away])
    case Park(i) => if Is(d, i, Empty) then d.(polls := d.polls[i := Parked]) else d
    case Wake(i) => if Is(d, i, Parked) && d.token then d.(token := false, polls := d.polls[i := Checking]) else d
    case Leave(i) => if Is(d, i, Empty) || Is(d, i, Parked) then d.(polls := d.polls[i := Away]) else d
    case Lapse(n) => if n <= d.pending then d.(pending := d.pending - n) else d
  }

  function Run(d: Desk, steps: seq<Step>): Desk
    decreases |steps|
  {
    if steps == [] then d else Run(Next(d, steps[0]), steps[1..])
  }

  function Opened(polls: seq<Phase>): Desk
    requires forall i | 0 <= i < |polls| :: polls[i] == Away
  {
    Desk(0, false, false, 0, 0, polls)
  }

  predicate Waiting(phase: Phase) {
    phase.Empty? || phase.Parked?
  }

  ghost predicate SomeWaiting(d: Desk) {
    exists i | 0 <= i < |d.polls| :: Waiting(d.polls[i])
  }

  ghost predicate SomeChecking(d: Desk) {
    exists i | 0 <= i < |d.polls| :: d.polls[i] == Checking
  }

  /** Every waiting poll with something to collect has a wakeup on its way. */
  ghost predicate Covered(d: Desk) {
    SomeWaiting(d) && d.pending > 0 ==> d.token || d.inserted > 0 || d.holding > 0 || SomeChecking(d)
  }

  ghost predicate Connected(d: Desk) {
    (exists i | 0 <= i < |d.polls| :: d.polls[i] != Away) ==> d.channel
  }

  ghost predicate Sound(d: Desk) {
    Covered(d) && Connected(d)
  }

  /** A lease that leaves commands behind while another poll waits, and nothing else is on its
      way to wake it. */
  ghost predicate Strands(d: Desk, s: Step) {
    && (s.Lease? || (s.LeaseFails? && s.taken <= Taken(d)))
    && Is(d, s.i, Checking)
    && d.pending > (if s.Lease? then Taken(d) else s.taken)
    && !d.token && d.inserted == 0 && d.holding == 0
    && (exists j | 0 <= j < |d.polls| :: Waiting(d.polls[j]))
    && (forall j | 0 <= j < |d.polls| && j != s.i :: d.polls[j] != Checking)
  }

  lemma {:induction false} Moved(d: Desk, i: nat, phase: Phase, e: Desk)
    requires i < |d.polls| && e.polls == d.polls[i := phase]
    ensures SomeWaiting(d) && !Waiting(d.polls[i]) ==> SomeWaiting(e)
    ensures SomeWaiting(e) && !Waiting(phase) ==> SomeWaiting(d)
    ensures Waiting(phase) ==> SomeWaiting(e)
    ensures SomeChecking(d) && d.polls[i] != Checking ==> SomeChecking(e)
    ensures phase == Checking ==> SomeChecking(e)
    ensures SomeChecking(e) <==> phase == Checking || exists j | 0 <= j < |d.polls| && j != i :: d.polls[j] == Checking
  {
    hide Waiting;
    assert e.polls[i] == phase;
    assert forall j | 0 <= j < |d.polls| && j != i :: e.polls[j] == d.polls[j];
  }

  lemma {:induction false} StaysConnected(d: Desk, s: Step)
    requires Connected(d)
    ensures Connected(Next(d, s))
  {
    hide Taken;
    if i :| 0 <= i < |d.polls| && d.polls[i] != Away {
      assert d.channel;
    }
  }

  /** One step loses a wakeup exactly when it strands a waiting poll. */
  lemma {:induction false} NextCovered(d: Desk, s: Step)
    requires Sound(d)
    ensures Covered(Next(d, s)) <==> !Strands(d, s)
  {
    hide Waiting, Connected;
    if (s.Poll? && Is(d, s.i, Away)) || (s.Wake? && Is(d, s.i, Parked)) {
      Moved(d, s.i, Checking, d.(polls := d.polls[s.i := Checking]));
    } else if (s.Lease? || s.LeaseFails?) && Is(d, s.i, Checking) {
      LeaseCovered(d, s);
    } else if s.Park? && Is(d, s.i, Empty) {
      Moved(d, s.i, Parked, Next(d, s));
      assert Waiting(Empty) by { WaitingPhases(); }
      assert Waiting(d.polls[s.i]);
      Moved(Next(d, s), s.i, Empty, d);
    } else if s.Leave? && (Is(d, s.i, Empty) || Is(d, s.i, Parked)) {
      Moved(d, s.i, Away, Next(d, s));
      WaitingPhases();
    } else if s.LookUp? {
      LookUpCovered(d);
    }
  }

  lemma {:induction false} WaitingPhases()
    ensures Waiting(Empty) && Waiting(Parked) && !Waiting(Away) && !Waiting(Checking)
  {
  }

  lemma {:induction false} LookUpCovered(d: Desk)
    requires Sound(d)
    ensures Covered(Next(d, LookUp))
  {
    if SomeWaiting(d) {
      var i :| 0 <= i < |d.polls| && Waiting(d.polls[i]);
      assert d.channel;
    }
  }

  lemma {:induction false} LeaseCovered(d: Desk, s: Step)
    requires Sound(d) && (s.Lease? || s.LeaseFails?) && Is(d, s.i, Checking)
    ensures Covered(Next(d, s)) <==> !Strands(d, s)
  {
    hide Waiting, Connected;
    WaitingPhases();
    var e := Next(d, s);
    if e != d {
      Moved(d, s.i, e.polls[s.i], e);
    }
  }

  /** With any number of polls, no wakeup is lost over a run in which no lease strands one. */
  ghost predicate NeverStrands(d: Desk, steps: seq<Step>)
    decreases |steps|
  {
    steps == [] || (!Strands(d, steps[0]) && NeverStrands(Next(d, steps[0]), steps[1..]))
  }

  lemma {:induction false} RunCovered(d: Desk, steps: seq<Step>)
    requires Sound(d) && NeverStrands(d, steps)
    ensures Sound(Run(d, steps))
    decreases |steps|
  {
    hide Next, Strands, Covered, Connected;
    if steps != [] {
      NextCovered(d, steps[0]);
      StaysConnected(d, steps[0]);
      RunCovered(Next(d, steps[0]), steps[1..]);
    }
  }

  lemma {:induction false} OnePollNeverStrands(d: Desk, s: Step)
    requires |d.polls| == 1
    ensures !Strands(d, s) && |Next(d, s).polls| == 1
  {
  }

  lemma {:induction false} OnePollRun(d: Desk, steps: seq<Step>)
    requires |d.polls| == 1
    ensures NeverStrands(d, steps) && |Run(d, steps).polls| == 1
    decreases |steps|
  {
    hide Next, Strands;
    if steps != [] {
      OnePollNeverStrands(d, steps[0]);
      OnePollRun(Next(d, steps[0]), steps[1..]);
    }
  }

  /** One poll at a time, as a node makes them: whenever it is parked and a command is pending,
      the channel holds a token or an enqueuer has stored its command and not sent yet. */
  lemma {:induction false} NoLostWakeup(steps: seq<Step>)
    ensures var d := Run(Opened([Away]), steps);
            && |d.polls| == 1
            && (d.polls[0].Parked? && d.pending > 0 ==> d.token || d.inserted > 0 || d.holding > 0)
  {
    hide Run;
    OnePollRun(Opened([Away]), steps);
    RunCovered(Opened([Away]), steps);
  }

  function Repeat(s: seq<Step>, n: nat): seq<Step> {
    if n == 0 then [] else s + Repeat(s, n - 1)
  }

  lemma {:induction false} RunThen(d: Desk, first: Step, rest: seq<Step>)
    ensures Run(d, [first] + rest) == Run(Next(d, first), rest)
  {
    assert ([first] + rest)[1..] == rest;
  }

  lemma {:induction false} EnqueueMany(d: Desk, n: nat, rest: seq<Step>)
    requires d.channel
    ensures Run(d, Repeat([Insert, LookUp, Send], n) + rest)
            == Run(d.(pending := d.pending + n, token := d.token || n > 0), rest)
    decreases n
  {
    if n == 0 {
      assert Repeat([Insert, LookUp, Send], 0) + rest == rest;
    } else {
      var more := Repeat([Insert, LookUp, Send], n - 1) + rest;
      assert Repeat([Insert, LookUp, Send], n) + rest == [Insert] + ([LookUp] + ([Send] + more));
      hide Run;
      var a := Next(d, Insert);
      var b := Next(a, LookUp);
      RunThen(d, Insert, [LookUp] + ([Send] + more));
      RunThen(a, LookUp, [Send] + more);
      RunThen(b, Send, more);
      var c := Next(b, Send);
      assert c == d.(pending := d.pending + 1, token := true);
      EnqueueMany(c, n - 1, rest);
    }
  }

  /** Two polls do lose one: both park, more than one batch is enqueued behind a single token,
      the poll that takes it leaves with a full batch, and the other stays parked. */
  lemma {:induction false} TwoPollsLoseOne(n: nat)
    requires n > BATCH
    ensures var steps := [Poll(0), Lease(0), Park(0), Poll(1), Lease(1), Park(1)] + (Repeat([Insert, LookUp, Send], n) + [Wake(0), Lease(0)]);
            var d := Run(Opened([Away, Away]), steps);
            d.polls == [Away, Parked] && d.pending == n - BATCH && !d.token && d.inserted == 0 && d.holding == 0
  {
    var tail := [Wake(0), Lease(0)];
    var mid := Repeat([Insert, LookUp, Send], n) + tail;
    var d0 := Opened([Away, Away]);
    var parked := Desk(0, true, false, 0, 0, [Parked, Parked]);
    ParkBoth(mid);
    EnqueueMany(parked, n, tail);
    var full := parked.(pending := n, token := true);
    RunThen(full, Wake(0), [Lease(0)]);
    RunThen(Next(full, Wake(0)), Lease(0), []);
  }

  lemma {:induction false} ParkBoth(rest: seq<Step>)
    ensures Run(Opened([Away, Away]), [Poll(0), Lease(0), Park(0), Poll(1), Lease(1), Park(1)] + rest)
            == Run(Desk(0, true, false, 0, 0, [Parked, Parked]), rest)
  {
    var d := Opened([Away, Away]);
    assert [Poll(0), Lease(0), Park(0), Poll(1), Lease(1), Park(1)] + rest
        == [Poll(0)] + ([Lease(0)] + ([Park(0)] + ([Poll(1)] + ([Lease(1)] + ([Park(1)] + rest)))));
    hide Run;
    RunThen(d, Poll(0), [Lease(0)] + ([Park(0)] + ([Poll(1)] + ([Lease(1)] + ([Park(1)] + rest)))));
    var a := Next(d, Poll(0));
    RunThen(a, Lease(0), [Park(0)] + ([Poll(1)] + ([Lease(1)] + ([Park(1)] + rest))));
    var b := Next(a, Lease(0));
    RunThen(b, Park(0), [Poll(1)] + ([Lease(1)] + ([Park(1)] + rest)));
    var c := Next(b, Park(0));
    RunThen(c, Poll(1), [Lease(1)] + ([Park(1)] + rest));
    var e := Next(c, Poll(1));
    RunThen(e, Lease(1), [Park(1)] + rest);
    var f := Next(e, Lease(1));
    RunThen(f, Park(1), rest);
    assert Next(f, Park(1)).polls == [Parked, Parked];
  }
}
