/** Streaming logs: a tail of the stored lines, then live ones, joined by sequence number. */
module LogStream {
  import opened LogBuffer

  /** The lines a level filter keeps. */
  function Kept(s: seq<Line>, keep: Line -> bool): (r: seq<Line>)
    ensures forall x :: x in r <==> x in s && keep(x)
  {
    if s == [] then [] else Kept(s[..|s| - 1], keep) + if keep(s[|s| - 1]) then [s[|s| - 1]] else []
  }

  /** The number remembered after a tail: the largest among the lines sent. */
  function LastKept(s: seq<Line>, keep: Line -> bool): (last: nat)
    ensures forall x | x in s && keep(x) :: x.seqNo <= last
    ensures last == 0 || exists x :: x in s && keep(x) && x.seqNo == last
  {
    if s == [] then 0
    else
      var before := LastKept(s[..|s| - 1], keep);
      var x := s[|s| - 1];
      assert forall y | y in s :: y == x || y in s[..|s| - 1];
      if keep(x) && x.seqNo > before then x.seqNo else before
  }

  function Streamed(tail: seq<Line>, live: seq<Line>, keep: Line -> bool): seq<Line> {
    Kept(tail, keep) + Kept(live, Newer(LastKept(tail, keep), keep))
  }

  function Newer(last: nat, keep: Line -> bool): Line -> bool {
    (x: Line) => x.seqNo > last && keep(x)
  }

  /** What the handler sends for a tail and the lines it then receives. */
  method StreamLogs(tail: seq<Line>, live: seq<Line>, keep: Line -> bool) returns (sent: seq<Line>)
    ensures sent == Streamed(tail, live, keep)
  {
    hide Kept, LastKept;
    var last;
    sent, last := SendTail(tail, keep);
    var fresher := SendLive(live, last, keep);
    sent := sent + fresher;
  }

  method SendTail(tail: seq<Line>, keep: Line -> bool) returns (sent: seq<Line>, last: nat)
    ensures sent == Kept(tail, keep) && last == LastKept(tail, keep)
  {
    sent, last := [], 0;
    assert Kept(tail[..0], keep) == [] && LastKept(tail[..0], keep) == 0;
    for i := 0 to |tail|
      invariant sent == Kept(tail[..i], keep) && last == LastKept(tail[..i], keep)
    {
      KeptStep(tail, i, keep);
      hide Kept, LastKept;
      if !keep(tail[i]) {
        continue;
      }
      sent := sent + [tail[i]];
      if tail[i].seqNo > last {
        last := tail[i].seqNo;
      }
    }
    assert tail[..|tail|] == tail;
  }

  method SendLive(live: seq<Line>, last: nat, keep: Line -> bool) returns (sent: seq<Line>)
    ensures sent == Kept(live, Newer(last, keep))
  {
    sent := [];
    for i := 0 to |live|
      invariant sent == Kept(live[..i], Newer(last, keep))
    {
      KeptStep(live, i, Newer(last, keep));
      hide Kept;
      if live[i].seqNo <= last {
        continue;
      }
      if !keep(live[i]) {
        continue;
      }
      sent := sent + [live[i]];
    }
    assert live[..|live|] == live;
  }

  lemma {:induction false} KeptStep(s: seq<Line>, i: nat, keep: Line -> bool)
    requires i < |s|
    ensures Kept(s[..i + 1], keep) == if keep(s[i]) then Kept(s[..i], keep) + [s[i]] else Kept(s[..i], keep)
    ensures LastKept(s[..i + 1], keep)
            == if keep(s[i]) && s[i].seqNo > LastKept(s[..i], keep) then s[i].seqNo else LastKept(s[..i], keep)
  {
    assert s[..i + 1][..i] == s[..i];
  }

  lemma {:induction false} KeptIncreasing(s: seq<Line>, keep: Line -> bool)
    requires Increasing(s)
    ensures Increasing(Kept(s, keep))
    decreases |s|
  {
    if s != [] {
      var front, x := s[..|s| - 1], s[|s| - 1];
      KeptIncreasing(front, keep);
      forall i | 0 <= i < |Kept(front, keep)| ensures Kept(front, keep)[i].seqNo < x.seqNo {
        assert Kept(front, keep)[i] in front;
      }
    }
  }

  /** Nothing is sent twice or out of order, whatever overlap tail and live lines have, and
      whatever a full channel dropped. */
  lemma {:induction false} StreamIncreasing(tail: seq<Line>, live: seq<Line>, keep: Line -> bool)
    requires Increasing(tail) && Increasing(live)
    ensures Increasing(Streamed(tail, live, keep))
  {
    var newer := Newer(LastKept(tail, keep), keep);
    KeptIncreasing(tail, keep);
    KeptIncreasing(live, newer);
    var a, b := Kept(tail, keep), Kept(live, newer);
    forall i, j | 0 <= i < |a| && 0 <= j < |b| ensures a[i].seqNo < b[j].seqNo {
      assert a[i] in a && b[j] in b;
    }
    assert Increasing(a + b);
  }

  /** What is sent is what the level admits: of the tail all of it, and of the live lines those later
      than every line sent of the tail. */
  lemma {:induction false} SentIff(tail: seq<Line>, live: seq<Line>, keep: Line -> bool, x: Line)
    requires x.seqNo > 0
    ensures x in Streamed(tail, live, keep) <==>
              keep(x) && (x in tail || (x in live && forall y | y in tail && keep(y) :: y.seqNo < x.seqNo))
  {
    var last := LastKept(tail, keep);
    assert x in Kept(live, Newer(last, keep)) <==> x in live && keep(x) && x.seqNo > last;
    hide Kept, LastKept;
    if last > 0 {
      var y :| y in tail && keep(y) && y.seqNo == last;
    }
  }

  /** A session: lines are numbered from one, the subscription was made when `since` lines had
      been appended, the tail of `window` lines taken when there were `tailed`. */
  ghost predicate Session(log: seq<Line>, since: nat, tailed: nat, window: nat) {
    && since <= tailed <= |log| && window <= tailed
    && forall j | 0 <= j < |log| :: log[j].seqNo == j + 1
  }

  /** Every matching line appended from the tail window on is sent. */
  lemma {:induction false} LaterLinesSent(log: seq<Line>, since: nat, tailed: nat, window: nat, keep: Line -> bool, j: nat)
    requires Session(log, since, tailed, window) && tailed - window <= j < |log| && keep(log[j])
    ensures log[j] in Streamed(log[tailed - window..tailed], log[since..], keep)
  {
    var tail := log[tailed - window..tailed];
    if j < tailed {
      assert tail[j - (tailed - window)] == log[j];
    } else {
      assert log[since..][j - since] == log[j];
      var last := LastKept(tail, keep);
      assert last <= tailed;
    }
  }

  /** The lines appended between the subscription and the tail, but not returned by it. */
  ghost predicate GapMatches(log: seq<Line>, since: nat, tailed: nat, window: nat, keep: Line -> bool)
    requires Session(log, since, tailed, window)
  {
    exists j | since <= j < tailed - window :: keep(log[j])
  }

  ghost predicate TailMatches(log: seq<Line>, since: nat, tailed: nat, window: nat, keep: Line -> bool)
    requires Session(log, since, tailed, window)
  {
    exists k | tailed - window <= k < tailed :: keep(log[k])
  }

  ghost predicate NothingMissed(log: seq<Line>, since: nat, tailed: nat, window: nat, keep: Line -> bool)
    requires Session(log, since, tailed, window)
  {
    forall j | since <= j < |log| && keep(log[j]) :: log[j] in Streamed(log[tailed - window..tailed], log[since..], keep)
  }

  lemma {:induction false} GapLost(log: seq<Line>, since: nat, tailed: nat, window: nat, keep: Line -> bool, j: nat, k: nat)
    requires Session(log, since, tailed, window)
    requires since <= j < tailed - window && keep(log[j]) && tailed - window <= k < tailed && keep(log[k])
    ensures log[j] !in Streamed(log[tailed - window..tailed], log[since..], keep)
  {
    var tail := log[tailed - window..tailed];
    assert tail[k - (tailed - window)] == log[k];
    assert LastKept(tail, keep) >= k + 1;
    assert forall i | 0 <= i < |tail| :: tail[i].seqNo > j + 1;
  }

  lemma {:induction false} GapSent(log: seq<Line>, since: nat, tailed: nat, window: nat, keep: Line -> bool, j: nat)
    requires Session(log, since, tailed, window) && !TailMatches(log, since, tailed, window, keep)
    requires since <= j < |log| && keep(log[j])
    ensures log[j] in Streamed(log[tailed - window..tailed], log[since..], keep)
  {
    NoneInWindow(log, tailed, window, keep);
    assert log[since..][j - since] == log[j];
  }

  /** With a channel that never overflowed, every matching line appended since the subscription is
      sent exactly when it did not happen that more lines were appended before the tail was taken
      than it returns, one left out and one returned both matching. */
  lemma {:induction false} NothingMissedIff(log: seq<Line>, since: nat, tailed: nat, window: nat, keep: Line -> bool)
    requires Session(log, since, tailed, window)
    ensures NothingMissed(log, since, tailed, window, keep)
            <==> !(GapMatches(log, since, tailed, window, keep) && TailMatches(log, since, tailed, window, keep))
  {
    hide Streamed;
    if GapMatches(log, since, tailed, window, keep) && TailMatches(log, since, tailed, window, keep) {
      var j :| since <= j < tailed - window && keep(log[j]);
      var k :| tailed - window <= k < tailed && keep(log[k]);
      GapLost(log, since, tailed, window, keep, j, k);
    } else {
      forall j | since <= j < |log| && keep(log[j]) ensures log[j] in Streamed(log[tailed - window..tailed], log[since..], keep) {
        if j >= tailed - window {
          LaterLinesSent(log, since, tailed, window, keep, j);
        } else {
          GapSent(log, since, tailed, window, keep, j);
        }
      }
    }
  }

  lemma {:induction false} NoneInWindow(log: seq<Line>, tailed: nat, window: nat, keep: Line -> bool)
    requires window <= tailed <= |log|
    requires forall k | tailed - window <= k < tailed :: !keep(log[k])
    ensures LastKept(log[tailed - window..tailed], keep) == 0
  {
    var tail := log[tailed - window..tailed];
    forall x | x in tail ensures !keep(x) {
      var i :| 0 <= i < |tail| && tail[i] == x;
      assert tail[i] == log[tailed - window + i];
    }
  }

  /** A caller can rule it out: no more lines appended in between than it asks for and the ring
      holds. */
  lemma {:induction false} SmallGapMissesNothing(log: seq<Line>, since: nat, tailed: nat, n: int, size: nat, keep: Line -> bool)
    requires Session(log, since, tailed, Window(n, tailed, size)) && tailed - since <= size && (n <= 0 || tailed - since <= n)
    ensures forall j | since <= j < |log| && keep(log[j]) ::
              log[j] in Streamed(log[tailed - Window(n, tailed, size)..tailed], log[since..], keep)
  {
    NothingMissedIff(log, since, tailed, Window(n, tailed, size), keep);
  }

  /** Asking for one line while two that match arrive loses the first. */
  lemma {:induction false} GapExample(a: Line, b: Line)
    requires a.seqNo == 1 && b.seqNo == 2
    ensures forall keep: Line -> bool | keep(a) && keep(b) :: Streamed([a, b][1..2], [a, b][0..], keep) == [b]
  {
    forall keep: Line -> bool | keep(a) && keep(b) ensures Streamed([a, b][1..2], [a, b][0..], keep) == [b] {
      GapFor(a, b, keep);
    }
  }

  lemma {:induction false} GapFor(a: Line, b: Line, keep: Line -> bool)
    requires a.seqNo == 1 && b.seqNo == 2 && keep(a) && keep(b)
    ensures Streamed([a, b][1..2], [a, b][0..], keep) == [b]
  {
    assert [a, b][1..2] == [b] && [a, b][0..] == [a, b];
    assert [b][..0] == [] && Kept([b], keep) == [b] && LastKept([b], keep) == 2;
    var newer := Newer(2, keep);
    assert [a, b][..1] == [a] && [a][..0] == [];
    assert Kept([a], newer) == [];
    assert Kept([a, b], newer) == [];
  }
}
