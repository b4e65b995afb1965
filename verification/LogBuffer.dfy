/** The Agent's log: a fixed ring of recent lines that refines an unbounded log, with live
    subscribers that may fall behind. */
module LogBuffer {
  const DEFAULT_SIZE := 1000
  const QUEUE := 64

  datatype Line = Line(seqNo: nat, ts: int, level: string, message: string)

  /** A subscriber's channel; `since`, `received` and `overflowed` record its history. */
  datatype Channel = Channel(queue: seq<Line>, closed: bool, since: nat, received: seq<Line>, overflowed: bool)

  function Offer(c: Channel, line: Line): Channel {
    if |c.queue| < QUEUE then c.(queue := c.queue + [line]) else c.(overflowed := true)
  }

  // ----- Ring arithmetic -----

  lemma {:induction false} ModShift(a: nat, b: nat, n: nat)
    requires n > 0
    ensures (a % n + b) % n == (a + b) % n
  {
    ModMultiple(a % n + b, a / n, n);
    assert a + b == (a % n + b) + (a / n) * n;
  }

  lemma {:induction false} ModMultiple(a: nat, k: nat, n: nat)
    requires n > 0
    ensures (a + k * n) % n == a % n
    decreases k
  {
    if k > 0 {
      ModMultiple(a, k - 1, n);
      assert a + k * n == (a + (k - 1) * n) + n;
      ModPlusN(a + (k - 1) * n, n);
    }
  }

  lemma {:induction false} MulAtLeast(k: nat, n: nat)
    requires k > 0
    ensures k * n >= n
  {
    assert k * n == (k - 1) * n + n;
  }

  lemma {:induction false} ModUnique(x: nat, n: nat, q: nat, r: nat)
    requires n > 0 && r < n && x == q * n + r
    ensures x % n == r
  {
    var p, s := x / n, x % n;
    assert x == p * n + s;
    if q > p {
      MulAtLeast(q - p, n);
    } else if p > q {
      MulAtLeast(p - q, n);
    }
  }

  lemma {:induction false} ModPlusN(a: nat, n: nat)
    requires n > 0
    ensures (a + n) % n == a % n
  {
    assert (a / n + 1) * n == (a / n) * n + n;
    ModUnique(a + n, n, a / n + 1, a % n);
  }

  lemma {:induction false} ModDistinct(a: nat, b: nat, n: nat)
    requires n > 0 && a < b < a + n
    ensures a % n != b % n
  {
    ModShift(a, b - a, n);
    var r := a % n;
    if r + (b - a) < n {
      ModUnique(r + (b - a), n, 0, r + (b - a));
    } else {
      ModUnique(r + (b - a), n, 1, r + (b - a) - n);
    }
  }

  /** Going back k places from the next slot. */
  lemma {:induction false} ModBack(total: nat, k: nat, n: nat)
    requires n > 0 && k <= n && k <= total
    ensures (total % n - k + n) % n == (total - k) % n
  {
    ModShift(total - k, k, n);
    var r := (total - k) % n;
    if r + k < n {
      ModUnique(r + k, n, 0, r + k);
      ModPlusN(r, n);
      ModUnique(r, n, 0, r);
    } else if r + k < 2 * n {
      ModUnique(r + k, n, 1, r + k - n);
      ModUnique(r, n, 0, r);
    }
  }

  class LogBuf {
    const size: nat
    const buf: array<Line>
    var next: nat
    var count: nat
    var seqNo: nat
    var channels: map<nat, Channel>
    var subs: set<nat>
    var subNext: nat
    ghost var log: seq<Line>

    /** The ring holds the end of the log; lines are numbered from one. */
    ghost predicate Stored()
      reads this, buf
    {
      && size > 0 && buf.Length == size
      && seqNo == |log|
      && count == (if |log| < size then |log| else size)
      && next == |log| % size
      && (forall j | 0 <= j < |log| :: log[j].seqNo == j + 1)
      && (forall j | |log| - count <= j < |log| :: buf[j % size] == log[j])
    }

    /** Only open channels are subscribed, and each has seen lines of the log appended since, in
        order, all of them unless it overflowed. */
    ghost predicate Subscribed()
      reads this
    {
      && (forall id | id in subs :: id in channels && !channels[id].closed && Fed(channels[id], log))
      && (forall id | id in channels :: id < subNext)
    }

    ghost predicate Valid()
      reads this, buf
    {
      Stored() && Subscribed()
    }

    constructor (wanted: int)
      ensures Valid() && fresh(buf) && log == [] && subs == {} && channels == map[]
      ensures size == if wanted <= 0 then DEFAULT_SIZE else wanted
    {
      var n: nat := if wanted <= 0 then DEFAULT_SIZE else wanted;
      size := n;
      buf := new Line[n](_ => Line(0, 0, "", ""));
      next, count, seqNo, channels, subs, subNext, log := 0, 0, 0, map[], {}, 0, [];
    }

    method Append(ts: int, level: string, message: string)
      requires Valid()
      modifies this, buf
      ensures Valid()
      ensures log == old(log) + [Line(|old(log)| + 1, ts, level, message)]
      ensures subs == old(subs) && channels.Keys == old(channels).Keys && subNext == old(subNext)
      ensures forall id | id in channels ::
                channels[id] == if id in subs then Offer(old(channels)[id], log[|old(log)|]) else old(channels)[id]
    {
      var line := Store(ts, level, message);
      forall id | id in subs ensures Fed(Offer(channels[id], line), log) {
        OfferFed(channels[id], old(log), line);
      }
      hide Fed, Offer;
      Publish(line);
    }

    method Store(ts: int, level: string, message: string) returns (line: Line)
      requires Stored()
      modifies this`next, this`count, this`seqNo, this`log, buf
      ensures Stored()
      ensures line == Line(|old(log)| + 1, ts, level, message) && log == old(log) + [line]
    {
      seqNo := seqNo + 1;
      line := Line(seqNo, ts, level, message);
      forall j | |log| - count <= j < |log| && |log| < j + size ensures j % size != next {
        ModDistinct(j, |log|, size);
      }
      buf[next] := line;
      ModShift(|log|, 1, size);
      next := (next + 1) % size;
      if count < size {
        count := count + 1;
      }
      log := log + [line];
    }

    /** Offers the line to every subscriber; none of their channels is closed. */
    method Publish(line: Line)
      requires forall id | id in subs :: id in channels && !channels[id].closed
      modifies this`channels
      ensures channels.Keys == old(channels).Keys
      ensures forall id | id in channels ::
                channels[id] == if id in subs then Offer(old(channels)[id], line) else old(channels)[id]
    {
      var left := subs;
      while left != {}
        invariant left <= subs
        invariant channels.Keys == old(channels).Keys
        invariant forall id | id in channels ::
                    channels[id] == if id in subs && id !in left then Offer(old(channels)[id], line) else old(channels)[id]
        decreases |left|
      {
        var id :| id in left;
        assert !channels[id].closed;
        channels := channels[id := Offer(channels[id], line)];
        left := left - {id};
      }
    }

    /** The most recent lines, oldest first: all stored ones when n is not positive. */
    method Tail(n: int) returns (out: seq<Line>)
      requires Valid()
      ensures out == log[|log| - Window(n, |log|, size)..]
    {
      if count == 0 {
        return [];
      }
      var k := if n <= 0 || n > count then count else n;
      ModBack(|log|, k, size);
      out := Copy((next - k + size) % size, k);
    }

    method Copy(start: nat, k: nat) returns (out: seq<Line>)
      requires Stored() && k <= count && start == (|log| - k) % size
      ensures out == log[|log| - k..]
    {
      out := [];
      while |out| < k
        invariant |out| <= k
        invariant forall i | 0 <= i < |out| :: out[i] == log[|log| - k + i]
      {
        RingAt(|log| - k, |out|, start);
        hide Stored;
        out := out + [buf[(start + |out|) % size]];
      }
    }

    lemma {:induction false} RingAt(first: nat, i: nat, start: nat)
      requires Stored() && |log| - count <= first && first + i < |log| && start == first % size
      ensures (start + i) % size < size && buf[(start + i) % size] == log[first + i]
    {
      ModShift(first, i, size);
    }

    method Subscribe() returns (id: nat)
      requires Valid()
      modifies this`channels, this`subs, this`subNext
      ensures Valid() && id !in old(channels)
      ensures channels == old(channels)[id := Channel([], false, |log|, [], false)] && subs == old(subs) + {id}
    {
      id := subNext;
      subNext := subNext + 1;
      channels := channels[id := Channel([], false, seqNo, [], false)];
      subs := subs + {id};
    }

    /** Cancelling takes the channel off the list first, under the lock, and closes it after. */
    method Unsubscribe(id: nat)
      requires Valid()
      modifies this`subs
      ensures Valid() && subs == old(subs) - {id}
    {
      subs := subs - {id};
    }

    method Close(id: nat)
      requires Valid() && id in channels && id !in subs
      modifies this`channels
      ensures Valid() && channels == old(channels)[id := old(channels)[id].(closed := true)]
    {
      channels := channels[id := channels[id].(closed := true)];
    }

    method Receive(id: nat) returns (line: Line)
      requires Valid() && id in channels && channels[id].queue != []
      modifies this`channels
      ensures Valid() && line == old(channels)[id].queue[0]
      ensures channels == old(channels)[id := Taken(old(channels)[id])]
    {
      line := channels[id].queue[0];
      TakenFed(channels[id], log);
      channels := channels[id := Taken(channels[id])];
    }
  }

  function Taken(c: Channel): Channel
    requires c.queue != []
  {
    c.(queue := c.queue[1..], received := c.received + [c.queue[0]])
  }

  /** How many lines a tail returns: what is asked for, bounded by what is stored. */
  function Window(n: int, total: nat, size: nat): (w: nat)
    ensures w <= total && w <= size
  {
    var stored := if total < size then total else size;
    if n <= 0 || n > stored then stored else n
  }

  ghost predicate Increasing(s: seq<Line>) {
    forall i, j | 0 <= i < j < |s| :: s[i].seqNo < s[j].seqNo
  }

  /** Lines of the log after a point, each with its own number. */
  ghost predicate LinesOf(s: seq<Line>, log: seq<Line>, since: nat) {
    forall i | 0 <= i < |s| :: since < s[i].seqNo <= |log| && s[i] == log[s[i].seqNo - 1]
  }

  ghost predicate Fed(c: Channel, log: seq<Line>) {
    var seen := c.received + c.queue;
    c.since <= |log| && Increasing(seen) && LinesOf(seen, log, c.since) && (!c.overflowed ==> seen == log[c.since..])
  }

  lemma {:induction false} LinesOfMore(s: seq<Line>, log: seq<Line>, since: nat, line: Line)
    requires LinesOf(s, log, since) && line.seqNo == |log| + 1 && since <= |log|
    ensures LinesOf(s, log + [line], since) && LinesOf(s + [line], log + [line], since)
  {
  }

  lemma {:induction false} IncreasingMore(s: seq<Line>, log: seq<Line>, since: nat, line: Line)
    requires Increasing(s) && LinesOf(s, log, since) && line.seqNo == |log| + 1
    ensures Increasing(s + [line])
  {
    hide LinesOf;
    assert forall i | 0 <= i < |s| :: s[i].seqNo <= |log| by { NumbersBelow(s, log, since); }
  }

  lemma {:induction false} NumbersBelow(s: seq<Line>, log: seq<Line>, since: nat)
    requires LinesOf(s, log, since)
    ensures forall i | 0 <= i < |s| :: s[i].seqNo <= |log|
  {
  }

  lemma {:induction false} TailMore(log: seq<Line>, line: Line, since: nat)
    requires since <= |log|
    ensures (log + [line])[since..] == log[since..] + [line]
  {
  }

  lemma {:induction false} OfferFed(c: Channel, log: seq<Line>, line: Line)
    requires Fed(c, log) && line.seqNo == |log| + 1
    ensures Fed(Offer(c, line), log + [line])
  {
    var seen, more := c.received + c.queue, log + [line];
    LinesOfMore(seen, log, c.since, line);
    IncreasingMore(seen, log, c.since, line);
    hide LinesOf, Increasing;
    if |c.queue| < QUEUE {
      assert c.received + (c.queue + [line]) == seen + [line];
      if !c.overflowed {
        TailMore(log, line, c.since);
      }
    }
  }

  lemma {:induction false} TakenFed(c: Channel, log: seq<Line>)
    requires c.queue != []
    ensures Fed(c, log) ==> Fed(Taken(c), log)
  {
    assert Taken(c).received + Taken(c).queue == c.received + c.queue;
  }
}
