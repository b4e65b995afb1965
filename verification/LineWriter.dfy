/** Splitting written bytes into lines: complete lines go to the log without their line end, an
    incomplete one waits. */
module LineWriter {
  newtype Byte = b: int | 0 <= b < 256

  const NEWLINE: Byte := 10
  const RETURN: Byte := 13

  function IndexOf(s: seq<Byte>): (i: nat)
    ensures i <= |s|
  {
    if s == [] then 0 else if s[0] == NEWLINE then 0 else 1 + IndexOf(s[1..])
  }

  lemma {:induction false} IndexOfSpec(s: seq<Byte>)
    ensures forall k | 0 <= k < IndexOf(s) :: s[k] != NEWLINE
    ensures IndexOf(s) < |s| ==> s[IndexOf(s)] == NEWLINE
    decreases |s|
  {
    if s != [] && s[0] != NEWLINE {
      IndexOfSpec(s[1..]);
    }
  }

  /** A line as logged: one carriage return removed, nothing at all if empty. */
  function Emitted(line: seq<Byte>): seq<seq<Byte>> {
    var trimmed := if |line| > 0 && line[|line| - 1] == RETURN then line[..|line| - 1] else line;
    if |trimmed| > 0 then [trimmed] else []
  }

  /** The lines of a stream, and what follows its last newline. */
  function Lines(s: seq<Byte>): seq<seq<Byte>>
    decreases |s|
  {
    var i := IndexOf(s);
    if i == |s| then [] else Emitted(s[..i]) + Lines(s[i + 1..])
  }

  function Rest(s: seq<Byte>): seq<Byte>
    decreases |s|
  {
    var i := IndexOf(s);
    if i == |s| then s else Rest(s[i + 1..])
  }

  class Writer {
    var pend: seq<Byte>
    var logged: seq<seq<Byte>>

    constructor ()
      ensures pend == [] && logged == []
    {
      pend, logged := [], [];
    }

    method Write(p: seq<Byte>) returns (n: nat)
      modifies this
      ensures n == |p|
      ensures logged == old(logged) + Lines(old(pend) + p)
      ensures pend == Rest(old(pend) + p)
      ensures CutClean(Lines(old(pend) + p), pend)
    {
      Cut(pend + p);
      pend := pend + p;
      ghost var all, done := pend, [];
      n := |p|;
      hide Lines, Rest, Emitted, IndexOf, CutClean;
      assert done + Lines(pend) == Lines(pend);
      while true
        invariant logged == old(logged) + done
        invariant Lines(all) == done + Lines(pend)
        invariant Rest(all) == Rest(pend)
        decreases |pend|
      {
        var i := IndexOf(pend);
        if i == |pend| {
          LastStep(all, done, pend);
          return;
        }
        WriteStep(all, done, pend);
        var trimmed := Trim(pend[..i]);
        assert (old(logged) + done) + trimmed == old(logged) + (done + trimmed);
        done, logged := done + trimmed, logged + trimmed;
        pend := pend[i + 1..];
      }
    }

    /** What the loop logs of one line. */
    method Trim(line: seq<Byte>) returns (lines: seq<seq<Byte>>)
      ensures lines == Emitted(line)
    {
      var kept := line;
      if |kept| > 0 && kept[|kept| - 1] == RETURN {
        kept := kept[..|kept| - 1];
      }
      lines := [];
      if |kept| > 0 {
        lines := [kept];
      }
    }
  }

  lemma {:induction false} LineStep(s: seq<Byte>)
    ensures var i := IndexOf(s);
            if i == |s| then Lines(s) == [] && Rest(s) == s
            else Lines(s) == Emitted(s[..i]) + Lines(s[i + 1..]) && Rest(s) == Rest(s[i + 1..])
  {
    hide Emitted, IndexOf;
    LinesStep(s);
    RestStep(s);
    hide Lines, Rest;
  }

  lemma {:induction false} LinesStep(s: seq<Byte>)
    ensures Lines(s) == if IndexOf(s) == |s| then [] else Emitted(s[..IndexOf(s)]) + Lines(s[IndexOf(s) + 1..])
  {
    hide Emitted, IndexOf, Rest;
  }

  lemma {:induction false} RestStep(s: seq<Byte>)
    ensures Rest(s) == if IndexOf(s) == |s| then s else Rest(s[IndexOf(s) + 1..])
  {
    hide Emitted, IndexOf, Lines;
  }

  lemma {:induction false} WriteStep(all: seq<Byte>, done: seq<seq<Byte>>, pend: seq<Byte>)
    requires IndexOf(pend) < |pend| && Lines(all) == done + Lines(pend) && Rest(all) == Rest(pend)
    ensures var i := IndexOf(pend);
            Lines(all) == (done + Emitted(pend[..i])) + Lines(pend[i + 1..]) && Rest(all) == Rest(pend[i + 1..])
  {
    hide Emitted, IndexOf;
    LineStep(pend);
  }

  lemma {:induction false} LastStep(all: seq<Byte>, done: seq<seq<Byte>>, pend: seq<Byte>)
    requires IndexOf(pend) == |pend| && Lines(all) == done + Lines(pend) && Rest(all) == Rest(pend)
    ensures Lines(all) == done && Rest(all) == pend
  {
    LineStep(pend);
  }

  lemma {:induction false} FirstNewline(a: seq<Byte>, b: seq<Byte>)
    ensures IndexOf(a) < |a| ==> IndexOf(a + b) == IndexOf(a)
    ensures IndexOf(a) == |a| ==> IndexOf(a + b) == |a| + IndexOf(b)
    decreases |a|
  {
    if a == [] {
      assert a + b == b;
    } else {
      assert (a + b)[1..] == a[1..] + b;
      FirstNewline(a[1..], b);
    }
  }

  /** Writing two chunks is writing their concatenation. */
  lemma {:induction false} SplitAnywhere(a: seq<Byte>, b: seq<Byte>)
    ensures Lines(a + b) == Lines(a) + Lines(Rest(a) + b)
    ensures Rest(a + b) == Rest(Rest(a) + b)
    decreases |a|
  {
    FirstNewline(a, b);
    var i := IndexOf(a);
    LineStep(a);
    hide Lines, Rest, IndexOf, Emitted;
    if i < |a| {
      LineStep(a + b);
      assert (a + b)[..i] == a[..i];
      assert (a + b)[i + 1..] == a[i + 1..] + b;
      SplitAnywhere(a[i + 1..], b);
    }
  }

  // ----- What was printed is what is logged -----

  /** How a printed line is ended. */
  datatype Ending = Lf | CrLf

  function Printed(lines: seq<seq<Byte>>, ends: seq<Ending>): seq<Byte>
    requires |lines| == |ends|
  {
    if lines == [] then []
    else Ended(lines[0], ends[0]) + [NEWLINE] + Printed(lines[1..], ends[1..])
  }

  /** A line that holds no newline and does not end in a carriage return. */
  predicate Plain(line: seq<Byte>) {
    NEWLINE !in line && (line != [] ==> line[|line| - 1] != RETURN)
  }

  function Filled(lines: seq<seq<Byte>>): seq<seq<Byte>> {
    if lines == [] then [] else (if lines[0] == [] then [] else [lines[0]]) + Filled(lines[1..])
  }

  function Ended(line: seq<Byte>, end: Ending): seq<Byte> {
    if end.CrLf? then line + [RETURN] else line
  }

  lemma {:induction false} EmittedLine(line: seq<Byte>, end: Ending)
    requires Plain(line)
    ensures Emitted(Ended(line, end)) == if line == [] then [] else [line]
    ensures NEWLINE !in Ended(line, end)
  {
    if end.CrLf? {
      assert (line + [RETURN])[..|line|] == line;
    }
  }

  lemma {:induction false} OneLine(line: seq<Byte>, end: Ending, more: seq<Byte>)
    requires Plain(line)
    ensures var s := Ended(line, end) + [NEWLINE] + more;
            && Lines(s) == (if line == [] then [] else [line]) + Lines(more)
            && Rest(s) == Rest(more)
  {
    EmittedLine(line, end);
    hide Emitted, Ended, Plain;
    var text := Ended(line, end);
    var s := text + [NEWLINE] + more;
    FirstIs(s, |text|);
    LineStep(s);
    hide Lines, Rest;
    assert s[..|text|] == text && s[|text| + 1..] == more;
  }

  lemma {:induction false} FirstIs(s: seq<Byte>, i: nat)
    requires i < |s| && s[i] == NEWLINE && forall k | 0 <= k < i :: s[k] != NEWLINE
    ensures IndexOf(s) == i
  {
    IndexOfSpec(s);
    hide IndexOf;
    assert IndexOf(s) <= |s|;
  }

  /** Printed line by line, with either ending, the lines are logged as they were, blank ones left
      out, and what follows waits. */
  lemma {:induction false} PrintedIsLogged(lines: seq<seq<Byte>>, ends: seq<Ending>, rest: seq<Byte>)
    requires |lines| == |ends| && (forall k | 0 <= k < |lines| :: Plain(lines[k])) && NEWLINE !in rest
    ensures Lines(Printed(lines, ends) + rest) == Filled(lines) && Rest(Printed(lines, ends) + rest) == rest
    decreases |lines|
  {
    hide Lines, Rest, Plain, Ended;
    if lines == [] {
      assert Printed(lines, ends) + rest == rest;
      NoNewline(rest);
    } else {
      PrintedIsLogged(lines[1..], ends[1..], rest);
      OneLine(lines[0], ends[0], Printed(lines[1..], ends[1..]) + rest);
      var first := Ended(lines[0], ends[0]) + [NEWLINE];
      assert Printed(lines, ends) + rest == first + (Printed(lines[1..], ends[1..]) + rest);
    }
  }

  function Concat(chunks: seq<seq<Byte>>): seq<Byte> {
    if chunks == [] then [] else chunks[0] + Concat(chunks[1..])
  }

  /** The lines and the waiting bytes after writing chunk after chunk. */
  function WriteAll(pend: seq<Byte>, chunks: seq<seq<Byte>>): (seq<seq<Byte>>, seq<Byte>)
    decreases |chunks|
  {
    if chunks == [] then ([], pend)
    else
      var (lines, rest) := WriteAll(Rest(pend + chunks[0]), chunks[1..]);
      (Lines(pend + chunks[0]) + lines, rest)
  }

  /** However a stream is cut into writes, the same lines are logged and the same bytes wait. */
  lemma {:induction false} ChunkingInvariant(pend: seq<Byte>, chunks: seq<seq<Byte>>)
    requires NEWLINE !in pend
    ensures WriteAll(pend, chunks) == (Lines(pend + Concat(chunks)), Rest(pend + Concat(chunks)))
    decreases |chunks|
  {
    if chunks == [] {
      assert pend + Concat(chunks) == pend;
      NoNewline(pend);
    } else {
      var first := pend + chunks[0];
      RestIsSuffix(first);
      assert pend + Concat(chunks) == first + Concat(chunks[1..]);
      hide Lines, Rest, Concat;
      ChunkingInvariant(Rest(first), chunks[1..]);
      SplitAnywhere(first, Concat(chunks[1..]));
    }
  }

  lemma {:induction false} NoNewline(s: seq<Byte>)
    requires NEWLINE !in s
    ensures Lines(s) == [] && Rest(s) == s
  {
    IndexOfSpec(s);
    assert IndexOf(s) == |s|;
  }

  /** The waiting bytes are exactly those after the last newline. */
  lemma {:induction false} RestIsSuffix(s: seq<Byte>)
    ensures NEWLINE !in Rest(s)
    ensures |Rest(s)| <= |s| && s[|s| - |Rest(s)|..] == Rest(s)
    ensures |Rest(s)| < |s| ==> s[|s| - |Rest(s)| - 1] == NEWLINE
    decreases |s|
  {
    var i := IndexOf(s);
    IndexOfSpec(s);
    if i < |s| {
      RestIsSuffix(s[i + 1..]);
    }
  }

  /** No line to be logged is empty or holds a newline, and neither do the waiting bytes. */
  predicate CutClean(lines: seq<seq<Byte>>, rest: seq<Byte>) {
    (forall k | 0 <= k < |lines| :: lines[k] != [] && NEWLINE !in lines[k]) && NEWLINE !in rest
  }

  lemma {:induction false} Cut(s: seq<Byte>)
    ensures CutClean(Lines(s), Rest(s))
    decreases |s|
  {
    var i := IndexOf(s);
    IndexOfSpec(s);
    if i < |s| {
      Cut(s[i + 1..]);
      assert forall k | 0 <= k < |s[..i]| :: s[..i][k] != NEWLINE;
    }
  }
}
