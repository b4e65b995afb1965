/** Allocation of the loopback port an FRP-exposed inbound is moved to. */
module LocalPorts {
  import opened Outcomes

  const FIRST := 49152
  const COUNT := 16384

  function Fnv32a(s: string, i: nat, h: bv32): bv32
    requires i <= |s|
    decreases |s| - i
  {
    if i == |s| then h else Fnv32a(s, i + 1, (h ^ ((s[i] as int % 256) as bv32)) * 16777619)
  }

  /** The first port to try, spread over the range by the FNV-1a hash of the tag. */
  function StartOffset(tag: string): (start: nat)
    ensures start < COUNT
  {
    (Fnv32a(tag, 0, 2166136261) as int) % COUNT
  }

  function Candidate(start: nat, offset: nat): (port: int)
    ensures FIRST <= port < FIRST + COUNT
  {
    FIRST + (start + offset) % COUNT
  }

  /** The first free candidate at or after the given offset. */
  function AllocateFrom(start: nat, offset: nat, used: set<int>): Option<int>
    requires offset <= COUNT
    decreases COUNT - offset
  {
    if offset == COUNT then None
    else if Candidate(start, offset) !in used then Some(Candidate(start, offset))
    else AllocateFrom(start, offset + 1, used)
  }

  function Allocate(tag: string, used: set<int>): Option<int> {
    AllocateFrom(StartOffset(tag), 0, used)
  }

  method AllocateLocalPort(tag: string, used: set<int>) returns (port: Option<int>)
    ensures port == Allocate(tag, used)
  {
    hide StartOffset;
    var start := StartOffset(tag);
    for offset := 0 to COUNT
      invariant AllocateFrom(start, offset, used) == AllocateFrom(start, 0, used)
    {
      if Candidate(start, offset) !in used {
        return Some(Candidate(start, offset));
      }
    }
    return None;
  }

  /** Every port of the range is tried: going round from `start` reaches it. */
  lemma {:induction false} CandidatesCoverRange(start: nat, port: int) returns (offset: nat)
    requires start < COUNT && FIRST <= port < FIRST + COUNT
    ensures offset < COUNT && Candidate(start, offset) == port
  {
    var slot := port - FIRST;
    offset := if slot >= start then slot - start else slot - start + COUNT;
  }

  lemma {:induction false} AllocateFromSpec(start: nat, offset: nat, used: set<int>)
    requires start < COUNT && offset <= COUNT
    ensures var r := AllocateFrom(start, offset, used);
            && (r.Some? ==> FIRST <= r.value < FIRST + COUNT && r.value !in used)
            && (r.None? <==> forall o | offset <= o < COUNT :: Candidate(start, o) in used)
    decreases COUNT - offset
  {
    hide Candidate;
    if offset < COUNT && Candidate(start, offset) in used {
      AllocateFromSpec(start, offset + 1, used);
    }
  }

  /** Allocation stays in 49152..65535, never reuses a port, and fails exactly when the
      whole range is taken. */
  lemma {:induction false} AllocateSpec(tag: string, used: set<int>)
    ensures var r := Allocate(tag, used);
            && (r.Some? ==> 49152 <= r.value <= 65535 && r.value !in used)
            && (r.None? <==> forall p | 49152 <= p <= 65535 :: p in used)
  {
    hide StartOffset, Candidate, AllocateFrom;
    var start := StartOffset(tag);
    AllocateFromSpec(start, 0, used);
    if Allocate(tag, used).None? {
      forall p | 49152 <= p <= 65535 ensures p in used {
        var o := CandidatesCoverRange(start, p);
      }
    } else {
      assert Allocate(tag, used).value !in used;
    }
  }
}
