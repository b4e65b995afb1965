/** The persistent automation queue: leased jobs, one active job per target. Each operation is
    one transaction of a single-writer database. */
module AutomationJobs {
  import opened Outcomes

  datatype JobState = Pending | Running | RetryWait | Success | Failed | Cancelled

  datatype Key = Key(kind: string, targetType: string, targetId: string)

  datatype Job = Job(
    id: string, key: Key, state: JobState, attempt: nat, nextRun: int,
    owner: string, leaseExpires: int, lastError: string, created: int, updated: int)

  type Table = seq<Job>

  datatype Error = Invalid | IdTaken | LeaseLost | ActiveExists

  predicate Active(j: Job) {
    j.state.Pending? || j.state.Running? || j.state.RetryWait?
  }

  predicate HasId(t: Table, id: string) {
    exists i | 0 <= i < |t| :: t[i].id == id
  }

  predicate ValidKey(k: Key) {
    k.kind != "" && k.targetType != "" && k.targetId != ""
  }

  /** The row of the active job for a key, or the table's length. */
  function FindActive(t: Table, key: Key, i: nat): (r: nat)
    requires i <= |t|
    ensures i <= r <= |t|
    ensures r < |t| ==> Active(t[r]) && t[r].key == key
    ensures forall k | i <= k < r :: !(Active(t[k]) && t[k].key == key)
    decreases |t| - i
  {
    if i == |t| || (Active(t[i]) && t[i].key == key) then i else FindActive(t, key, i + 1)
  }

  function NewJob(id: string, key: Key, nextRun: int, now: int): Job {
    Job(id, key, Pending, 0, if nextRun == 0 then now else nextRun, "", 0, "", now, now)
  }

  // ----- Enqueue -----

  function Enqueue(t: Table, id: string, key: Key, nextRun: int, now: int): (Table, Result<Job, Error>) {
    if !ValidKey(key) then (t, Err(Invalid))
    else
      var i := FindActive(t, key, 0);
      if i < |t| then (t, Ok(t[i]))
      else if HasId(t, id) then (t, Err(IdTaken))
      else
        var job := NewJob(id, key, nextRun, now);
        (t + [job], Ok(job))
  }

  /** A user-requested retry: a waiting or abandoned job is failed and replaced. */
  function ForceEnqueue(t: Table, id: string, key: Key, now: int): (Table, Result<Job, Error>) {
    if !ValidKey(key) then (t, Err(Invalid))
    else
      var i := FindActive(t, key, 0);
      if i < |t| && t[i].state.Running? && t[i].leaseExpires > now then (t, Ok(t[i]))
      else if i < |t| && t[i].state.Pending? then
        var woken := t[i].(nextRun := now, lastError := "", updated := now);
        (t[i := woken], Ok(woken))
      else if HasId(t, id) then (t, Err(IdTaken))
      else
        var closed := if i < |t| then t[i := t[i].(state := Failed, nextRun := 0, owner := "", leaseExpires := 0, updated := now)] else t;
        var job := NewJob(id, key, now, now);
        (closed + [job], Ok(job))
  }

  // ----- Claim -----

  predicate Leasable(j: Job, now: int) {
    || ((j.state.Pending? || j.state.RetryWait?) && (j.owner == "" || j.leaseExpires <= now))
    || (j.state.Running? && j.leaseExpires <= now)
  }

  predicate Due(j: Job, now: int) {
    Leasable(j, now) && (j.state.Running? || j.nextRun <= now)
  }

  /** Strictly earlier in the order jobs are handed out. */
  predicate Earlier(a: Job, b: Job) {
    a.nextRun < b.nextRun || (a.nextRun == b.nextRun && a.created < b.created)
  }

  ghost predicate Rows(t: Table, rows: seq<nat>) {
    forall k | 0 <= k < |rows| :: rows[k] < |t|
  }

  function Insert(t: Table, sorted: seq<nat>, i: nat): seq<nat>
    requires i < |t| && Rows(t, sorted)
  {
    if sorted == [] then [i]
    else if Earlier(t[i], t[sorted[0]]) then [i] + sorted
    else [sorted[0]] + Insert(t, sorted[1..], i)
  }

  lemma {:induction false} InsertMembers(t: Table, sorted: seq<nat>, i: nat)
    requires i < |t| && Rows(t, sorted)
    ensures forall k: nat :: k in Insert(t, sorted, i) <==> k == i || k in sorted
    ensures Rows(t, Insert(t, sorted, i))
    decreases |sorted|
  {
    hide Earlier;
    if sorted != [] && !Earlier(t[i], t[sorted[0]]) {
      InsertMembers(t, sorted[1..], i);
      assert sorted == [sorted[0]] + sorted[1..];
    }
  }

  /** The due rows among the first n, in the order they are handed out. */
  function DueInOrder(t: Table, now: int, n: nat): (r: seq<nat>)
    requires n <= |t|
    ensures Rows(t, r)
  {
    if n == 0 then []
    else
      var before := DueInOrder(t, now, n - 1);
      if Due(t[n - 1], now) then InsertMembers(t, before, n - 1); Insert(t, before, n - 1) else before
  }

  function Leased(j: Job, owner: string, now: int, lease: int): Job {
    j.(state := Running, owner := owner, leaseExpires := now + lease, attempt := j.attempt + 1, updated := now)
  }

  function LeaseAll(t: Table, rows: seq<nat>, owner: string, now: int, lease: int): Table
  {
    seq(|t|, i requires 0 <= i < |t| => if i in rows then Leased(t[i], owner, now, lease) else t[i])
  }

  function Handed(t: Table, rows: seq<nat>, owner: string, now: int, lease: int): seq<Job>
    requires Rows(t, rows)
  {
    seq(|rows|, p requires 0 <= p < |rows| => Leased(t[rows[p]], owner, now, lease).(updated := t[rows[p]].updated))
  }

  ghost predicate Distinct(rows: seq<nat>) {
    forall j, k | 0 <= j < k < |rows| :: rows[j] != rows[k]
  }

  function LeaseSeconds(lease: int): int {
    if lease <= 0 then 60 else lease
  }

  function BatchSize(limit: int): nat {
    if limit <= 0 || limit > 100 then 10 else limit
  }

  function Candidates(t: Table, now: int, limit: int): (r: seq<nat>)
    ensures Rows(t, r)
  {
    var due := DueInOrder(t, now, |t|);
    if |due| <= BatchSize(limit) then due else due[..BatchSize(limit)]
  }

  function Claim(t: Table, owner: string, now: int, lease: int, limit: int): Table {
    if owner == "" then t else LeaseAll(t, Candidates(t, now, limit), owner, now, LeaseSeconds(lease))
  }

  // ----- Finish and renew -----

  function FindHeld(t: Table, id: string, owner: string, i: nat): (r: nat)
    requires i <= |t|
    ensures i <= r <= |t|
    ensures r < |t| ==> t[r].id == id && t[r].owner == owner
    ensures forall k | i <= k < r :: !(t[k].id == id && t[k].owner == owner)
    decreases |t| - i
  {
    if i == |t| || (t[i].id == id && t[i].owner == owner) then i else FindHeld(t, id, owner, i + 1)
  }

  function Finish(t: Table, id: string, owner: string, state: JobState, message: string, nextRun: int, now: int)
    : (Table, Option<Error>)
  {
    if state.Pending? || state.Running? then (t, Some(Invalid))
    else
      var i := FindHeld(t, id, owner, 0);
      if i == |t| then (t, Some(LeaseLost))
      else
        var done := t[i].(state := state, nextRun := nextRun, owner := "", leaseExpires := 0, lastError := message, updated := now);
        // The unique index admits one active job per key.
        if state.RetryWait? && !Active(t[i]) && FindActive(t, t[i].key, 0) < |t| then (t, Some(ActiveExists))
        else (t[i := done], None)
  }

  function Renew(t: Table, id: string, owner: string, now: int, lease: int): (Table, Option<Error>) {
    if lease <= 0 then (t, Some(Invalid))
    else
      var i := FindHeld(t, id, owner, 0);
      if i == |t| || !t[i].state.Running? then (t, Some(LeaseLost))
      else (t[i := t[i].(leaseExpires := now + lease, updated := now)], None)
  }

  // ----- The store object -----

  class JobStore {
    var rows: Table

    constructor ()
      ensures rows == []
    {
      rows := [];
    }

    method EnqueueJob(id: string, key: Key, nextRun: int, now: int) returns (r: Result<Job, Error>)
      modifies this
      ensures (rows, r) == Enqueue(old(rows), id, key, nextRun, now)
      ensures Inv(old(rows)) ==> Inv(rows)
      ensures r.Ok? ==> OnlyActive(rows, key, r.value)
      ensures old(rows) <= rows && (r.Err? ==> rows == old(rows))
      ensures Enqueued(old(rows), id, key, nextRun, now, rows, r)
    {
      if Inv(rows) {
        PerformKeepsInv(rows, EnqueueOp(id, key, nextRun, now));
      }
      EnqueueSpec(rows, id, key, nextRun, now);
      EnqueueFinds(rows, id, key, nextRun, now);
      hide Inv, OnlyActive, Enqueued;
      if !ValidKey(key) {
        return Err(Invalid);
      }
      var i := FindActive(rows, key, 0);
      if i < |rows| {
        return Ok(rows[i]);
      }
      if HasId(rows, id) {
        return Err(IdTaken);
      }
      var job := NewJob(id, key, nextRun, now);
      rows := rows + [job];
      return Ok(job);
    }

    method ForceEnqueueJob(id: string, key: Key, now: int) returns (r: Result<Job, Error>)
      modifies this
      ensures (rows, r) == ForceEnqueue(old(rows), id, key, now)
      ensures Inv(old(rows)) ==> Inv(rows)
      ensures r.Ok? ==> r.value in rows && Active(r.value) && r.value.key == key
      ensures r.Ok? ==> (r.value.state.Running? && r.value.leaseExpires > now && rows == old(rows)) || (r.value.state.Pending? && r.value.nextRun == now)
      ensures |old(rows)| <= |rows| && forall i | 0 <= i < |old(rows)| && old(rows)[i].key != key :: rows[i] == old(rows)[i]
      ensures r.Err? ==> rows == old(rows)
      ensures Inv(old(rows)) ==> Forced(old(rows), id, key, now, rows, r)
    {
      if Inv(rows) {
        ForceKeepsInv(rows, id, key, now);
        ForceSpec(rows, id, key, now);
      }
      hide Inv, Forced;
      if !ValidKey(key) {
        return Err(Invalid);
      }
      var i := FindActive(rows, key, 0);
      if i < |rows| && rows[i].state.Running? && rows[i].leaseExpires > now {
        return Ok(rows[i]);
      }
      if i < |rows| && rows[i].state.Pending? {
        rows := rows[i := rows[i].(nextRun := now, lastError := "", updated := now)];
        return Ok(rows[i]);
      }
      if HasId(rows, id) {
        return Err(IdTaken);
      }
      if i < |rows| {
        rows := rows[i := rows[i].(state := Failed, nextRun := 0, owner := "", leaseExpires := 0, updated := now)];
      }
      var job := NewJob(id, key, now, now);
      rows := rows + [job];
      return Ok(job);
    }

    /** Leases the first due jobs. */
    method ClaimJobs(owner: string, now: int, lease: int, limit: int) returns (r: Result<seq<Job>, Error>)
      modifies this
      ensures rows == Claim(old(rows), owner, now, lease, limit)
      ensures r == if owner == "" then Err(Invalid) else Ok(Handed(old(rows), Candidates(old(rows), now, limit), owner, now, LeaseSeconds(lease)))
      ensures Claims(old(rows), owner, now, lease, limit, rows, r)
    {
      ClaimSpec(rows, owner, now, lease, limit);
      hide Claims, Taken, DueInOrder, Earlier, Leasable, Due, LeaseAll, Handed, LeaseSeconds, Candidates, InOrder;
      if owner == "" {
        return Err(Invalid);
      }
      CandidatesSpec(rows, now, limit);
      CandidatesLeasable(rows, now, limit);
      var jobs := LeaseRows(Candidates(rows, now, limit), owner, now, LeaseSeconds(lease));
      return Ok(jobs);
    }

    /** The guard repeated on each update never fails inside the transaction, so every
        candidate is handed out. */
    method LeaseRows(candidates: seq<nat>, owner: string, now: int, lease: int) returns (jobs: seq<Job>)
      requires Rows(rows, candidates)
      requires Distinct(candidates)
      requires forall p | 0 <= p < |candidates| :: Leasable(rows[candidates[p]], now)
      modifies this
      ensures rows == LeaseAll(old(rows), candidates, owner, now, lease)
      ensures jobs == Handed(old(rows), candidates, owner, now, lease)
    {
      hide Leasable, Leased;
      jobs := [];
      var k := 0;
      while k < |candidates|
        invariant 0 <= k <= |candidates|
        invariant |rows| == |old(rows)|
        invariant forall i | 0 <= i < |rows| ::
                    rows[i] == if i in candidates[..k] then Leased(old(rows)[i], owner, now, lease) else old(rows)[i]
        invariant |jobs| == k
        invariant forall p | 0 <= p < k ::
                    jobs[p] == Leased(old(rows)[candidates[p]], owner, now, lease).(updated := old(rows)[candidates[p]].updated)
      {
        var i := candidates[k];
        assert i !in candidates[..k];
        assert candidates[..k + 1] == candidates[..k] + [i];
        assert rows[i] == old(rows)[i];
        if Leasable(rows[i], now) {
          var job := rows[i];
          rows := rows[i := Leased(job, owner, now, lease)];
          jobs := jobs + [rows[i].(updated := job.updated)];
        }
        k := k + 1;
      }
      assert candidates[..k] == candidates;
    }

    method FinishJob(id: string, owner: string, state: JobState, message: string, nextRun: int, now: int) returns (e: Option<Error>)
      modifies this
      ensures (rows, e) == Finish(old(rows), id, owner, state, message, nextRun, now)
      ensures Inv(old(rows)) ==> Inv(rows)
      ensures |rows| == |old(rows)| && (e.Some? ==> rows == old(rows))
      ensures forall i | 0 <= i < |rows| && rows[i] != old(rows)[i] ::
                && e == None && old(rows)[i].id == id && old(rows)[i].owner == owner
                && rows[i].state == state && rows[i].owner == "" && rows[i].key == old(rows)[i].key
      ensures Inv(old(rows)) ==> Finishes(old(rows), id, owner, state, message, nextRun, now, rows, e)
      ensures e == Some(LeaseLost) <==> !state.Pending? && !state.Running? && forall i | 0 <= i < |rows| :: !(old(rows)[i].id == id && old(rows)[i].owner == owner)
    {
      if Inv(rows) {
        FinishKeepsInv(rows, id, owner, state, message, nextRun, now);
        FinishSpec(rows, id, owner, state, message, nextRun, now);
      }
      hide Inv, Finishes;
      if state.Pending? || state.Running? {
        return Some(Invalid);
      }
      var i := FindHeld(rows, id, owner, 0);
      if i == |rows| {
        return Some(LeaseLost);
      }
      if state.RetryWait? && !Active(rows[i]) && FindActive(rows, rows[i].key, 0) < |rows| {
        return Some(ActiveExists);
      }
      rows := rows[i := rows[i].(state := state, nextRun := nextRun, owner := "", leaseExpires := 0, lastError := message, updated := now)];
      return None;
    }

    method RenewLease(id: string, owner: string, now: int, lease: int) returns (e: Option<Error>)
      modifies this
      ensures (rows, e) == Renew(old(rows), id, owner, now, lease)
      ensures Inv(old(rows)) ==> Inv(rows)
      ensures |rows| == |old(rows)| && forall i | 0 <= i < |rows| && rows[i] != old(rows)[i] ::
                e == None && old(rows)[i].id == id && old(rows)[i].owner == owner && old(rows)[i].state.Running?
      ensures Inv(old(rows)) ==> Renews(old(rows), id, owner, now, lease, rows, e)
    {
      if Inv(rows) {
        RenewKeepsInv(rows, id, owner, now, lease);
        RenewSpec(rows, id, owner, now, lease);
      }
      hide Inv, Renews;
      if lease <= 0 {
        return Some(Invalid);
      }
      var i := FindHeld(rows, id, owner, 0);
      if i == |rows| || !rows[i].state.Running? {
        return Some(LeaseLost);
      }
      rows := rows[i := rows[i].(leaseExpires := now + lease, updated := now)];
      return None;
    }
  }

  // ----- Which jobs a claim hands out -----

  ghost predicate InOrder(t: Table, rows: seq<nat>)
    requires Rows(t, rows)
  {
    forall j, k | 0 <= j < k < |rows| :: rows[j] != rows[k] && !Earlier(t[rows[k]], t[rows[j]])
  }

  lemma {:induction false} EarlierOrder(a: Job, b: Job, c: Job)
    requires Earlier(a, b) && !Earlier(c, b)
    ensures !Earlier(c, a)
  {
  }

  lemma {:induction false} InsertInOrder(t: Table, sorted: seq<nat>, i: nat)
    requires Rows(t, sorted) && i < |t| && InOrder(t, sorted) && i !in sorted
    ensures Rows(t, Insert(t, sorted, i)) && InOrder(t, Insert(t, sorted, i))
    decreases |sorted|
  {
    InsertMembers(t, sorted, i);
    hide Earlier;
    if sorted != [] {
      if Earlier(t[i], t[sorted[0]]) {
        forall k | 0 <= k < |sorted| ensures !Earlier(t[sorted[k]], t[i]) {
          if k == 0 {
            EarlierAsymmetric(t[i], t[sorted[0]]);
          } else {
            EarlierOrder(t[i], t[sorted[0]], t[sorted[k]]);
          }
        }
      } else {
        var rest := sorted[1..];
        assert i !in rest;
        InsertInOrder(t, rest, i);
        InsertMembers(t, rest, i);
        HeadStaysFirst(t, sorted, i);
      }
    }
  }

  lemma {:induction false} EarlierAsymmetric(a: Job, b: Job)
    requires Earlier(a, b)
    ensures !Earlier(b, a)
  {
  }

  lemma {:induction false} HeadStaysFirst(t: Table, sorted: seq<nat>, i: nat)
    requires Rows(t, sorted) && sorted != [] && i < |t| && InOrder(t, sorted) && i !in sorted
    requires !Earlier(t[i], t[sorted[0]])
    ensures var tail := Insert(t, sorted[1..], i);
            Rows(t, tail) && forall k | 0 <= k < |tail| :: tail[k] != sorted[0] && !Earlier(t[tail[k]], t[sorted[0]])
  {
    hide Earlier;
    var rest := sorted[1..];
    InsertMembers(t, rest, i);
    var tail := Insert(t, rest, i);
    hide Insert;
    forall k | 0 <= k < |tail| ensures tail[k] != sorted[0] && !Earlier(t[tail[k]], t[sorted[0]]) {
      assert tail[k] in tail;
      if tail[k] != i {
        var j :| 0 <= j < |rest| && rest[j] == tail[k];
        assert sorted[j + 1] == tail[k];
      }
    }
  }

  lemma {:induction false} DueInOrderSpec(t: Table, now: int, n: nat)
    requires n <= |t|
    ensures InOrder(t, DueInOrder(t, now, n))
    ensures forall k: nat :: k in DueInOrder(t, now, n) <==> k < n && Due(t[k], now)
    decreases n
  {
    hide Due, Earlier, Insert;
    if n > 0 {
      DueInOrderSpec(t, now, n - 1);
      var before := DueInOrder(t, now, n - 1);
      if Due(t[n - 1], now) {
        InsertMembers(t, before, n - 1);
        InsertInOrder(t, before, n - 1);
      }
    }
  }

  /** A row that may be handed out: it waits, its time has come and no unexpired lease is on it; or
      it runs and its lease has ended. */
  predicate Claimable(j: Job, now: int) {
    match j.state
    case Pending => j.nextRun <= now && !(j.owner != "" && now < j.leaseExpires)
    case RetryWait => j.nextRun <= now && !(j.owner != "" && now < j.leaseExpires)
    case Running => j.leaseExpires <= now
    case _ => false
  }

  /** The rows of a batch, ten unless one to a hundred are asked for: each claimable, once, by next
      run and then creation; a claimable row is left out only if the batch is full of no later ones. */
  ghost predicate Taken(t: Table, now: int, limit: int, c: seq<nat>) {
    var batch := if 1 <= limit <= 100 then limit else 10;
    && |c| <= batch
    && (forall p | 0 <= p < |c| :: c[p] < |t| && Claimable(t[c[p]], now))
    && (forall p, q | 0 <= p < q < |c| ::
          && c[p] != c[q]
          && (t[c[p]].nextRun < t[c[q]].nextRun || (t[c[p]].nextRun == t[c[q]].nextRun && t[c[p]].created <= t[c[q]].created)))
    && (forall i: nat | i < |t| && Claimable(t[i], now) && i !in c ::
          |c| == batch && forall p | 0 <= p < |c| ::
            t[c[p]].nextRun < t[i].nextRun || (t[c[p]].nextRun == t[i].nextRun && t[c[p]].created <= t[i].created))
  }

  /** A claim hands out exactly such a batch, leased to the claimant. */
  ghost predicate Claims(t: Table, owner: string, now: int, lease: int, limit: int, u: Table, r: Result<seq<Job>, Error>) {
    if owner == "" then u == t && r == Err(Invalid)
    else
      var c := Candidates(t, now, limit);
      var seconds := if lease <= 0 then 60 else lease;
      && Taken(t, now, limit, c)
      && |u| == |t|
      && (forall i: nat | i < |t| && i !in c :: u[i] == t[i])
      && (forall i: nat | i < |t| && i in c ::
            u[i] == t[i].(state := Running, owner := owner, leaseExpires := now + seconds, attempt := t[i].attempt + 1, updated := now))
      && r.Ok? && |r.value| == |c|
      && (forall p | 0 <= p < |c| :: r.value[p] == u[c[p]].(updated := t[c[p]].updated))
  }

  lemma {:induction false} ClaimSpec(t: Table, owner: string, now: int, lease: int, limit: int)
    ensures Claims(t, owner, now, lease, limit, Claim(t, owner, now, lease, limit),
                   if owner == "" then Err(Invalid) else Ok(Handed(t, Candidates(t, now, limit), owner, now, LeaseSeconds(lease))))
  {
    BatchTaken(t, now, limit);
    hide Candidates, Taken;
    assert Taken(t, now, limit, Candidates(t, now, limit)) ==> forall p | 0 <= p < |Candidates(t, now, limit)| :: Candidates(t, now, limit)[p] in Candidates(t, now, limit);
  }

  lemma {:induction false} BatchTaken(t: Table, now: int, limit: int)
    ensures Taken(t, now, limit, Candidates(t, now, limit))
  {
    hide Candidates;
    CandidatesSpec(t, now, limit);
    assert forall j: Job :: Due(j, now) <==> Claimable(j, now);
  }

  /** A claim takes due jobs only, each once, the earliest first, and leaves a due job behind
      only when the batch is full and no job taken is later. */
  lemma {:induction false} CandidatesSpec(t: Table, now: int, limit: int)
    ensures var c := Candidates(t, now, limit);
            && InOrder(t, c)
            && |c| <= BatchSize(limit)
            && (forall p | 0 <= p < |c| :: Due(t[c[p]], now))
            && (forall k: nat | k < |t| && Due(t[k], now) && k !in c ::
                  |c| == BatchSize(limit) && forall p | 0 <= p < |c| :: !Earlier(t[k], t[c[p]]))
  {
    hide DueInOrder, Earlier, Due;
    DueInOrderSpec(t, now, |t|);
    var due := DueInOrder(t, now, |t|);
    var c := Candidates(t, now, limit);
    forall p | 0 <= p < |c| ensures Due(t[c[p]], now) {
      assert due[p] in due;
    }
    forall k: nat | k < |t| && Due(t[k], now) && k !in c
      ensures |c| == BatchSize(limit) && forall p | 0 <= p < |c| :: !Earlier(t[k], t[c[p]])
    {
      assert k in due;
      var q :| 0 <= q < |due| && due[q] == k;
      assert forall p | 0 <= p < |c| :: c[p] in c && c[p] == due[p];
    }
  }

  lemma {:induction false} CandidatesLeasable(t: Table, now: int, limit: int)
    ensures var c := Candidates(t, now, limit);
            Distinct(c) && forall p | 0 <= p < |c| :: Leasable(t[c[p]], now)
  {
    hide DueInOrder, Earlier, Leasable, Candidates;
    CandidatesSpec(t, now, limit);
  }

  lemma {:induction false} CandidateRow(t: Table, now: int, limit: int, i: nat)
    requires i in Candidates(t, now, limit)
    ensures i < |t| && Leasable(t[i], now)
  {
    hide Candidates, Leasable;
    CandidatesLeasable(t, now, limit);
  }

  // ----- The other operations, row by row -----

  predicate WaitsFor(j: Job, key: Key) {
    j.key == key && (j.state == Pending || j.state == Running || j.state == RetryWait)
  }

  /** An active job of the target is returned as it is; else a pending one is added, to run when asked
      or at once. */
  ghost predicate Enqueued(t: Table, id: string, key: Key, nextRun: int, now: int, u: Table, r: Result<Job, Error>) {
    var job := Job(id, key, Pending, 0, if nextRun == 0 then now else nextRun, "", 0, "", now, now);
    if key.kind == "" || key.targetType == "" || key.targetId == "" then u == t && r == Err(Invalid)
    else if exists i | 0 <= i < |t| :: WaitsFor(t[i], key) then u == t && r.Ok? && r.value in t && WaitsFor(r.value, key)
    else if exists i | 0 <= i < |t| :: t[i].id == id then u == t && r == Err(IdTaken)
    else u == t + [job] && r == Ok(job)
  }

  lemma {:induction false} EnqueueSpec(t: Table, id: string, key: Key, nextRun: int, now: int)
    ensures Enqueued(t, id, key, nextRun, now, Enqueue(t, id, key, nextRun, now).0, Enqueue(t, id, key, nextRun, now).1)
  {
    var i := FindActive(t, key, 0);
    if i < |t| {
      assert WaitsFor(t[i], key);
    }
  }

  /** A forced retry: a job under a live lease is returned as it is, a pending one is due at once, and
      any other active one is closed as failed and followed by a new one. */
  ghost predicate Forced(t: Table, id: string, key: Key, now: int, u: Table, r: Result<Job, Error>) {
    var job := Job(id, key, Pending, 0, now, "", 0, "", now, now);
    if key.kind == "" || key.targetType == "" || key.targetId == "" then u == t && r == Err(Invalid)
    else
      && (forall i | 0 <= i < |t| && t[i].key == key ::
            && (t[i].state == Running && now < t[i].leaseExpires ==> u == t && r == Ok(t[i]))
            && (t[i].state == Pending ==> var woken := t[i].(nextRun := now, lastError := "", updated := now); u == t[i := woken] && r == Ok(woken))
            && (t[i].state == RetryWait || (t[i].state == Running && t[i].leaseExpires <= now) ==>
                  if exists k | 0 <= k < |t| :: t[k].id == id then u == t && r == Err(IdTaken)
                  else u == t[i := t[i].(state := Failed, nextRun := 0, owner := "", leaseExpires := 0, updated := now)] + [job] && r == Ok(job)))
      && ((forall i | 0 <= i < |t| :: !WaitsFor(t[i], key)) ==>
            if exists k | 0 <= k < |t| :: t[k].id == id then u == t && r == Err(IdTaken) else u == t + [job] && r == Ok(job))
  }

  lemma {:induction false} ForceSpec(t: Table, id: string, key: Key, now: int)
    requires Inv(t)
    ensures Forced(t, id, key, now, ForceEnqueue(t, id, key, now).0, ForceEnqueue(t, id, key, now).1)
  {
    var f := FindActive(t, key, 0);
    forall i | 0 <= i < |t| && t[i].key == key && Active(t[i]) ensures f == i {
      FindsOnly(t, i);
    }
    if f < |t| {
      assert WaitsFor(t[f], key);
    }
  }

  /** A worker reports: the row it holds takes the state, next run and message, and loses its owner. */
  ghost predicate Finishes(t: Table, id: string, owner: string, state: JobState, message: string, nextRun: int, now: int, u: Table, e: Option<Error>) {
    if state == Pending || state == Running then u == t && e == Some(Invalid)
    else
      && ((forall i | 0 <= i < |t| :: !(t[i].id == id && t[i].owner == owner)) ==> u == t && e == Some(LeaseLost))
      && (forall i | 0 <= i < |t| && t[i].id == id && t[i].owner == owner ::
            if state == RetryWait && t[i].state != Running && t[i].state != Pending && t[i].state != RetryWait
               && exists k | 0 <= k < |t| :: WaitsFor(t[k], t[i].key)
            then u == t && e == Some(ActiveExists)
            else
              u == t[i := t[i].(state := state, nextRun := nextRun, owner := "", leaseExpires := 0, lastError := message, updated := now)] && e == None)
  }

  lemma {:induction false} FinishSpec(t: Table, id: string, owner: string, state: JobState, message: string, nextRun: int, now: int)
    requires Inv(t)
    ensures Finishes(t, id, owner, state, message, nextRun, now, Finish(t, id, owner, state, message, nextRun, now).0,
                     Finish(t, id, owner, state, message, nextRun, now).1)
  {
    var f := FindHeld(t, id, owner, 0);
    forall i | 0 <= i < |t| && t[i].id == id && t[i].owner == owner ensures f == i {
      HeldIs(t, i);
    }
    if f < |t| {
      var a := FindActive(t, t[f].key, 0);
      assert a < |t| ==> WaitsFor(t[a], t[f].key);
      assert forall k | 0 <= k < a :: !WaitsFor(t[k], t[f].key);
    }
  }

  ghost predicate Renews(t: Table, id: string, owner: string, now: int, lease: int, u: Table, e: Option<Error>) {
    if lease <= 0 then u == t && e == Some(Invalid)
    else
      && ((forall i | 0 <= i < |t| :: !(t[i].id == id && t[i].owner == owner && t[i].state == Running)) ==> u == t && e == Some(LeaseLost))
      && (forall i | 0 <= i < |t| && t[i].id == id && t[i].owner == owner && t[i].state == Running ::
            u == t[i := t[i].(leaseExpires := now + lease, updated := now)] && e == None)
  }

  lemma {:induction false} RenewSpec(t: Table, id: string, owner: string, now: int, lease: int)
    requires Inv(t)
    ensures Renews(t, id, owner, now, lease, Renew(t, id, owner, now, lease).0, Renew(t, id, owner, now, lease).1)
  {
    var f := FindHeld(t, id, owner, 0);
    forall i | 0 <= i < |t| && t[i].id == id && t[i].owner == owner ensures f == i {
      HeldIs(t, i);
    }
  }

  // ----- Runs of the queue -----

  datatype Op =
    | EnqueueOp(id: string, key: Key, nextRun: int, now: int)
    | ForceOp(id: string, key: Key, now: int)
    | ClaimOp(owner: string, now: int, lease: int, limit: int)
    | FinishOp(id: string, owner: string, state: JobState, message: string, nextRun: int, now: int)
    | RenewOp(id: string, owner: string, now: int, lease: int)

  function Perform(t: Table, op: Op): Table {
    match op
    case EnqueueOp(id, key, nextRun, now) => Enqueue(t, id, key, nextRun, now).0
    case ForceOp(id, key, now) => ForceEnqueue(t, id, key, now).0
    case ClaimOp(owner, now, lease, limit) => Claim(t, owner, now, lease, limit)
    case FinishOp(id, owner, state, message, nextRun, now) => Finish(t, id, owner, state, message, nextRun, now).0
    case RenewOp(id, owner, now, lease) => Renew(t, id, owner, now, lease).0
  }

  function Run(t: Table, ops: seq<Op>): Table
    decreases |ops|
  {
    if ops == [] then t else Run(Perform(t, ops[0]), ops[1..])
  }

  /** At most one active job for each key; an owner is recorded exactly while a job runs. */
  ghost predicate Inv(t: Table) {
    && (forall i, j | 0 <= i < j < |t| :: t[i].id != t[j].id)
    && (forall i, j | 0 <= i < j < |t| && Active(t[i]) && Active(t[j]) :: t[i].key != t[j].key)
    && (forall i | 0 <= i < |t| :: t[i].owner != "" <==> t[i].state.Running?)
  }

  /** This is a row, and the first active one for its key. */
  ghost predicate OnlyActive(t: Table, key: Key, j: Job) {
    var i := FindActive(t, key, 0);
    i < |t| && t[i] == j && Active(j) && j.key == key
  }

  lemma {:induction false} EnqueueFinds(t: Table, id: string, key: Key, nextRun: int, now: int)
    ensures var (r, job) := Enqueue(t, id, key, nextRun, now);
            job.Ok? ==> OnlyActive(r, key, job.value)
  {
    hide HasId;
    var (r, job) := Enqueue(t, id, key, nextRun, now);
    if job.Ok? && FindActive(t, key, 0) == |t| {
      assert r[|t|] == job.value && Active(r[|t|]);
      assert forall k | 0 <= k < |t| :: r[k] == t[k];
    }
  }

  /** Rows keep their id and key, and any row becoming active was free to. */
  lemma {:induction false} ReplaceKeepsInv(t: Table, i: nat, j: Job)
    requires Inv(t) && i < |t| && j.id == t[i].id && j.key == t[i].key
    requires j.owner != "" <==> j.state.Running?
    requires Active(j) ==> Active(t[i]) || FindActive(t, j.key, 0) == |t|
    ensures Inv(t[i := j])
  {
    hide Active, FindActive;
    var r := t[i := j];
    forall x, y | 0 <= x < y < |r| && Active(r[x]) && Active(r[y]) ensures r[x].key != r[y].key {
      if x == i || y == i {
        var other := if x == i then y else x;
        assert Active(t[other]) && r[other] == t[other];
        if !Active(t[i]) {
          NoneActive(t, j.key, other);
        }
      }
    }
  }

  lemma {:induction false} NoneActive(t: Table, key: Key, i: nat)
    requires FindActive(t, key, 0) == |t| && i < |t|
    ensures !(Active(t[i]) && t[i].key == key)
  {
  }

  lemma {:induction false} AppendKeepsInv(t: Table, id: string, key: Key, nextRun: int, now: int)
    requires Inv(t) && !HasId(t, id) && FindActive(t, key, 0) == |t|
    ensures Inv(t + [NewJob(id, key, nextRun, now)])
  {
    var r := t + [NewJob(id, key, nextRun, now)];
    forall x, y | 0 <= x < y < |r| && Active(r[x]) && Active(r[y]) ensures r[x].key != r[y].key {
      if y == |t| {
        NoneActive(t, key, x);
      }
    }
  }

  lemma {:induction false} LeaseKeepsInv(t: Table, rows: seq<nat>, owner: string, now: int, lease: int)
    requires Inv(t) && Rows(t, rows) && owner != ""
    requires forall p | 0 <= p < |rows| :: Leasable(t[rows[p]], now)
    ensures Inv(LeaseAll(t, rows, owner, now, lease))
  {
    var r := LeaseAll(t, rows, owner, now, lease);
    forall i | 0 <= i < |t| ensures Active(r[i]) ==> Active(t[i]) {
      if i in rows {
        var p :| 0 <= p < |rows| && rows[p] == i;
        assert Leasable(t[rows[p]], now);
      }
    }
  }

  lemma {:induction false} ForceKeepsInv(t: Table, id: string, key: Key, now: int)
    requires Inv(t)
    ensures Inv(ForceEnqueue(t, id, key, now).0)
  {
    var i := FindActive(t, key, 0);
    hide FindActive, Inv, HasId;
    if ValidKey(key) {
      if i < |t| && t[i].state.Running? && t[i].leaseExpires > now {
      } else if i < |t| && t[i].state.Pending? {
        assert t[i].owner == "" by { OwnerWhileRunning(t, i); }
        ReplaceKeepsInv(t, i, t[i].(nextRun := now, lastError := "", updated := now));
      } else if !HasId(t, id) {
        if i < |t| {
          var dead := t[i].(state := Failed, nextRun := 0, owner := "", leaseExpires := 0, updated := now);
          var closed := t[i := dead];
          ReplaceKeepsInv(t, i, dead);
          ClosedFreesKey(t, i, dead, id, key);
          AppendKeepsInv(closed, id, key, now, now);
        } else {
          AppendKeepsInv(t, id, key, now, now);
        }
      }
    }
  }

  lemma {:induction false} OwnerWhileRunning(t: Table, i: nat)
    requires Inv(t) && i < |t|
    ensures t[i].owner != "" <==> t[i].state.Running?
  {
  }

  lemma {:induction false} ClosedFreesKey(t: Table, i: nat, dead: Job, id: string, key: Key)
    requires Inv(t) && i < |t| && Active(t[i]) && t[i].key == key
    requires dead.id == t[i].id && !Active(dead) && !HasId(t, id)
    ensures FindActive(t[i := dead], key, 0) == |t| && !HasId(t[i := dead], id)
  {
    hide HasId;
    var closed := t[i := dead];
    forall k | 0 <= k < |t| ensures !(Active(closed[k]) && closed[k].key == key) {
      if k != i {
        assert closed[k] == t[k];
      }
    }
    assert !HasId(closed, id) by { SameIds(t, i, dead, id); }
  }

  lemma {:induction false} SameIds(t: Table, i: nat, j: Job, id: string)
    requires i < |t| && j.id == t[i].id && !HasId(t, id)
    ensures !HasId(t[i := j], id)
  {
    assert forall k | 0 <= k < |t| :: t[k].id != id;
  }

  lemma {:induction false} FinishKeepsInv(t: Table, id: string, owner: string, state: JobState, message: string, nextRun: int, now: int)
    requires Inv(t)
    ensures Inv(Finish(t, id, owner, state, message, nextRun, now).0)
  {
    var i := FindHeld(t, id, owner, 0);
    hide FindHeld, FindActive, Inv;
    if !state.Pending? && !state.Running? && i < |t| {
      var done := t[i].(state := state, nextRun := nextRun, owner := "", leaseExpires := 0, lastError := message, updated := now);
      if !(state.RetryWait? && !Active(t[i]) && FindActive(t, t[i].key, 0) < |t|) {
        ReplaceKeepsInv(t, i, done);
      }
    }
  }

  lemma {:induction false} RenewKeepsInv(t: Table, id: string, owner: string, now: int, lease: int)
    requires Inv(t)
    ensures Inv(Renew(t, id, owner, now, lease).0)
  {
    var i := FindHeld(t, id, owner, 0);
    hide FindHeld, FindActive, Inv;
    if lease > 0 && i < |t| && t[i].state.Running? {
      OwnerWhileRunning(t, i);
      ReplaceKeepsInv(t, i, t[i].(leaseExpires := now + lease, updated := now));
    }
  }

  lemma {:induction false} PerformKeepsInv(t: Table, op: Op)
    requires Inv(t)
    ensures Inv(Perform(t, op))
  {
    hide Inv, FindActive, Candidates, LeaseAll, ForceEnqueue, Finish, Renew, HasId, NewJob, LeaseSeconds, Leasable;
    match op
    case EnqueueOp(id, key, nextRun, now) =>
      if ValidKey(key) && FindActive(t, key, 0) == |t| && !HasId(t, id) {
        AppendKeepsInv(t, id, key, nextRun, now);
      }
    case ForceOp(id, key, now) => ForceKeepsInv(t, id, key, now);
    case ClaimOp(owner, now, lease, limit) =>
      if owner != "" {
        CandidatesLeasable(t, now, limit);
        LeaseKeepsInv(t, Candidates(t, now, limit), owner, now, LeaseSeconds(lease));
      }
    case FinishOp(id, owner, state, message, nextRun, now) => FinishKeepsInv(t, id, owner, state, message, nextRun, now);
    case RenewOp(id, owner, now, lease) => RenewKeepsInv(t, id, owner, now, lease);
  }

  /** Whatever operations ran, in whatever order and with whatever clocks, an empty table has
      become one with at most one active job for each target. */
  lemma {:induction false} EveryRunKeepsInv(t: Table, ops: seq<Op>)
    requires Inv(t)
    ensures Inv(Run(t, ops))
    decreases |ops|
  {
    hide Inv, Perform;
    if ops != [] {
      PerformKeepsInv(t, ops[0]);
      EveryRunKeepsInv(Perform(t, ops[0]), ops[1..]);
    }
  }

  // ----- Leases -----

  /** One step cannot touch a job under an unexpired lease unless its owner acts. */
  ghost predicate Outsider(j: Job, op: Op) {
    match op
    case EnqueueOp(_, _, _, _) => true
    case ForceOp(_, _, now) => now < j.leaseExpires
    case ClaimOp(_, now, _, _) => now < j.leaseExpires
    case FinishOp(id, owner, _, _, _, _) => !(id == j.id && owner == j.owner)
    case RenewOp(id, owner, _, _) => !(id == j.id && owner == j.owner)
  }

  lemma {:induction false} HeldOnePerform(t: Table, i: nat, op: Op)
    requires Inv(t) && i < |t| && t[i].state.Running? && Outsider(t[i], op)
    ensures i < |Perform(t, op)| && Perform(t, op)[i] == t[i]
  {
    hide Inv, FindActive, Candidates, FindHeld, HasId;
    match op
    case EnqueueOp(_, _, _, _) =>
    case ForceOp(_, key, now) =>
    case ClaimOp(_, now, _, limit) =>
      if i in Candidates(t, now, limit) {
        CandidateRow(t, now, limit, i);
      }
    case FinishOp(_, _, _, _, _, _) =>
    case RenewOp(_, _, _, _) =>
  }

  /** A lease is exclusive: while it has not expired, a running job stays its owner's through
      every run in which the owner does not act on it, and no second job for the same target
      becomes active, so nobody else is ever handed that target. */
  lemma {:induction false} LeaseExclusive(t: Table, i: nat, ops: seq<Op>)
    requires Inv(t) && i < |t| && t[i].state.Running?
    requires forall k | 0 <= k < |ops| :: Outsider(t[i], ops[k])
    ensures var r := Run(t, ops);
            && i < |r| && r[i] == t[i]
            && forall k | 0 <= k < |r| && Active(r[k]) && r[k].key == t[i].key :: k == i
    decreases |ops|
  {
    hide Perform, Outsider;
    if ops != [] {
      HeldOnePerform(t, i, ops[0]);
      PerformKeepsInv(t, ops[0]);
      LeaseExclusive(Perform(t, ops[0]), i, ops[1..]);
    }
  }

  // ----- Fencing -----

  lemma {:induction false} NotHeld(t: Table, i: nat, owner: string)
    requires Inv(t) && i < |t| && t[i].owner != owner
    ensures FindHeld(t, t[i].id, owner, 0) == |t|
  {
    var k := FindHeld(t, t[i].id, owner, 0);
    if k < |t| {
      assert false;
    }
  }

  lemma {:induction false} FencedOnePerform(t: Table, i: nat, owner: string, op: Op)
    requires i < |t| && owner != "" && t[i].owner != owner
    requires !(op.ClaimOp? && op.owner == owner)
    ensures var r := Perform(t, op); i < |r| && r[i].id == t[i].id && r[i].owner != owner
  {
    hide FindActive, Candidates, FindHeld, HasId;
  }

  /** Once a job is not an owner's any more, because it was finished, claimed by another owner
      or replaced by a forced retry, that owner's finish and renewal are refused and change
      nothing, through every later run in which that owner claims nothing. */
  lemma {:induction false} Fenced(t: Table, i: nat, owner: string, ops: seq<Op>, finish: Op, renew: Op)
    requires Inv(t) && i < |t| && owner != "" && t[i].owner != owner
    requires forall k | 0 <= k < |ops| :: !(ops[k].ClaimOp? && ops[k].owner == owner)
    requires finish.FinishOp? && finish.id == t[i].id && finish.owner == owner
    requires renew.RenewOp? && renew.id == t[i].id && renew.owner == owner
    ensures var r := Run(t, ops);
            && Perform(r, finish) == r
            && Perform(r, renew) == r
            && Finish(r, finish.id, owner, finish.state, finish.message, finish.nextRun, finish.now).1.Some?
            && Renew(r, renew.id, owner, renew.now, renew.lease).1.Some?
    decreases |ops|
  {
    if ops == [] {
      NotHeld(t, i, owner);
    } else {
      hide Perform;
      FencedOnePerform(t, i, owner, ops[0]);
      PerformKeepsInv(t, ops[0]);
      Fenced(Perform(t, ops[0]), i, owner, ops[1..], finish, renew);
    }
  }

  /** The two ways a job leaves its owner: another owner's claim after expiry, and a forced
      retry after expiry. */
  lemma {:induction false} LosesLease(t: Table, i: nat, owner: string, op: Op)
    requires Inv(t) && i < |t| && t[i].state.Running? && t[i].owner == owner
    ensures op.ClaimOp? && op.owner != owner && op.owner != "" && i in Candidates(t, op.now, op.limit)
            ==> Perform(t, op)[i].owner != owner
    ensures op.ForceOp? && ValidKey(op.key) && op.key == t[i].key && t[i].leaseExpires <= op.now && !HasId(t, op.id)
            ==> Perform(t, op)[i].owner != owner && Perform(t, op)[i].state.Failed?
                && Perform(t, op)[|t|].state.Pending? && Perform(t, op)[|t|].key == op.key
  {
    hide HasId, Candidates;
    if op.ForceOp? && op.key == t[i].key {
      assert FindActive(t, op.key, 0) == i by { FindsOnly(t, i); }
    }
  }

  lemma {:induction false} FindsOnly(t: Table, i: nat)
    requires Inv(t) && i < |t| && Active(t[i])
    ensures FindActive(t, t[i].key, 0) == i
  {
    var k := FindActive(t, t[i].key, 0);
    assert k <= i;
    assert Active(t[k]) && t[k].key == t[i].key;
  }

  // ----- Finished jobs -----

  predicate Terminal(j: Job) {
    !Active(j)
  }

  lemma {:induction false} TerminalOnePerform(t: Table, i: nat, op: Op)
    requires Inv(t) && i < |t| && Terminal(t[i])
    requires !(op.FinishOp? && op.owner == "" && op.id == t[i].id)
    ensures i < |Perform(t, op)| && Perform(t, op)[i] == t[i]
  {
    hide FindHeld, Candidates, HasId;
    match op
    case EnqueueOp(_, _, _, _) =>
    case ForceOp(_, key, now) => hide Inv;
    case ClaimOp(_, now, _, limit) =>
      hide Inv;
      if i in Candidates(t, now, limit) {
        CandidateRow(t, now, limit, i);
      }
    case FinishOp(id, owner, _, _, _, _) =>
      OwnerWhileRunning(t, i);
    case RenewOp(_, _, _, _) =>
      OwnerWhileRunning(t, i);
  }

  /** A finished job never changes again while every worker finishes under its own name. */
  lemma {:induction false} FinishedStays(t: Table, i: nat, ops: seq<Op>)
    requires Inv(t) && i < |t| && Terminal(t[i])
    requires forall k | 0 <= k < |ops| :: !(ops[k].FinishOp? && ops[k].owner == "" && ops[k].id == t[i].id)
    ensures i < |Run(t, ops)| && Run(t, ops)[i] == t[i]
    decreases |ops|
  {
    hide Perform, Terminal, Inv;
    if ops != [] {
      TerminalOnePerform(t, i, ops[0]);
      PerformKeepsInv(t, ops[0]);
      FinishedStays(Perform(t, ops[0]), i, ops[1..]);
    }
  }

  /** Without a name it does change: the guard compares owners only, and a finished job has
      none, so a nameless retry revives it whenever its target has no active job. */
  lemma {:induction false} NamelessRevives(t: Table, i: nat, message: string, nextRun: int, now: int)
    requires Inv(t) && i < |t| && Terminal(t[i])
    ensures var r := Perform(t, FinishOp(t[i].id, "", RetryWait, message, nextRun, now));
            Active(r[i]) <==> forall k | 0 <= k < |t| :: !(Active(t[k]) && t[k].key == t[i].key)
  {
    OwnerWhileRunning(t, i);
    var h := FindHeld(t, t[i].id, "", 0);
    assert h == i;
  }

  /** Fencing goes by the owner's name only: when a job whose worker was still at it has been handed
      out again, the first worker's late result is accepted exactly if both use one name. */
  lemma {:induction false} LateFinishIff(t: Table, i: nat, claim: Op, state: JobState, message: string, nextRun: int, now: int)
    requires Inv(t) && i < |t| && t[i].state.Running? && !state.Pending? && !state.Running?
    requires claim.ClaimOp? && claim.owner != "" && i in Candidates(t, claim.now, claim.limit)
    ensures var c := Perform(t, claim);
            var (done, first) := Finish(c, t[i].id, t[i].owner, state, message, nextRun, now);
            && |c| == |t| == |done| && c[i].state.Running? && c[i].owner == claim.owner
            && (first == None <==> t[i].owner == claim.owner)
            && (done[i].state == state <==> t[i].owner == claim.owner)
            && (t[i].owner != claim.owner ==> done == c && first == Some(LeaseLost))
  {
    hide Candidates;
    OwnerWhileRunning(t, i);
    PerformKeepsInv(t, claim);
    var c := Perform(t, claim);
    HeldIs(c, i);
    if t[i].owner != claim.owner {
      NotHeld(c, i, t[i].owner);
    }
  }

  /** So a second worker with the same name does not fence the first, whose late result is taken
      as the outcome, and the second one's is then refused. */
  lemma {:induction false} SameOwnerNotFenced(t: Table, i: nat, claim: Op, message: string, now: int)
    requires Inv(t) && i < |t| && t[i].state.Running?
    requires claim.ClaimOp? && claim.owner == t[i].owner && i in Candidates(t, claim.now, claim.limit)
    ensures var c := Perform(t, claim);
            var (done, first) := Finish(c, t[i].id, claim.owner, Success, message, 0, now);
            && |c| == |t| && c[i].state.Running? && c[i].owner == t[i].owner && c[i].attempt == t[i].attempt + 1
            && first == None && done[i].state == Success
            && Finish(done, t[i].id, claim.owner, Success, message, 0, now).1 == Some(LeaseLost)
  {
    hide Candidates;
    OwnerWhileRunning(t, i);
    PerformKeepsInv(t, claim);
    var c := Perform(t, claim);
    HeldIs(c, i);
    FinishKeepsInv(c, t[i].id, claim.owner, Success, message, 0, now);
    NotHeld(Finish(c, t[i].id, claim.owner, Success, message, 0, now).0, i, claim.owner);
  }

  lemma {:induction false} HeldIs(t: Table, i: nat)
    requires Inv(t) && i < |t|
    ensures FindHeld(t, t[i].id, t[i].owner, 0) == i
  {
    var k := FindHeld(t, t[i].id, t[i].owner, 0);
    assert k <= i && t[k].id == t[i].id;
  }

  /** An action that cannot end a lease running until the deadline. */
  predicate HarmlessUntil(deadline: int, id: string, owner: string, op: Op) {
    match op
    case EnqueueOp(_, _, _, _) => true
    case ForceOp(_, _, now) => now < deadline
    case ClaimOp(_, now, _, _) => now < deadline
    case FinishOp(i, o, _, _, _, _) => !(i == id && o == owner)
    case RenewOp(i, o, _, _) => !(i == id && o == owner)
  }

  lemma {:induction false} HarmlessOutsider(j: Job, op: Op)
    requires HarmlessUntil(j.leaseExpires, j.id, j.owner, op)
    ensures Outsider(j, op)
  {
  }

  /** A claim or renewal holds for the time asked for: a job handed out, or renewed by its owner,
      stays that owner's and running through every run before its end, one minute by default. */
  lemma {:induction false} LeaseLasts(t: Table, i: nat, op: Op, ops: seq<Op>)
    requires Inv(t) && i < |t|
    requires (op.ClaimOp? && op.owner != "" && i in Candidates(t, op.now, op.limit))
             || (op.RenewOp? && op.lease > 0 && t[i].state.Running? && op.id == t[i].id && op.owner == t[i].owner)
    requires var deadline := op.now + if op.lease <= 0 then 60 else op.lease;
             forall k | 0 <= k < |ops| :: HarmlessUntil(deadline, t[i].id, op.owner, ops[k])
    ensures var r := Run(Perform(t, op), ops);
            i < |r| && r[i].id == t[i].id && r[i].state.Running? && r[i].owner == op.owner
  {
    var u := Perform(t, op);
    assert |u| == |t| && u[i].id == t[i].id && u[i].state.Running? && u[i].owner == op.owner
           && u[i].leaseExpires == op.now + (if op.lease <= 0 then 60 else op.lease) by {
      hide Candidates, HarmlessUntil;
      if op.RenewOp? {
        HeldIs(t, i);
      }
    }
    PerformKeepsInv(t, op);
    hide Perform, Inv, HarmlessUntil, Candidates;
    forall k | 0 <= k < |ops| ensures Outsider(u[i], ops[k]) {
      HarmlessOutsider(u[i], ops[k]);
    }
    LeaseExclusive(u, i, ops);
  }
}
