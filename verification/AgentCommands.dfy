/** The command queue of pull-mode nodes: at-least-once delivery under leases, results recorded
    at most once, commands that outlive their time to live swept. */
module AgentCommands {
  import opened Outcomes

  const DEFAULT_TTL := 300
  const DEFAULT_LEASE := 60
  const DEFAULT_BATCH := 16

  datatype Status = Pending | Leased | Succeeded | Failed | Expired

  datatype Command = Command(
    id: string, node: string, status: Status, attempt: nat, leaseExpires: int,
    result: string, error: string, created: int, completed: int, expires: int)

  type Table = seq<Command>

  datatype Error = Invalid | IdTaken | NotFound | StoreFailed

  /** Where the store fails during a lease; updates already written stay written. */
  datatype Fault = NoFault | AtSweep | AtQuery | AtUpdate(done: nat)

  predicate Terminal(c: Command) {
    c.status.Succeeded? || c.status.Failed? || c.status.Expired?
  }

  function FindId(t: Table, id: string, i: nat): (r: nat)
    requires i <= |t|
    ensures i <= r <= |t|
    ensures r < |t| ==> t[r].id == id
    ensures forall k | i <= k < r :: t[k].id != id
    decreases |t| - i
  {
    if i == |t| || t[i].id == id then i else FindId(t, id, i + 1)
  }

  // ----- Create -----

  function Create(t: Table, id: string, node: string, expires: int, now: int): (Table, Result<nat, Error>) {
    if node == "" then (t, Err(Invalid))
    else if FindId(t, id, 0) < |t| then (t, Err(IdTaken))
    else (t + [Command(id, node, Pending, 0, 0, "", "", now, 0, if expires == 0 then now + DEFAULT_TTL else expires)], Ok(|t|))
  }

  // ----- Lease -----

  predicate PastTtl(c: Command, now: int) {
    (c.status.Pending? || c.status.Leased?) && 0 < c.expires <= now
  }

  function Swept(c: Command, node: string, now: int): Command {
    if c.node == node && PastTtl(c, now) then c.(status := Expired, completed := now, error := "not executed in time") else c
  }

  function Sweep(t: Table, node: string, now: int): (r: Table)
    ensures |r| == |t|
  {
    seq(|t|, i requires 0 <= i < |t| => Swept(t[i], node, now))
  }

  predicate Deliverable(c: Command, node: string, now: int) {
    c.node == node && (c.status.Pending? || (c.status.Leased? && c.leaseExpires <= now))
  }

  /** What the query may answer: deliverable rows, each once, oldest first, and a deliverable row
      is left out only when the batch is full of rows no younger. Ties may fall either way. */
  ghost predicate Selected(t: Table, node: string, now: int, limit: nat, rows: seq<nat>) {
    && |rows| <= limit
    && (forall p | 0 <= p < |rows| :: rows[p] < |t| && Deliverable(t[rows[p]], node, now))
    && (forall p, q | 0 <= p < q < |rows| :: rows[p] != rows[q] && t[rows[p]].created <= t[rows[q]].created)
    && (forall k: nat | k < |t| && Deliverable(t[k], node, now) && k !in rows ::
          |rows| == limit && forall p | 0 <= p < |rows| :: t[rows[p]].created <= t[k].created)
  }

  function Batch(limit: int): nat {
    if limit <= 0 then DEFAULT_BATCH else limit
  }

  function LeaseSeconds(lease: int): (r: int)
    ensures r > 0
  {
    if lease <= 0 then DEFAULT_LEASE else lease
  }

  function Claimed(c: Command, now: int, lease: int): Command {
    c.(status := Leased, attempt := c.attempt + 1, leaseExpires := now + lease)
  }

  function ClaimFirst(t: Table, rows: seq<nat>, n: nat, now: int, lease: int): (r: Table)
    requires n <= |rows|
    ensures |r| == |t|
  {
    seq(|t|, i requires 0 <= i < |t| => if i in rows[..n] then Claimed(t[i], now, lease) else t[i])
  }

  /** How many rows a lease updates before it fails or ends. */
  function Updates(rows: seq<nat>, fault: Fault): (n: nat)
    ensures n <= |rows|
  {
    match fault
    case NoFault => |rows|
    case AtUpdate(done) => if done < |rows| then done else |rows|
    case _ => 0
  }

  predicate Hit(rows: seq<nat>, fault: Fault) {
    fault.AtSweep? || fault.AtQuery? || (fault.AtUpdate? && fault.done < |rows|)
  }

  function Lease(t: Table, node: string, lease: int, now: int, rows: seq<nat>, fault: Fault): (Table, Result<seq<nat>, Error>) {
    if node == "" then (t, Err(Invalid))
    else if fault.AtSweep? then (t, Err(StoreFailed))
    else
      (ClaimFirst(Sweep(t, node, now), rows, Updates(rows, fault), now, LeaseSeconds(lease)),
       if Hit(rows, fault) then Err(StoreFailed) else Ok(rows))
  }

  // ----- Complete -----

  function Complete(t: Table, id: string, ok: bool, result: string, error: string, now: int, fails: bool): (Table, Result<bool, Error>) {
    var i := FindId(t, id, 0);
    if i == |t| then (t, Err(NotFound))
    else if Terminal(t[i]) then (t, Ok(false))
    else if fails then (t, Err(StoreFailed))
    else
      (t[i := t[i].(status := if ok then Succeeded else Failed, result := result, error := error, completed := now, leaseExpires := 0)],
       Ok(true))
  }

  // ----- The store object -----

  class CommandStore {
    var rows: Table

    constructor ()
      ensures rows == []
    {
      rows := [];
    }

    method CreateCommand(id: string, node: string, expires: int, now: int) returns (r: Result<nat, Error>)
      modifies this
      ensures (rows, r) == Create(old(rows), id, node, expires, now)
      ensures Created(old(rows), id, node, expires, now, rows, r)
    {
      CreateSpec(rows, id, node, expires, now);
      hide Created;
      if node == "" {
        return Err(Invalid);
      }
      if FindId(rows, id, 0) < |rows| {
        return Err(IdTaken);
      }
      var ttlEnd := expires;
      if expires == 0 {
        ttlEnd := now + DEFAULT_TTL;
      }
      r := Ok(|rows|);
      rows := rows + [Command(id, node, Pending, 0, 0, "", "", now, 0, ttlEnd)];
    }

    method SweepExpired(node: string, now: int)
      modifies this
      ensures rows == Sweep(old(rows), node, now)
    {
      var k := 0;
      while k < |rows|
        invariant 0 <= k <= |rows| == |old(rows)|
        invariant forall i | 0 <= i < |rows| :: rows[i] == if i < k then Swept(old(rows)[i], node, now) else old(rows)[i]
      {
        rows := rows[k := Swept(rows[k], node, now)];
        k := k + 1;
      }
    }

    method LeaseCommands(node: string, limit: int, lease: int, now: int, answer: seq<nat>, fault: Fault) returns (r: Result<seq<nat>, Error>)
      requires Answer(rows, node, limit, now, answer)
      modifies this
      ensures (rows, r) == Lease(old(rows), node, lease, now, answer, fault)
      ensures Leases(old(rows), node, lease, now, answer, fault, rows, r)
    {
      LeaseSpec(rows, node, limit, lease, now, answer, fault);
      SelectedIff(rows, node, limit, now, answer);
      hide Leases, Answer, Selected, Deliverable, Sweep, Swept, LeaseSeconds, Claimed, Batch, ClaimFirst, DistinctRows;
      if node == "" {
        return Err(Invalid);
      }
      if fault.AtSweep? {
        return Err(StoreFailed);
      }
      SelectedRows(Sweep(rows, node, now), node, now, Batch(limit), answer);
      SweepExpired(node, now);
      ghost var swept := rows;
      var seconds := LeaseSeconds(lease);
      NoneClaimed(swept, answer, now, seconds);
      if fault.AtQuery? {
        return Err(StoreFailed);
      }
      var k := 0;
      while k < |answer|
        invariant 0 <= k <= |answer|
        invariant fault.AtUpdate? ==> k <= fault.done
        invariant rows == ClaimFirst(swept, answer, k, now, seconds)
      {
        if fault.AtUpdate? && fault.done == k {
          return Err(StoreFailed);
        }
        ClaimNext(swept, answer, k, now, seconds);
        rows := rows[answer[k] := Claimed(rows[answer[k]], now, seconds)];
        k := k + 1;
      }
      return Ok(answer);
    }

    method CompleteCommand(id: string, ok: bool, result: string, error: string, now: int, fails: bool) returns (r: Result<bool, Error>)
      modifies this
      ensures (rows, r) == Complete(old(rows), id, ok, result, error, now, fails)
      ensures |rows| == |old(rows)| && (r != Ok(true) ==> rows == old(rows))
      ensures forall i | 0 <= i < |rows| && Terminal(old(rows)[i]) :: rows[i] == old(rows)[i]
      ensures forall i | 0 <= i < |rows| && rows[i] != old(rows)[i] ::
                && rows[i].id == old(rows)[i].id == id && rows[i].result == result && rows[i].error == error
                && rows[i].status == if ok then Succeeded else Failed
      ensures DistinctIds(old(rows)) ==>
                DistinctIds(rows)
                && forall i | 0 <= i < |rows| && rows[i].id == id ::
                     && (r == Ok(false) <==> Terminal(old(rows)[i])) && (r == Ok(true) <==> !Terminal(old(rows)[i]) && !fails)
                     && (r == Ok(true) ==> Terminal(rows[i]))
      ensures r == Err(NotFound) <==> forall i | 0 <= i < |rows| :: old(rows)[i].id != id
      ensures DistinctIds(old(rows)) ==> Completes(old(rows), id, ok, result, error, now, fails, rows, r)
    {
      if DistinctIds(rows) {
        CompleteSpec(rows, id, ok, result, error, now, fails);
      }
      hide Completes;
      var i := FindId(rows, id, 0);
      if i == |rows| {
        return Err(NotFound);
      }
      if Terminal(rows[i]) {
        return Ok(false);
      }
      if fails {
        return Err(StoreFailed);
      }
      var status := if ok then Succeeded else Failed;
      rows := rows[i := rows[i].(status := status, result := result, error := error, completed := now, leaseExpires := 0)];
      return Ok(true);
    }
  }

  ghost predicate DistinctRows(t: Table, rows: seq<nat>) {
    && (forall p | 0 <= p < |rows| :: rows[p] < |t|)
    && (forall p, q | 0 <= p < q < |rows| :: rows[p] != rows[q])
  }

  lemma {:induction false} SelectedRows(t: Table, node: string, now: int, limit: nat, rows: seq<nat>)
    requires Selected(t, node, now, limit, rows)
    ensures DistinctRows(t, rows)
  {
  }

  lemma {:induction false} NoneClaimed(t: Table, rows: seq<nat>, now: int, lease: int)
    ensures ClaimFirst(t, rows, 0, now, lease) == t
  {
    hide Claimed;
  }

  lemma {:induction false} ClaimNext(t: Table, rows: seq<nat>, k: nat, now: int, lease: int)
    requires DistinctRows(t, rows) && k < |rows|
    ensures ClaimFirst(t, rows, k, now, lease)[rows[k]] == t[rows[k]]
    ensures ClaimFirst(t, rows, k + 1, now, lease) == ClaimFirst(t, rows, k, now, lease)[rows[k] := Claimed(t[rows[k]], now, lease)]
  {
    hide Claimed;
    assert rows[..k + 1] == rows[..k] + [rows[k]];
    assert rows[k] !in rows[..k];
  }

  // ----- The operations, row by row -----

  /** A new row, that may be delivered until the time asked for, or five minutes from now. */
  ghost predicate Created(t: Table, id: string, node: string, expires: int, now: int, u: Table, r: Result<nat, Error>) {
    if node == "" then u == t && r == Err(Invalid)
    else if exists i | 0 <= i < |t| :: t[i].id == id then u == t && r == Err(IdTaken)
    else
      && |u| == |t| + 1 && u[..|t|] == t && r == Ok(|t|)
      && u[|t|] == Command(id, node, Pending, 0, 0, "", "", now, 0, if expires != 0 then expires else now + 300)
  }

  lemma {:induction false} CreateSpec(t: Table, id: string, node: string, expires: int, now: int)
    ensures Created(t, id, node, expires, now, Create(t, id, node, expires, now).0, Create(t, id, node, expires, now).1)
  {
    var i := FindId(t, id, 0);
    assert i < |t| ==> t[i].id == id;
  }

  /** A row a lease may hand out: the node's, within its time to live, and waiting or leased for a
      time that has ended. */
  predicate Answerable(c: Command, node: string, now: int) {
    && c.node == node && !(0 < c.expires && c.expires <= now)
    && (c.status == Pending || (c.status == Leased && c.leaseExpires <= now))
  }

  /** What the query of a lease may answer, in terms of the rows before the sweep: answerable ones,
      each once, oldest first, at most the batch; one is left out only for no younger ones in a full
      batch. */
  ghost predicate Answer(t: Table, node: string, limit: int, now: int, rows: seq<nat>) {
    var batch := if limit > 0 then limit else 16;
    && |rows| <= batch
    && (forall p | 0 <= p < |rows| :: rows[p] < |t| && Answerable(t[rows[p]], node, now))
    && (forall p, q | 0 <= p < q < |rows| :: rows[p] != rows[q] && t[rows[p]].created <= t[rows[q]].created)
    && (forall i: nat | i < |t| && Answerable(t[i], node, now) && i !in rows ::
          |rows| == batch && forall p | 0 <= p < |rows| :: t[rows[p]].created <= t[i].created)
  }

  lemma {:induction false} SelectedIff(t: Table, node: string, limit: int, now: int, rows: seq<nat>)
    ensures Selected(Sweep(t, node, now), node, now, Batch(limit), rows) <==> Answer(t, node, limit, now, rows)
  {
    var u := Sweep(t, node, now);
    assert forall i | 0 <= i < |t| :: u[i].created == t[i].created && (Deliverable(u[i], node, now) <==> Answerable(t[i], node, now));
    hide Deliverable, Answerable, Swept;
  }

  /** A lease: overdue rows of the node expire; of the answered rows the first n, all unless an update
      fails, are leased with one attempt more; no other row changes. */
  ghost predicate Leases(t: Table, node: string, lease: int, now: int, rows: seq<nat>, fault: Fault, u: Table, r: Result<seq<nat>, Error>) {
    if node == "" then u == t && r == Err(Invalid)
    else if fault == AtSweep then u == t && r == Err(StoreFailed)
    else
      var n := match fault case AtQuery => 0 case AtUpdate(done) => (if done < |rows| then done else |rows|) case _ => |rows|;
      var until := now + if lease > 0 then lease else 60;
      && |u| == |t|
      && (forall i: nat | i < |t| ::
            u[i] == if i in rows[..n] then t[i].(status := Leased, attempt := t[i].attempt + 1, leaseExpires := until)
                    else if t[i].node == node && (t[i].status == Pending || t[i].status == Leased) && 0 < t[i].expires && t[i].expires <= now
                    then t[i].(status := Expired, completed := now, error := "not executed in time")
                    else t[i])
      && (r == if fault == AtQuery || n < |rows| then Err(StoreFailed) else Ok(rows))
  }

  lemma {:induction false} LeaseSpec(t: Table, node: string, limit: int, lease: int, now: int, rows: seq<nat>, fault: Fault)
    requires Answer(t, node, limit, now, rows)
    ensures Leases(t, node, lease, now, rows, fault, Lease(t, node, lease, now, rows, fault).0, Lease(t, node, lease, now, rows, fault).1)
  {
    var n := Updates(rows, fault);
    forall i: nat | i < |t| && i in rows[..n] ensures Swept(t[i], node, now) == t[i] {
      var p :| 0 <= p < n && rows[p] == i;
      assert Answerable(t[rows[p]], node, now);
    }
  }

  /** A report: an unfinished command takes the result, a finished one is left as it is. */
  ghost predicate Completes(t: Table, id: string, ok: bool, result: string, error: string, now: int, fails: bool, u: Table, r: Result<bool, Error>) {
    && ((forall i | 0 <= i < |t| :: t[i].id != id) ==> u == t && r == Err(NotFound))
    && forall i | 0 <= i < |t| && t[i].id == id ::
         if t[i].status == Pending || t[i].status == Leased then
           if fails then u == t && r == Err(StoreFailed)
           else
             && u == t[i := t[i].(status := if ok then Succeeded else Failed, result := result, error := error, completed := now, leaseExpires := 0)]
             && r == Ok(true)
         else u == t && r == Ok(false)
  }

  lemma {:induction false} CompleteSpec(t: Table, id: string, ok: bool, result: string, error: string, now: int, fails: bool)
    requires DistinctIds(t)
    ensures Completes(t, id, ok, result, error, now, fails, Complete(t, id, ok, result, error, now, fails).0,
                      Complete(t, id, ok, result, error, now, fails).1)
  {
    var f := FindId(t, id, 0);
    assert forall i | 0 <= i < |t| && t[i].id == id :: i == f;
  }

  // ----- Runs -----

  datatype Action =
    | CreateAction(id: string, node: string, expires: int)
    | LeaseAction(node: string, limit: int, lease: int, rows: seq<nat>, fault: Fault)
    | CompleteAction(id: string, ok: bool, result: string, error: string, fails: bool)

  datatype Step = Step(now: int, action: Action)

  datatype Delivery = Delivery(row: nat, time: int, lease: int)

  /** The stored rows, everything handed to nodes so far, and the latest clock reading. */
  datatype Queue = Queue(rows: Table, log: seq<Delivery>, clock: int)

  function Deliveries(rows: seq<nat>, time: int, lease: int): (r: seq<Delivery>)
    ensures |r| == |rows|
    ensures forall p | 0 <= p < |rows| :: r[p] == Delivery(rows[p], time, lease)
  {
    seq(|rows|, p requires 0 <= p < |rows| => Delivery(rows[p], time, lease))
  }

  function Next(q: Queue, s: Step): Queue {
    match s.action
    case CreateAction(id, node, expires) =>
      Queue(Create(q.rows, id, node, expires, s.now).0, q.log, s.now)
    case LeaseAction(node, _, lease, rows, fault) =>
      var (t, r) := Lease(q.rows, node, lease, s.now, rows, fault);
      Queue(t, if r.Ok? then q.log + Deliveries(rows, s.now, LeaseSeconds(lease)) else q.log, s.now)
    case CompleteAction(id, ok, result, error, fails) =>
      Queue(Complete(q.rows, id, ok, result, error, s.now, fails).0, q.log, s.now)
  }

  /** The clock does not go back, and queries answer what they promise. */
  ghost predicate Allowed(q: Queue, s: Step) {
    && q.clock <= s.now
    && (s.action.LeaseAction? ==>
          Selected(Sweep(q.rows, s.action.node, s.now), s.action.node, s.now, Batch(s.action.limit), s.action.rows))
  }

  function Run(q: Queue, steps: seq<Step>): Queue
    decreases |steps|
  {
    if steps == [] then q else Run(Next(q, steps[0]), steps[1..])
  }

  ghost predicate RunAllowed(q: Queue, steps: seq<Step>)
    decreases |steps|
  {
    steps == [] || (Allowed(q, steps[0]) && RunAllowed(Next(q, steps[0]), steps[1..]))
  }

  ghost predicate DistinctIds(t: Table) {
    forall i, j | 0 <= i < j < |t| :: t[i].id != t[j].id
  }

  lemma {:induction false} NextRows(q: Queue, s: Step)
    ensures |q.rows| <= |Next(q, s).rows|
    ensures forall i | 0 <= i < |q.rows| ::
              var c := q.rows[i]; var d := Next(q, s).rows[i];
              && d.id == c.id && d.node == c.node && d.created == c.created && d.expires == c.expires
              && (Terminal(c) && !(s.action.LeaseAction? && i in s.action.rows) ==> d == c)
    ensures DistinctIds(q.rows) ==> DistinctIds(Next(q, s).rows)
  {
  }

  /** A command that has a result, or has expired, never changes again. */
  lemma {:induction false} FinishedStays(q: Queue, steps: seq<Step>, i: nat)
    requires RunAllowed(q, steps) && i < |q.rows| && Terminal(q.rows[i])
    ensures i < |Run(q, steps).rows| && Run(q, steps).rows[i] == q.rows[i]
    decreases |steps|
  {
    if steps != [] {
      NextRows(q, steps[0]);
      NotSelected(q, steps[0], i);
      hide Next, Allowed;
      FinishedStays(Next(q, steps[0]), steps[1..], i);
    }
  }

  lemma {:induction false} NotSelected(q: Queue, s: Step, i: nat)
    requires Allowed(q, s) && i < |q.rows| && Terminal(q.rows[i])
    ensures s.action.LeaseAction? ==> i !in s.action.rows
  {
    if s.action.LeaseAction? {
      var t := Sweep(q.rows, s.action.node, s.now);
      assert t[i] == q.rows[i];
      assert !Deliverable(t[i], s.action.node, s.now);
    }
  }

  /** Whether a step records a result for the command with this id. */
  predicate Applies(q: Queue, s: Step, id: string) {
    s.action.CompleteAction? && s.action.id == id
    && Complete(q.rows, id, s.action.ok, s.action.result, s.action.error, s.now, s.action.fails).1 == Ok(true)
  }

  function Applications(q: Queue, steps: seq<Step>, id: string): nat
    decreases |steps|
  {
    if steps == [] then 0
    else (if Applies(q, steps[0], id) then 1 else 0) + Applications(Next(q, steps[0]), steps[1..], id)
  }

  lemma {:induction false} NoneAfterFinish(q: Queue, steps: seq<Step>, id: string)
    requires RunAllowed(q, steps) && FindId(q.rows, id, 0) < |q.rows| && Terminal(q.rows[FindId(q.rows, id, 0)])
    ensures Applications(q, steps, id) == 0
    decreases |steps|
  {
    if steps != [] {
      var i := FindId(q.rows, id, 0);
      NextRows(q, steps[0]);
      NotSelected(q, steps[0], i);
      SameFirst(q.rows, Next(q, steps[0]).rows, id);
      hide Next, Allowed;
      NoneAfterFinish(Next(q, steps[0]), steps[1..], id);
    }
  }

  lemma {:induction false} SameFirst(t: Table, u: Table, id: string)
    requires |t| <= |u| && forall i | 0 <= i < |t| :: u[i].id == t[i].id
    requires FindId(t, id, 0) < |t|
    ensures FindId(u, id, 0) == FindId(t, id, 0)
  {
    var i := FindId(t, id, 0);
    assert u[i].id == id;
  }

  /** However often a node reports, and however often a command is delivered, one result is
      recorded at most. */
  lemma {:induction false} AppliedAtMostOnce(q: Queue, steps: seq<Step>, id: string)
    requires RunAllowed(q, steps)
    ensures Applications(q, steps, id) <= 1
    decreases |steps|
  {
    hide Allowed;
    if steps != [] {
      if Applies(q, steps[0], id) {
        NoneAfterFinish(Next(q, steps[0]), steps[1..], id) by {
          FinishesFirst(q, steps[0], id);
        }
      } else {
        AppliedAtMostOnce(Next(q, steps[0]), steps[1..], id);
      }
    }
  }

  lemma {:induction false} FinishesFirst(q: Queue, s: Step, id: string)
    requires Applies(q, s, id)
    ensures var t := Next(q, s).rows; FindId(t, id, 0) < |t| && Terminal(t[FindId(t, id, 0)])
  {
    SameFirst(q.rows, Next(q, s).rows, id);
  }

  /** The first result reported is the one kept: it is recorded as reported and never changes. */
  lemma {:induction false} RecordedForGood(q: Queue, s: Step, later: seq<Step>, id: string)
    requires DistinctIds(q.rows) && Applies(q, s, id) && RunAllowed(Next(q, s), later)
    ensures var i := FindId(q.rows, id, 0);
            var t := Run(Next(q, s), later).rows;
            && i < |q.rows| && i < |t| && t[i].id == id && t[i].completed == s.now
            && t[i].result == s.action.result && t[i].error == s.action.error
            && (t[i].status == if s.action.ok then Succeeded else Failed)
  {
    hide RunAllowed;
    FinishedStays(Next(q, s), later, FindId(q.rows, id, 0));
  }
}
