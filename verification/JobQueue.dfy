/**
 The durable job table of `api/jobs_sqlite.py`: one row per job, and the five SQL
 writes that ever touch it. The row functions are the SET clauses; the class runs
 them against a table it updates in place. Every clock reading is a parameter.
 */
module JobQueue {
  import opened Options

  type JobId = string

  datatype Status = Queued | Running | Completed | Dead

  datatype Row = Row(
    project: string, kind: string, status: Status, attempts: nat, maxAttempts: int,
    createdAt: real, startedAt: Option<real>, finishedAt: Option<real>,
    visibleAt: real, leaseUntil: Option<real>, error: Option<string>)

  type Table = map<JobId, Row>

  const LEASE_SECONDS := 900.0
  const BACKOFF_BASE_SECONDS := 5.0

  /** How a handler call ended: no handler bound, an exception, or a return. */
  datatype Outcome = Unregistered(kind: string) | Raised(message: string) | Returned

  /** `BACKOFF_BASE_SECONDS ** attempts`. */
  function Delay(attempts: nat): real {
    if attempts == 0 then 1.0 else BACKOFF_BASE_SECONDS * Delay(attempts - 1)
  }

  function Submitted(project: string, kind: string, maxAttempts: int, now: real): Row {
    Row(project, kind, Queued, 0, maxAttempts, now, None, None, now, None, None)
  }

  function Claimed(r: Row, now: real): Row {
    r.(status := Running, attempts := r.attempts + 1, startedAt := Some(now),
       leaseUntil := Some(now + LEASE_SECONDS))
  }

  function Finished(r: Row, now: real): Row {
    r.(status := Completed, finishedAt := Some(now), leaseUntil := None)
  }

  function Retried(r: Row, visibleAt: real, error: string): Row {
    r.(status := Queued, visibleAt := visibleAt, leaseUntil := None, error := Some(error))
  }

  function DeadLettered(r: Row, now: real, error: string): Row {
    r.(status := Dead, finishedAt := Some(now), leaseUntil := None, error := Some(error))
  }

  function Reclaimed(r: Row, visibleAt: real): Row {
    r.(status := Queued, leaseUntil := None, visibleAt := visibleAt)
  }

  /** The WHERE clause of the reclaim: running, and the lease NULL or in the past. */
  predicate Lapsed(r: Row, now: real) {
    r.status == Running && (r.leaseUntil == None || r.leaseUntil.value < now)
  }

  predicate Due(r: Row, now: real) {
    r.status == Queued && r.visibleAt <= now
  }

  /** The row a claim takes: due, and none due was created earlier. */
  predicate OldestDue(rows: Table, now: real, id: JobId) {
    && id in rows && Due(rows[id], now)
    && forall j :: j in rows && Due(rows[j], now) ==> rows[id].createdAt <= rows[j].createdAt
  }

  function ReclaimAll(rows: Table, visibleAt: real, now: real): Table {
    map id | id in rows :: if Lapsed(rows[id], now) then Reclaimed(rows[id], visibleAt) else rows[id]
  }

  function ErrorText(o: Outcome): string
    requires !o.Returned?
  {
    match o
    case Unregistered(kind) => "no handler registered for job kind '" + kind + "'"
    case Raised(message) => message
  }

  /** The row after a worker that claimed snapshot `claim` writes outcome `o`: the
      retry-or-die decision reads the snapshot, the write lands on whatever `r` is now. */
  function Written(r: Row, claim: Row, o: Outcome, now: real): Row {
    if o.Returned? then Finished(r, now)
    else if claim.attempts >= claim.maxAttempts then DeadLettered(r, now, ErrorText(o))
    else Retried(r, now + Delay(claim.attempts), ErrorText(o))
  }

  /** UPDATE ... WHERE id = ?: no effect when there is no such row. */
  function WriteOutcome(rows: Table, id: JobId, claim: Row, o: Outcome, now: real): Table {
    if id in rows then rows[id := Written(rows[id], claim, o, now)] else rows
  }

  /** Exactly the lapsed rows are queued again: due at once, without a lease, and otherwise as
      they were. All other rows stay. */
  ghost predicate Requeued(before: Table, after: Table, t1: real, t2: real) {
    && after.Keys == before.Keys
    && (forall id :: id in before && !(before[id].status == Running && LeaseOver(before[id].leaseUntil, t2)) ==>
          after[id] == before[id])
    && (forall id :: id in before && before[id].status == Running && LeaseOver(before[id].leaseUntil, t2) ==>
          && after[id].status == Queued && after[id].leaseUntil == None && after[id].visibleAt == t1
          && after[id].attempts == before[id].attempts && after[id].maxAttempts == before[id].maxAttempts
          && SameRecord(before[id], after[id]) && after[id].finishedAt == before[id].finishedAt
          && after[id].error == before[id].error)
  }

  predicate LeaseOver(lease: Option<real>, now: real) {
    lease.Some? ==> lease.value < now
  }

  /** What no write after the claim changes. */
  predicate SameRecord(r: Row, q: Row) {
    r.project == q.project && r.kind == q.kind && r.createdAt == q.createdAt && r.startedAt == q.startedAt
  }

  /** A waiting row nobody has worked on: due at once, with no history but its creation. */
  predicate IsNew(q: Row, project: string, kind: string, limit: int, now: real) {
    && q.project == project && q.kind == kind && q.createdAt == now && q.maxAttempts == limit
    && q.status == Queued && q.attempts == 0 && q.visibleAt == now
    && q.leaseUntil == None && q.startedAt == None && q.finishedAt == None && q.error == None
  }

  /** Running since now under a lease of a quarter of an hour, one attempt further. */
  predicate Taken(r: Row, q: Row, now: real) {
    && q.status == Running && q.startedAt == Some(now) && q.leaseUntil == Some(now + 900.0)
    && q.attempts == r.attempts + 1 && q.maxAttempts == r.maxAttempts
    && q.project == r.project && q.kind == r.kind && q.createdAt == r.createdAt
    && q.visibleAt == r.visibleAt && q.finishedAt == r.finishedAt && q.error == r.error
  }

  /** Done now, without a lease. An error of an earlier attempt stays on the row. */
  predicate Succeeded(r: Row, q: Row, now: real) {
    && q.status == Completed && q.finishedAt == Some(now) && q.leaseUntil == None && q.error == r.error
    && q.attempts == r.attempts && q.maxAttempts == r.maxAttempts && q.visibleAt == r.visibleAt && SameRecord(r, q)
  }

  /** Waiting again until `due`, with the error of the failed attempt and no lease. */
  predicate Waits(r: Row, q: Row, due: real, error: string) {
    && q.status == Queued && q.visibleAt == due && q.leaseUntil == None && q.error == Some(error)
    && q.attempts == r.attempts && q.maxAttempts == r.maxAttempts && q.finishedAt == r.finishedAt && SameRecord(r, q)
  }

  /** Dead, finished now, with its error and no lease; the attempts made are kept. */
  predicate Died(r: Row, q: Row, now: real, error: string) {
    && q.status == Dead && q.finishedAt == Some(now) && q.leaseUntil == None && q.error == Some(error)
    && q.attempts == r.attempts && q.maxAttempts == r.maxAttempts && q.visibleAt == r.visibleAt && SameRecord(r, q)
  }

  /** No row but this one differs, and none comes or goes. */
  ghost predicate OnlyRow(before: Table, after: Table, id: JobId) {
    after.Keys == before.Keys && forall j :: j in before && j != id ==> after[j] == before[j]
  }

  lemma {:induction false} OldestExists(rows: Table, due: set<JobId>)
    requires due != {} && due <= rows.Keys
    ensures exists id :: id in due && forall j :: j in due ==> rows[id].createdAt <= rows[j].createdAt
    decreases due
  {
    var k :| k in due;
    if due != {k} {
      OldestExists(rows, due - {k});
      var id :| id in due - {k}
        && forall j :: j in due - {k} ==> rows[id].createdAt <= rows[j].createdAt;
      var best := if rows[k].createdAt < rows[id].createdAt then k else id;
      assert forall j :: j in due ==> j == k || j in due - {k};
      assert best in due && forall j :: j in due ==> rows[best].createdAt <= rows[j].createdAt;
    } else {
      assert forall j :: j in due ==> j == k;
    }
  }

  class SqlJobQueue {
    var rows: Table
    const maxAttempts: int

    /** A queue opened on an existing table reclaims what earlier processes left behind. */
    constructor (rows: Table, maxAttempts: int, t1: real, t2: real)
      ensures this.maxAttempts == maxAttempts
      ensures Requeued(rows, this.rows, t1, t2)
      ensures this.rows == ReclaimAll(rows, t1, t2)
    {
      this.maxAttempts := maxAttempts;
      this.rows := ReclaimAll(rows, t1, t2);
    }

    /** INSERT; a duplicate primary key is refused by the database. */
    method Submit(id: JobId, project: string, kind: string, now: real) returns (r: Option<Row>)
      modifies this
      ensures r.None? <==> id in old(rows)
      ensures r.None? ==> rows == old(rows)
      ensures r.Some? ==> IsNew(r.value, project, kind, maxAttempts, now) && rows == old(rows)[id := r.value]
    {
      if id in rows {
        return None;
      }
      rows := rows[id := Submitted(project, kind, maxAttempts, now)];
      r := Some(rows[id]);
    }

    method ReclaimExpired(t1: real, t2: real) returns (count: nat)
      modifies this
      ensures Requeued(old(rows), rows, t1, t2)
      ensures rows == ReclaimAll(old(rows), t1, t2)
      ensures count == |set id | id in old(rows) && old(rows)[id].status == Running && LeaseOver(old(rows)[id].leaseUntil, t2)|
    {
      var lapsed := set id | id in rows && Lapsed(rows[id], t2);
      count := |lapsed|;
      assert lapsed == set id | id in rows && rows[id].status == Running && LeaseOver(rows[id].leaseUntil, t2);
      rows := ReclaimAll(rows, t1, t2);
    }

    /** Takes the oldest due row, or nothing when no row is due. */
    method Claim(now: real) returns (r: Option<(JobId, Row)>)
      modifies this
      ensures r.None? <==> forall j :: j in old(rows) && old(rows)[j].status == Queued ==> old(rows)[j].visibleAt > now
      ensures r.None? ==> rows == old(rows)
      ensures r.Some? ==>
        && r.value.0 in old(rows)
        && old(rows)[r.value.0].status == Queued && old(rows)[r.value.0].visibleAt <= now
        && Taken(old(rows)[r.value.0], r.value.1, now)
        && rows == old(rows)[r.value.0 := r.value.1]
      ensures r.Some? ==> forall j ::
        j in old(rows) && old(rows)[j].status == Queued && old(rows)[j].visibleAt <= now ==>
          old(rows)[r.value.0].createdAt <= old(rows)[j].createdAt
      ensures r.Some? ==> OldestDue(old(rows), now, r.value.0) && r.value.1 == Claimed(old(rows)[r.value.0], now)
    {
      var due := set id | id in rows && Due(rows[id], now);
      if due == {} {
        assert forall j :: j in rows && Due(rows[j], now) ==> j in due;
        return None;
      }
      OldestExists(rows, due);
      var id :| id in due && forall j :: j in due ==> rows[id].createdAt <= rows[j].createdAt;
      assert OldestDue(rows, now, id);
      rows := rows[id := Claimed(rows[id], now)];
      r := Some((id, rows[id]));
    }

    /** The final write of `_run`: completed, retried with backoff, or dead-lettered. */
    method Run(id: JobId, claim: Row, outcome: Outcome, now: real)
      modifies this
      ensures OnlyRow(old(rows), rows, id)
      ensures id in old(rows) && outcome.Returned? ==> Succeeded(old(rows)[id], rows[id], now)
      ensures id in old(rows) && outcome.Raised? && claim.attempts >= claim.maxAttempts ==>
        Died(old(rows)[id], rows[id], now, outcome.message)
      ensures id in old(rows) && outcome.Raised? && claim.attempts < claim.maxAttempts ==>
        Waits(old(rows)[id], rows[id], now + Delay(claim.attempts), outcome.message)
      ensures id in old(rows) && outcome.Unregistered? ==>
        var error := "no handler registered for job kind '" + outcome.kind + "'";
        if claim.attempts >= claim.maxAttempts then Died(old(rows)[id], rows[id], now, error)
        else Waits(old(rows)[id], rows[id], now + Delay(claim.attempts), error)
      ensures rows == WriteOutcome(old(rows), id, claim, outcome, now)
    {
      match outcome
      case Returned =>
        if id in rows {
          rows := rows[id := Finished(rows[id], now)];
        }
      case _ =>
        OnFailure(id, claim, ErrorText(outcome), now);
    }

    method OnFailure(id: JobId, claim: Row, error: string, now: real)
      modifies this
      ensures OnlyRow(old(rows), rows, id)
      ensures id in old(rows) && claim.attempts >= claim.maxAttempts ==> Died(old(rows)[id], rows[id], now, error)
      ensures id in old(rows) && claim.attempts < claim.maxAttempts ==>
        Waits(old(rows)[id], rows[id], now + Delay(claim.attempts), error)
    {
      if claim.attempts >= claim.maxAttempts {
        FinishDead(id, now, error);
        return;
      }
      if id in rows {
        rows := rows[id := Retried(rows[id], now + Delay(claim.attempts), error)];
      }
    }

    method FinishDead(id: JobId, now: real, error: string)
      modifies this
      ensures OnlyRow(old(rows), rows, id)
      ensures id in old(rows) ==> Died(old(rows)[id], rows[id], now, error)
    {
      if id in rows {
        rows := rows[id := DeadLettered(rows[id], now, error)];
      }
    }
  }
}
