/**
 The PostgreSQL claim of `api/sql.py`, taken apart: a SELECT ... FOR UPDATE SKIP
 LOCKED that locks one due row, the guarded UPDATE, and the commit. Any number of
 transactions interleave; other writers block on a locked row. The committed tables
 of every such run are those of a run of the atomic protocol.
 */
module PgClaim {
  import opened Options
  import opened JobQueue
  import opened JobProtocol

  /** A claim transaction: the row it locked, the clock it read, and once the UPDATE
      has run the uncommitted row. */
  datatype Txn =
    | Selected(id: JobId, t: real)
    | Written(id: JobId, t: real, row: Row)

  datatype PgState = PgState(base: State, txns: map<WorkerId, Txn>)

  datatype PgStep =
    | Select(w: WorkerId, id: JobId, t: real)
    | Update(w: WorkerId)
    | Commit(w: WorkerId)
    | Rollback(w: WorkerId)
    | Other(step: Step)

  ghost predicate Locked(p: PgState, id: JobId) {
    exists w :: w in p.txns && p.txns[w].id == id
  }

  /** The oldest due row nobody has locked. */
  ghost predicate OldestUnlockedDue(p: PgState, t: real, id: JobId) {
    && id in p.base.rows && Due(p.base.rows[id], t) && !Locked(p, id)
    && forall j :: j in p.base.rows && Due(p.base.rows[j], t) && !Locked(p, j) ==>
         p.base.rows[id].createdAt <= p.base.rows[j].createdAt
  }

  /** A write to a locked row waits for the lock. */
  ghost predicate Unblocked(p: PgState, a: Step)
    requires Enabled(p.base, a)
  {
    match a
    case Finish(w, _, _) => !Locked(p, p.base.live[w].job)
    case Reclaim(_, t2) => forall id :: id in p.base.rows && Lapsed(p.base.rows[id], t2) ==> !Locked(p, id)
    case _ => true
  }

  ghost predicate PgEnabled(p: PgState, a: PgStep) {
    match a
    case Select(w, id, t) =>
      w !in p.base.live && w !in p.txns && t <= p.base.now && OldestUnlockedDue(p, t, id)
    case Update(w) => w in p.txns && p.txns[w].Selected? && p.txns[w].id in p.base.rows
    case Commit(w) => w in p.txns && p.txns[w].Written? && p.txns[w].id in p.base.log
    case Rollback(w) => w in p.txns
    case Other(step) => !step.Claim? && Enabled(p.base, step) && Unblocked(p, step)
  }

  /** The UPDATE changes the row only WHERE status = 'queued'; the claim then returns
      the row whether or not it changed. */
  function Updated(r: Row, t: real): Row {
    if r.status == Queued then Claimed(r, t) else r
  }

  ghost function PgApply(p: PgState, a: PgStep): PgState
    requires PgEnabled(p, a)
  {
    match a
    case Select(w, id, t) => p.(txns := p.txns[w := Selected(id, t)])
    case Update(w) =>
      var x := p.txns[w];
      p.(txns := p.txns[w := Written(x.id, x.t, Updated(p.base.rows[x.id], x.t))])
    case Commit(w) =>
      var x := p.txns[w];
      PgState(
        p.base.(rows := p.base.rows[x.id := x.row],
                live := p.base.live[w := Worker(x.id, x.row, p.base.now)],
                log := p.base.log[x.id := NoteClaim(p.base.log[x.id], p.base.now)]),
        p.txns - {w})
    case Rollback(w) => p.(txns := p.txns - {w})
    case Other(step) => p.(base := Apply(p.base, step))
  }

  /** A locked row stays queued and due, and is locked once; what a transaction has
      written is still the claim of the committed row. */
  ghost predicate PgInv(p: PgState) {
    && p.base.log.Keys == p.base.rows.Keys
    && (forall w :: w in p.txns ==>
          var x := p.txns[w];
          && w !in p.base.live && x.t <= p.base.now
          && x.id in p.base.rows && Due(p.base.rows[x.id], x.t)
          && (x.Written? ==> x.row == Claimed(p.base.rows[x.id], x.t)))
    && (forall v, w :: v in p.txns && w in p.txns && p.txns[v].id == p.txns[w].id ==> v == w)
  }

  lemma PgInvPreserved(p: PgState, a: PgStep)
    requires PgInv(p) && PgEnabled(p, a)
    ensures PgInv(PgApply(p, a))
  {
    match a
    case Commit(w) => CommitKeepsInv(p, w);
    case Other(step) => OtherKeepsInv(p, step);
    case _ =>
  }

  lemma CommitKeepsInv(p: PgState, w: WorkerId)
    requires PgInv(p) && PgEnabled(p, Commit(w))
    ensures PgInv(PgApply(p, Commit(w)))
  {
  }

  lemma OtherKeepsInv(p: PgState, step: Step)
    requires PgInv(p) && PgEnabled(p, Other(step))
    ensures PgInv(PgApply(p, Other(step)))
  {
  }

  /** The atomic steps a split step stands for: a commit is the whole claim, and the
      rest of the transaction is invisible. */
  ghost function Abstract(p: PgState, a: PgStep): seq<Step>
    requires PgInv(p) && PgEnabled(p, a)
  {
    match a
    case Commit(w) => [Claim(w, p.txns[w].id, p.txns[w].t)]
    case Other(step) => [step]
    case _ => []
  }

  lemma {:induction false} StepRefines(p: PgState, a: PgStep)
    requires PgInv(p) && PgEnabled(p, a)
    ensures CanRun(p.base, Abstract(p, a))
    ensures Exec(p.base, Abstract(p, a)) == PgApply(p, a).base
  {
    var steps := Abstract(p, a);
    if steps != [] {
      assert Apply(p.base, steps[0]) == PgApply(p, a).base;
      assert steps[1..] == [];
    }
  }

  ghost predicate PgRun(p: PgState, steps: seq<PgStep>)
    decreases |steps|
  {
    steps == [] || (PgEnabled(p, steps[0]) && PgRun(PgApply(p, steps[0]), steps[1..]))
  }

  ghost function PgExec(p: PgState, steps: seq<PgStep>): PgState
    requires PgRun(p, steps)
    decreases |steps|
  {
    if steps == [] then p else PgExec(PgApply(p, steps[0]), steps[1..])
  }

  /** The atomic run behind a split one. */
  ghost function AbstractRun(p: PgState, steps: seq<PgStep>): seq<Step>
    requires PgInv(p) && PgRun(p, steps)
    decreases |steps|
  {
    if steps == [] then []
    else
      PgInvPreserved(p, steps[0]);
      Abstract(p, steps[0]) + AbstractRun(PgApply(p, steps[0]), steps[1..])
  }

  /** Every interleaving of split claims commits exactly what a run of atomic claims does. */
  lemma {:induction false} SplitClaimRefinesAtomicClaim(p: PgState, steps: seq<PgStep>)
    requires PgInv(p) && PgRun(p, steps)
    ensures CanRun(p.base, AbstractRun(p, steps))
    ensures Exec(p.base, AbstractRun(p, steps)) == PgExec(p, steps).base
    ensures PgInv(PgExec(p, steps))
    decreases |steps|
  {
    if steps != [] {
      PgInvPreserved(p, steps[0]);
      StepRefines(p, steps[0]);
      var next := PgApply(p, steps[0]);
      SplitClaimRefinesAtomicClaim(next, steps[1..]);
      var head, tail := Abstract(p, steps[0]), AbstractRun(next, steps[1..]);
      if head == [] {
        assert head + tail == tail;
      } else {
        assert (head + tail)[0] == head[0] && (head + tail)[1..] == tail;
        assert head[1..] == [];
      }
    }
  }

  /** Two transactions never commit the same claim: the guarded UPDATE always finds the
      row queued, so its unchecked row count is never zero. */
  lemma GuardNeverFails(p: PgState, steps: seq<PgStep>, w: WorkerId)
    requires PgInv(p) && PgRun(p, steps)
    requires PgEnabled(PgExec(p, steps), Update(w))
    ensures var q := PgExec(p, steps);
      q.base.rows[q.txns[w].id].status == Queued
        && PgApply(q, Update(w)).txns[w] == Written(q.txns[w].id, q.txns[w].t, Claimed(q.base.rows[q.txns[w].id], q.txns[w].t))
  {
    SplitClaimRefinesAtomicClaim(p, steps);
  }

  // ---------- order ----------

  /** The atomic claim takes the oldest due row; the split one does so exactly when no older
      due row is locked as it selects. */
  lemma SelectOrderIff(p: PgState, w: WorkerId, id: JobId, t: real)
    requires PgEnabled(p, Select(w, id, t))
    ensures OldestDue(p.base.rows, t, id) <==>
      forall j :: j in p.base.rows && Due(p.base.rows[j], t) && Locked(p, j) ==>
        p.base.rows[id].createdAt <= p.base.rows[j].createdAt
  {
  }

  /** With no other claim open, the three statements are one claim of the oldest due row. */
  lemma AloneIsAtomic(p: PgState, w: WorkerId, id: JobId, t: real)
    requires PgInv(p) && p.txns == map[] && PgEnabled(p, Select(w, id, t))
    ensures OldestDue(p.base.rows, t, id)
    ensures var steps := [Select(w, id, t), Update(w), Commit(w)];
      PgRun(p, steps) && PgExec(p, steps) == PgState(Apply(p.base, Claim(w, id, t)), map[])
  {
    SelectOrderIff(p, w, id, t);
    var steps := [Select(w, id, t), Update(w), Commit(w)];
    var p1 := PgApply(p, steps[0]);
    var p2 := PgApply(p1, steps[1]);
    var p3 := PgApply(p2, steps[2]);
    assert steps[1..][0] == steps[1] && steps[1..][1..] == steps[2..] && steps[2..][0] == steps[2] && steps[2..][1..] == [];
    assert PgRun(p3, []) && PgRun(p2, steps[2..]) && PgRun(p1, steps[1..]);
    assert p3.txns == map[];
    assert PgExec(p2, steps[2..]) == p3 && PgExec(p1, steps[1..]) == p3;
  }

  /** Two due jobs, the older one locked by an open claim. */
  function Contended(): PgState {
    var older, younger := Submitted("p", "run", 3, 0.0), Submitted("p", "run", 3, 1.0);
    PgState(
      State(2.0, map["old" := older, "young" := younger], map[], map["old" := History(0, 0, None), "young" := History(0, 0, None)]),
      map[0 := Selected("old", 2.0)])
  }

  /** ... so the next claim takes the younger one, which the atomic claim would not. */
  lemma LockedOlderIsPassedOver()
    ensures PgInv(Contended()) && PgEnabled(Contended(), Select(1, "young", 2.0))
    ensures !OldestDue(Contended().base.rows, 2.0, "young")
  {
    var p := Contended();
    assert p.txns[0].id == "old" && Locked(p, "old");
    assert Due(p.base.rows["old"], 2.0) && p.base.rows["old"].createdAt < p.base.rows["young"].createdAt;
    assert !Locked(p, "young");
  }

  /** Mutual exclusion carries over to the split claim. */
  lemma SplitMutualExclusion(p: PgState, steps: seq<PgStep>)
    requires Initial(p.base) && p.txns == map[] && PgRun(p, steps)
    requires OnTimeRun(p.base, AbstractRun(p, steps))
    ensures var s := PgExec(p, steps).base;
      forall v, w :: v in s.live && w in s.live && v != w ==> s.live[v].job != s.live[w].job
  {
    SplitClaimRefinesAtomicClaim(p, steps);
    MutualExclusion(p.base, AbstractRun(p, steps));
  }
}
