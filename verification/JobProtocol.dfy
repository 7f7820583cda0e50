/**
 Many processes over one job table. A state is the clock, the table, the workers
 that are between their claim and their final write, and a per-job history. Steps
 are the table's own SQL writes, each at a clock reading no later than its commit,
 plus the passage of time and the death of a worker.
 */
module JobProtocol {
  import opened Options
  import opened Sums
  import opened JobQueue

  type WorkerId = nat

  /** A live worker: the row its claim returned, and when the claim committed. */
  datatype Worker = Worker(job: JobId, row: Row, claimedAt: real)

  datatype History = History(claims: nat, reclaims: nat, firstClaim: Option<real>)

  datatype State = State(
    now: real, rows: Table, live: map<WorkerId, Worker>, log: map<JobId, History>)

  datatype Step =
    | Tick(until: real)
    | Submit(id: JobId, project: string, kind: string, maxAttempts: int, t: real)
    | Claim(w: WorkerId, id: JobId, t: real)
    | Finish(w: WorkerId, outcome: Outcome, t: real)
    | Crash(w: WorkerId)
    | Reclaim(t1: real, t2: real)

  ghost predicate Initial(s: State) {
    s.rows == map[] && s.live == map[] && s.log == map[]
  }

  /** A claim takes any due row here; SQLite's takes the oldest, which is one of them. */
  predicate Enabled(s: State, a: Step) {
    match a
    case Tick(until) => s.now <= until
    case Submit(id, _, _, _, t) => id !in s.rows && t <= s.now
    case Claim(w, id, t) => w !in s.live && id in s.rows && id in s.log && Due(s.rows[id], t) && t <= s.now
    case Finish(w, _, t) => w in s.live && s.live[w].claimedAt <= t <= s.now
    case Crash(w) => w in s.live
    case Reclaim(t1, t2) => s.rows.Keys <= s.log.Keys && t1 <= t2 <= s.now
  }

  function NoteClaim(h: History, now: real): History {
    History(h.claims + 1, h.reclaims, if h.firstClaim.None? then Some(now) else h.firstClaim)
  }

  function Apply(s: State, a: Step): State
    requires Enabled(s, a)
  {
    match a
    case Tick(until) => s.(now := until)
    case Submit(id, project, kind, maxAttempts, t) =>
      s.(rows := s.rows[id := Submitted(project, kind, maxAttempts, t)],
         log := s.log[id := History(0, 0, None)])
    case Claim(w, id, t) =>
      s.(rows := s.rows[id := Claimed(s.rows[id], t)],
         live := s.live[w := Worker(id, Claimed(s.rows[id], t), s.now)],
         log := s.log[id := NoteClaim(s.log[id], s.now)])
    case Finish(w, outcome, t) =>
      s.(rows := WriteOutcome(s.rows, s.live[w].job, s.live[w].row, outcome, t), live := s.live - {w})
    case Crash(w) => s.(live := s.live - {w})
    case Reclaim(t1, t2) =>
      s.(rows := ReclaimAll(s.rows, t1, t2),
         log := map id | id in s.log ::
           if id in s.rows && Lapsed(s.rows[id], t2)
           then s.log[id].(reclaims := s.log[id].reclaims + 1) else s.log[id])
  }

  // ---------- invariants ----------

  /** Every live worker still holds exactly the row it claimed, and holds it alone. */
  ghost predicate Owned(s: State) {
    && (forall w :: w in s.live ==>
          && s.live[w].job in s.rows && s.rows[s.live[w].job] == s.live[w].row
          && s.live[w].row.status == Running && s.live[w].claimedAt <= s.now)
    && (forall v, w :: v in s.live && w in s.live && s.live[v].job == s.live[w].job ==> v == w)
  }

  /** Only running rows carry a lease, and all of them do. */
  ghost predicate Leased(s: State) {
    && s.log.Keys == s.rows.Keys
    && forall id :: id in s.rows ==> LeasedRow(s.rows[id])
  }

  function Limit(r: Row): nat {
    if r.maxAttempts < 1 then 1 else r.maxAttempts
  }

  ghost predicate RowCounted(r: Row, h: History) {
    && r.attempts == h.claims
    && r.attempts <= Limit(r) + h.reclaims
    && (r.status == Queued ==> r.attempts < Limit(r) + h.reclaims)
  }

  ghost predicate Counted(s: State) {
    s.log.Keys == s.rows.Keys && forall id :: id in s.rows ==> RowCounted(s.rows[id], s.log[id])
  }

  ghost predicate Inv(s: State) {
    Owned(s) && Leased(s) && Counted(s)
  }

  /** The one guard mutual exclusion rests on: a reclaim finds no live worker past its lease. */
  ghost predicate SparesTheLiving(s: State, a: Step) {
    a.Reclaim? ==> forall w :: w in s.live && s.live[w].row.leaseUntil.Some? ==>
      a.t2 <= s.live[w].row.leaseUntil.value
  }

  lemma OwnedPreserved(s: State, a: Step)
    requires Owned(s) && Leased(s) && Enabled(s, a) && SparesTheLiving(s, a)
    ensures Owned(Apply(s, a))
  {
  }

  ghost predicate LeasedRow(r: Row) {
    r.status == Running <==> r.leaseUntil.Some?
  }

  lemma LeasedPreserved(s: State, a: Step)
    requires Leased(s) && Enabled(s, a)
    ensures Leased(Apply(s, a))
  {
    var s' := Apply(s, a);
    forall id | id in s'.rows ensures LeasedRow(s'.rows[id]) {
      assert id in s.rows ==> LeasedRow(s.rows[id]);
    }
  }

  lemma CountedPreserved(s: State, a: Step)
    requires Owned(s) && Counted(s) && Enabled(s, a)
    ensures Counted(Apply(s, a))
  {
  }

  lemma InvPreserved(s: State, a: Step)
    requires Inv(s) && Enabled(s, a) && SparesTheLiving(s, a)
    ensures Inv(Apply(s, a))
  {
    OwnedPreserved(s, a);
    LeasedPreserved(s, a);
    CountedPreserved(s, a);
  }

  /** Exactly when a reclaim is safe: one past-lease worker still running is enough to break it. */
  lemma ReclaimSafeIff(s: State, a: Step)
    requires Inv(s) && a.Reclaim? && Enabled(s, a)
    ensures Owned(Apply(s, a)) <==> SparesTheLiving(s, a)
  {
    if SparesTheLiving(s, a) {
      OwnedPreserved(s, a);
    } else {
      var w :| w in s.live && s.live[w].row.leaseUntil.Some? && s.live[w].row.leaseUntil.value < a.t2;
      assert Apply(s, a).rows[s.live[w].job].status == Queued;
    }
  }

  // ---------- whole runs ----------

  ghost predicate CanRun(s: State, steps: seq<Step>)
    decreases |steps|
  {
    steps == [] || (Enabled(s, steps[0]) && CanRun(Apply(s, steps[0]), steps[1..]))
  }

  ghost function Exec(s: State, steps: seq<Step>): State
    requires CanRun(s, steps)
    decreases |steps|
  {
    if steps == [] then s else Exec(Apply(s, steps[0]), steps[1..])
  }

  /** A run in which every reclaim spares the living. */
  ghost predicate Orderly(s: State, steps: seq<Step>)
    ensures Orderly(s, steps) ==> CanRun(s, steps)
    decreases |steps|
  {
    steps == [] ||
    (Enabled(s, steps[0]) && SparesTheLiving(s, steps[0]) && Orderly(Apply(s, steps[0]), steps[1..]))
  }

  /** No live worker has outlived its lease. */
  ghost predicate OnTime(s: State) {
    forall w :: w in s.live && s.live[w].row.leaseUntil.Some? ==> s.now <= s.live[w].row.leaseUntil.value
  }

  /** A run in which every worker writes (or dies) inside its lease. */
  ghost predicate OnTimeRun(s: State, steps: seq<Step>)
    decreases |steps|
  {
    OnTime(s) && (steps == [] || (Enabled(s, steps[0]) && OnTimeRun(Apply(s, steps[0]), steps[1..])))
  }

  lemma {:induction false} OnTimeIsOrderly(s: State, steps: seq<Step>)
    requires OnTimeRun(s, steps)
    ensures Orderly(s, steps)
    decreases |steps|
  {
    if steps != [] {
      OnTimeIsOrderly(Apply(s, steps[0]), steps[1..]);
    }
  }

  lemma {:induction false} InvHolds(s: State, steps: seq<Step>)
    requires Inv(s) && Orderly(s, steps)
    ensures Inv(Exec(s, steps))
    decreases |steps|
  {
    if steps != [] {
      InvPreserved(s, steps[0]);
      InvHolds(Apply(s, steps[0]), steps[1..]);
    }
  }

  /** Mutual exclusion: with work inside its lease, no job ever has two live workers,
      every live worker's row is running and untouched since its claim, and a row
      carries a lease exactly while it runs. */
  lemma MutualExclusion(s0: State, steps: seq<Step>)
    requires Initial(s0) && OnTimeRun(s0, steps)
    ensures CanRun(s0, steps)
    ensures var s := Exec(s0, steps);
      && (forall v, w :: v in s.live && w in s.live && v != w ==> s.live[v].job != s.live[w].job)
      && (forall w :: w in s.live ==>
            s.live[w].job in s.rows && s.rows[s.live[w].job] == s.live[w].row && s.live[w].row.status == Running)
      && (forall id :: id in s.rows ==> (s.rows[id].status == Running <==> s.rows[id].leaseUntil.Some?))
  {
    OnTimeIsOrderly(s0, steps);
    InvHolds(s0, steps);
  }

  // ---------- attempts, in every run ----------

  /** The live workers whose failure would queue the job again. */
  ghost function Retriers(live: map<WorkerId, Worker>, id: JobId): set<WorkerId> {
    set w | w in live && Retries(live[w], id)
  }

  predicate Retries(k: Worker, id: JobId) {
    k.job == id && k.row.attempts < Limit(k.row)
  }

  lemma RetriersAdd(live: map<WorkerId, Worker>, id: JobId, w: WorkerId, k: Worker)
    requires w !in live
    ensures |Retriers(live[w := k], id)| == |Retriers(live, id)| + if Retries(k, id) then 1 else 0
  {
    if Retries(k, id) {
      assert Retriers(live[w := k], id) == Retriers(live, id) + {w};
    } else {
      assert Retriers(live[w := k], id) == Retriers(live, id);
    }
  }

  lemma RetriersDrop(live: map<WorkerId, Worker>, id: JobId, w: WorkerId)
    requires w in live
    ensures |Retriers(live - {w}, id)| == |Retriers(live, id)| - if Retries(live[w], id) then 1 else 0
  {
    if Retries(live[w], id) {
      assert Retriers(live - {w}, id) == Retriers(live, id) - {w};
    } else {
      assert Retriers(live - {w}, id) == Retriers(live, id);
    }
  }

  function Shortfall(r: Row): nat {
    if r.attempts < Limit(r) - 1 then Limit(r) - 1 - r.attempts else 0
  }

  /** A claim needs a queued row, and a row is queued once at first, once for each retrier,
      and once for each reclaim. */
  ghost predicate Budgeted(s: State, id: JobId)
    requires id in s.rows && id in s.log
  {
    var r := s.rows[id];
    && r.attempts == s.log[id].claims
    && r.attempts + (if r.status == Queued then 1 else 0) + |Retriers(s.live, id)| + Shortfall(r) <= Limit(r) + s.log[id].reclaims
  }

  /** What holds of every run: workers have a row, with the attempt limit it was submitted with. */
  ghost predicate Linked(s: State) {
    && s.log.Keys == s.rows.Keys
    && forall w :: w in s.live ==>
         s.live[w].job in s.rows && s.live[w].row.maxAttempts == s.rows[s.live[w].job].maxAttempts
  }

  lemma LinkedPreserved(s: State, a: Step)
    requires Linked(s) && Enabled(s, a)
    ensures Linked(Apply(s, a))
  {
  }

  lemma BudgetOfClaim(s: State, a: Step, id: JobId)
    requires Linked(s) && Enabled(s, a) && a.Claim? && id in s.rows && Budgeted(s, id)
    ensures Budgeted(Apply(s, a), id)
  {
    RetriersAdd(s.live, id, a.w, Worker(a.id, Claimed(s.rows[a.id], a.t), s.now));
  }

  lemma BudgetOfFinish(s: State, a: Step, id: JobId)
    requires Linked(s) && Enabled(s, a) && a.Finish? && id in s.rows && Budgeted(s, id)
    ensures Budgeted(Apply(s, a), id)
  {
    RetriersDrop(s.live, id, a.w);
  }

  lemma BudgetPreserved(s: State, a: Step, id: JobId)
    requires Linked(s) && Enabled(s, a) && id in s.rows && Budgeted(s, id)
    ensures id in Apply(s, a).rows && id in Apply(s, a).log && Budgeted(Apply(s, a), id)
  {
    match a
    case Claim(_, _, _) => BudgetOfClaim(s, a, id);
    case Finish(_, _, _) => BudgetOfFinish(s, a, id);
    case Crash(w) => RetriersDrop(s.live, id, w);
    case _ =>
  }

  lemma BudgetOfSubmit(s: State, a: Step)
    requires Linked(s) && Enabled(s, a) && a.Submit?
    ensures Budgeted(Apply(s, a), a.id)
  {
    assert Retriers(s.live, a.id) == {};
  }

  ghost predicate AllBudgeted(s: State) {
    Linked(s) && forall id :: id in s.rows ==> Budgeted(s, id)
  }

  lemma AllBudgetedPreserved(s: State, a: Step)
    requires AllBudgeted(s) && Enabled(s, a)
    ensures AllBudgeted(Apply(s, a))
  {
    LinkedPreserved(s, a);
    forall id | id in Apply(s, a).rows ensures Budgeted(Apply(s, a), id) {
      if id in s.rows {
        BudgetPreserved(s, a, id);
      } else {
        BudgetOfSubmit(s, a);
      }
    }
  }

  lemma {:induction false} AllBudgetedHolds(s: State, steps: seq<Step>)
    requires AllBudgeted(s) && CanRun(s, steps)
    ensures AllBudgeted(Exec(s, steps))
    decreases |steps|
  {
    if steps != [] {
      AllBudgetedPreserved(s, steps[0]);
      AllBudgetedHolds(Apply(s, steps[0]), steps[1..]);
    }
  }

  /** In every run, leases kept or not, `attempts` counts claims, and passes the limit only
      by the reclaims. */
  lemma AttemptsAreClaims(s0: State, steps: seq<Step>, id: JobId)
    requires Initial(s0) && CanRun(s0, steps)
    ensures var s := Exec(s0, steps);
      id in s.rows ==>
        && id in s.log
        && s.rows[id].attempts == s.log[id].claims
        && s.rows[id].attempts <= Limit(s.rows[id]) + s.log[id].reclaims
  {
    AllBudgetedHolds(s0, steps);
  }

  predicate Final(r: Row) {
    r.status == Completed || r.status == Dead
  }

  /** Completed and dead rows are never written again. */
  lemma {:induction false} FinalForever(s: State, steps: seq<Step>, id: JobId)
    requires Inv(s) && Orderly(s, steps) && id in s.rows && Final(s.rows[id])
    ensures id in Exec(s, steps).rows && Exec(s, steps).rows[id] == s.rows[id]
    decreases |steps|
  {
    if steps != [] {
      InvPreserved(s, steps[0]);
      FinalForever(Apply(s, steps[0]), steps[1..], id);
    }
  }

  // ---------- what goes wrong without the lease hypothesis ----------

  /** A worker that overruns its lease: the job is reclaimed and claimed again. */
  function Overrun(): seq<Step> {
    [Submit("j", "p", "run", 3, 0.0), Claim(0, "j", 0.0), Tick(901.0), Reclaim(901.0, 901.0), Claim(1, "j", 901.0)]
  }

  /** ... after which the second worker completes it and the first one's failure revives it. */
  function Revival(): seq<Step> {
    [Finish(1, Returned, 901.0), Finish(0, Raised("late"), 901.0)]
  }

  function Fresh(): State {
    State(0.0, map[], map[], map[])
  }

  /** Outside the lease hypothesis the final writes, which do not check the claim,
      run a job twice at once and take it back out of `completed`. */
  lemma OverrunBreaksExclusion()
    ensures CanRun(Fresh(), Overrun())
    ensures var s := Exec(Fresh(), Overrun());
      && 0 in s.live && 1 in s.live && s.live[0].job == s.live[1].job
      && CanRun(s, Revival())
      && (var done := Apply(s, Revival()[0]); "j" in done.rows && done.rows["j"].status == Completed)
      && (var end := Exec(s, Revival()); "j" in end.rows && end.rows["j"].status == Queued)
  {
    var o := Overrun();
    var s1 := Apply(Fresh(), o[0]);
    var s2 := Apply(s1, o[1]);
    var s3 := Apply(s2, o[2]);
    var s4 := Apply(s3, o[3]);
    var s5 := Apply(s4, o[4]);
    assert o[1..][0] == o[1] && o[1..][1..] == o[2..] && o[2..][0] == o[2] && o[2..][1..] == o[3..];
    assert o[3..][0] == o[3] && o[3..][1..] == o[4..] && o[4..][0] == o[4] && o[4..][1..] == [];
    assert CanRun(s5, []) && CanRun(s4, o[4..]) && CanRun(s3, o[3..]) && CanRun(s2, o[2..]) && CanRun(s1, o[1..]);
    assert Exec(s4, o[4..]) == s5 && Exec(s3, o[3..]) == s5 && Exec(s2, o[2..]) == s5 && Exec(s1, o[1..]) == s5;
    RevivalRuns(s5);
  }

  /** The second worker completes the job, and the first one's failure queues it again. */
  lemma RevivalRuns(s: State)
    requires "j" in s.rows && 0 in s.live && 1 in s.live && s.live[0].job == "j" && s.live[1].job == "j"
    requires s.live[0].claimedAt <= 901.0 && s.live[1].claimedAt <= 901.0 <= s.now
    requires s.live[0].row.attempts < s.live[0].row.maxAttempts
    ensures CanRun(s, Revival())
    ensures var done := Apply(s, Revival()[0]); "j" in done.rows && done.rows["j"].status == Completed
    ensures var end := Exec(s, Revival()); "j" in end.rows && end.rows["j"].status == Queued
  {
    var s5 := s;
    var r := Revival();
    var s6 := Apply(s5, r[0]);
    assert r[1..][0] == r[1] && r[1..][1..] == [];
    var s7 := Apply(s6, r[1]);
    assert CanRun(s7, []) && CanRun(s6, r[1..]) && Exec(s6, r[1..]) == s7;
  }

  // ---------- backoff ----------

  /** 5 + 25 + ... + 5^n. */
  function Waited(n: nat): real {
    if n == 0 then 0.0 else Waited(n - 1) + Delay(n)
  }

  /** The closed form (5^(n+1) - 5) / 4. */
  lemma {:induction false} WaitedClosedForm(n: nat)
    ensures Waited(n) == (Delay(n + 1) - 5.0) / 4.0
  {
    if n > 0 {
      WaitedClosedForm(n - 1);
    }
  }

  /** For jobs never reclaimed: each stage of a job lies at least the accumulated
      backoff after its first claim. */
  ghost predicate RowPaced(r: Row, h: History) {
    h.reclaims == 0 ==>
      && (r.attempts > 0 <==> h.firstClaim.Some?)
      && (r.status == Queued && r.attempts > 0 ==> h.firstClaim.value + Waited(r.attempts) <= r.visibleAt)
      && (r.status == Dead ==>
            r.attempts == Limit(r) && r.finishedAt.Some?
            && h.firstClaim.value + Waited(Limit(r) - 1) <= r.finishedAt.value)
  }

  /** ... and so does each claim that is being worked on. */
  ghost predicate WorkPaced(k: Worker, h: History) {
    h.reclaims == 0 ==>
      && k.row.attempts > 0 && h.firstClaim.Some?
      && h.firstClaim.value + Waited(k.row.attempts - 1) <= k.claimedAt
  }

  /** A job nobody reclaimed: whoever works on it works alone, on the row as it claimed it,
      and everything happened at its time. */
  ghost predicate Solo(s: State, id: JobId) {
    id in s.rows && id in s.log && s.log[id].reclaims == 0 ==>
      && RowCounted(s.rows[id], s.log[id]) && RowPaced(s.rows[id], s.log[id])
      && (forall w :: w in s.live && s.live[w].job == id ==>
            s.rows[id] == s.live[w].row && s.live[w].row.status == Running && WorkPaced(s.live[w], s.log[id]))
      && (forall v, w :: v in s.live && w in s.live && s.live[v].job == id && s.live[w].job == id ==> v == w)
  }

  lemma ClaimPaced(r: Row, h: History, id: JobId, t: real, now: real)
    requires RowCounted(r, h) && RowPaced(r, h) && Due(r, t) && t <= now
    ensures RowPaced(Claimed(r, t), NoteClaim(h, now))
    ensures WorkPaced(Worker(id, Claimed(r, t), now), NoteClaim(h, now))
  {
  }

  lemma FinishPaced(k: Worker, h: History, o: Outcome, t: real)
    requires RowCounted(k.row, h) && WorkPaced(k, h) && k.claimedAt <= t && k.row.status == Running
    ensures RowPaced(Written(k.row, k.row, o, t), h)
  {
  }

  lemma SoloPreserved(s: State, a: Step, id: JobId)
    requires Linked(s) && Solo(s, id) && Enabled(s, a)
    ensures Solo(Apply(s, a), id)
  {
    match a
    case Claim(w, j, t) =>
      if j == id && s.log[id].reclaims == 0 {
        ClaimPaced(s.rows[id], s.log[id], id, t, s.now);
      }
    case Finish(w, outcome, t) =>
      if s.live[w].job == id && id in s.log && s.log[id].reclaims == 0 {
        FinishPaced(s.live[w], s.log[id], outcome, t);
      }
    case _ =>
  }

  lemma {:induction false} SoloHolds(s: State, steps: seq<Step>, id: JobId)
    requires Linked(s) && Solo(s, id) && CanRun(s, steps)
    ensures Solo(Exec(s, steps), id)
    decreases |steps|
  {
    if steps != [] {
      LinkedPreserved(s, steps[0]);
      SoloPreserved(s, steps[0], id);
      SoloHolds(Apply(s, steps[0]), steps[1..], id);
    }
  }

  /** In every run, a job never reclaimed has at most one live worker, and its row is that
      worker's, however late other workers are. */
  lemma UnreclaimedIsExclusive(s0: State, steps: seq<Step>, id: JobId)
    requires Initial(s0) && CanRun(s0, steps)
    ensures var s := Exec(s0, steps);
      id in s.rows && id in s.log && s.log[id].reclaims == 0 ==>
        && (forall w :: w in s.live && s.live[w].job == id ==> s.rows[id] == s.live[w].row)
        && (forall v, w :: v in s.live && w in s.live && s.live[v].job == id && s.live[w].job == id ==> v == w)
  {
    SoloHolds(s0, steps, id);
  }

  /** In every run, a dead-lettered job that was never reclaimed spent at least 5 + 25 + ... + 5^(max-1)
      seconds, which is (5^max - 5)/4, between its first claim and its death. */
  lemma DeadLettersWereRetried(s0: State, steps: seq<Step>, id: JobId)
    requires Initial(s0) && CanRun(s0, steps)
    ensures var s := Exec(s0, steps);
      id in s.rows && id in s.log && s.rows[id].status == Dead && s.log[id].reclaims == 0 ==>
        && s.rows[id].attempts == Limit(s.rows[id])
        && s.rows[id].finishedAt.Some? && s.log[id].firstClaim.Some?
        && s.rows[id].finishedAt.value - s.log[id].firstClaim.value >= (Delay(Limit(s.rows[id])) - 5.0) / 4.0
  {
    SoloHolds(s0, steps, id);
    var s := Exec(s0, steps);
    if id in s.rows && id in s.log && s.rows[id].status == Dead && s.log[id].reclaims == 0 {
      WaitedClosedForm(Limit(s.rows[id]) - 1);
    }
  }

  // ---------- draining ----------

  /** Claims and final writes a job can still take. */
  ghost function Weight(r: Row, h: History): nat
    requires RowCounted(r, h)
  {
    var rest := Limit(r) + h.reclaims - r.attempts;
    match r.status
    case Queued => 2 * rest
    case Running => 2 * rest + 1
    case _ => 0
  }

  ghost function Weights(s: State): map<JobId, nat>
    requires Counted(s)
  {
    map id | id in s.rows :: Weight(s.rows[id], s.log[id])
  }

  predicate IsWork(a: Step) {
    a.Claim? || a.Finish?
  }

  /** The running rows a step takes back. */
  ghost function TakenBack(s: State, a: Step): set<JobId> {
    if a.Reclaim? then set id | id in s.rows && Lapsed(s.rows[id], a.t2) else {}
  }

  /** How many times a run takes a job back. */
  ghost function Reclaims(s: State, steps: seq<Step>): nat
    requires CanRun(s, steps)
    decreases |steps|
  {
    if steps == [] then 0 else |TakenBack(s, steps[0])| + Reclaims(Apply(s, steps[0]), steps[1..])
  }

  function WorkSteps(steps: seq<Step>): nat {
    if steps == [] then 0 else (if IsWork(steps[0]) then 1 else 0) + WorkSteps(steps[1..])
  }

  lemma WeightsAfterWork(s: State, a: Step, id: JobId)
    requires Inv(s) && Enabled(s, a) && IsWork(a)
    requires id == if a.Claim? then a.id else s.live[a.w].job
    ensures Inv(Apply(s, a)) && id in s.rows && id in Apply(s, a).rows
    ensures Weight(Apply(s, a).rows[id], Apply(s, a).log[id]) < Weight(s.rows[id], s.log[id])
    ensures Weights(Apply(s, a)) == Weights(s)[id := Weight(Apply(s, a).rows[id], Apply(s, a).log[id])]
  {
    InvPreserved(s, a);
    WorkTouchesOne(s, a, id);
    WeightDrops(s, a, id);
    OneWeightChanges(s, Apply(s, a), id);
  }

  lemma WeightDrops(s: State, a: Step, id: JobId)
    requires Inv(s) && Enabled(s, a) && IsWork(a) && Inv(Apply(s, a))
    requires id == if a.Claim? then a.id else s.live[a.w].job
    requires id in s.rows && id in Apply(s, a).rows
    ensures Weight(Apply(s, a).rows[id], Apply(s, a).log[id]) < Weight(s.rows[id], s.log[id])
  {
  }

  lemma OneWeightChanges(s: State, s': State, id: JobId)
    requires Counted(s) && Counted(s') && s'.rows.Keys == s.rows.Keys && id in s.rows
    requires forall j :: j in s.rows && j != id ==> s'.rows[j] == s.rows[j] && s'.log[j] == s.log[j]
    ensures Weights(s') == Weights(s)[id := Weight(s'.rows[id], s'.log[id])]
  {
  }

  lemma WorkTouchesOne(s: State, a: Step, id: JobId)
    requires Inv(s) && Enabled(s, a) && IsWork(a)
    requires id == if a.Claim? then a.id else s.live[a.w].job
    ensures var s' := Apply(s, a); s'.rows.Keys == s.rows.Keys && s'.log.Keys == s.log.Keys && id in s.rows
    ensures forall j :: j in s.rows && j != id ==> Apply(s, a).rows[j] == s.rows[j] && Apply(s, a).log[j] == s.log[j]
  {
  }

  /** A reclaim adds one to the weight of each row it takes back. */
  lemma ReclaimRaises(s: State, a: Step)
    requires Inv(s) && Enabled(s, a) && SparesTheLiving(s, a) && a.Reclaim?
    ensures Inv(Apply(s, a))
    ensures Sum(Weights(Apply(s, a))) == Sum(Weights(s)) + |TakenBack(s, a)|
  {
    InvPreserved(s, a);
    var m, m', back := Weights(s), Weights(Apply(s, a)), TakenBack(s, a);
    ReclaimKeepsRows(s, a);
    forall id | id in m ensures m'[id] == m[id] + if id in back then 1 else 0 {
      ReclaimWeighs(s, a, id);
    }
    SumRaised(m, m', m.Keys, back);
    assert back * m.Keys == back;
  }

  lemma ReclaimKeepsRows(s: State, a: Step)
    requires Enabled(s, a) && a.Reclaim?
    ensures Apply(s, a).rows.Keys == s.rows.Keys
  {
  }

  lemma ReclaimWeighs(s: State, a: Step, id: JobId)
    requires Counted(s) && Enabled(s, a) && a.Reclaim? && id in s.rows
    ensures var s' := Apply(s, a);
      && id in s'.rows && id in s'.log && RowCounted(s'.rows[id], s'.log[id])
      && Weight(s'.rows[id], s'.log[id]) == Weight(s.rows[id], s.log[id]) + if id in TakenBack(s, a) then 1 else 0
  {
    if Lapsed(s.rows[id], a.t2) {
      RowRaised(s.rows[id], s.log[id], a.t1, a.t2);
    }
  }

  lemma RowRaised(r: Row, h: History, t1: real, t2: real)
    requires RowCounted(r, h) && Lapsed(r, t2)
    ensures RowCounted(Reclaimed(r, t1), h.(reclaims := h.reclaims + 1))
    ensures Weight(Reclaimed(r, t1), h.(reclaims := h.reclaims + 1)) == Weight(r, h) + 1
  {
  }

  lemma WorkUsesWeight(s: State, a: Step)
    requires Inv(s) && Enabled(s, a) && SparesTheLiving(s, a) && !a.Submit?
    ensures Inv(Apply(s, a))
    ensures Sum(Weights(Apply(s, a))) + (if IsWork(a) then 1 else 0) <= Sum(Weights(s)) + |TakenBack(s, a)|
  {
    if IsWork(a) {
      var id := if a.Claim? then a.id else s.live[a.w].job;
      WeightsAfterWork(s, a, id);
      SumUpdate(Weights(s), id, Weight(Apply(s, a).rows[id], Apply(s, a).log[id]));
    } else if a.Reclaim? {
      ReclaimRaises(s, a);
    } else {
      InvPreserved(s, a);
      assert Weights(Apply(s, a)) == Weights(s);
    }
  }

  /** With no further submits, a run makes boundedly many claims and final writes: what the
      jobs weigh, and one more for each time one is reclaimed. */
  lemma {:induction false} WorkIsBounded(s: State, steps: seq<Step>)
    requires Inv(s) && Orderly(s, steps)
    requires forall i :: 0 <= i < |steps| ==> !steps[i].Submit?
    ensures Inv(Exec(s, steps))
    ensures WorkSteps(steps) + Sum(Weights(Exec(s, steps))) <= Sum(Weights(s)) + Reclaims(s, steps)
    decreases |steps|
  {
    if steps != [] {
      WorkUsesWeight(s, steps[0]);
      WorkIsBounded(Apply(s, steps[0]), steps[1..]);
    }
  }

  /** No worker has died holding a row: every running row has its worker. */
  ghost predicate Staffed(s: State) {
    forall id :: id in s.rows && s.rows[id].status == Running ==> exists w :: w in s.live && s.live[w].job == id
  }

  lemma {:induction false} StaffedHolds(s: State, steps: seq<Step>)
    requires Inv(s) && Staffed(s) && Orderly(s, steps)
    requires forall i :: 0 <= i < |steps| ==> !steps[i].Crash?
    ensures Staffed(Exec(s, steps))
    decreases |steps|
  {
    if steps != [] {
      InvPreserved(s, steps[0]);
      StaffedStep(s, steps[0]);
      StaffedHolds(Apply(s, steps[0]), steps[1..]);
    }
  }

  lemma StaffedStep(s: State, a: Step)
    requires Inv(s) && Staffed(s) && Enabled(s, a) && !a.Crash?
    ensures Staffed(Apply(s, a))
  {
    var s' := Apply(s, a);
    forall id | id in s'.rows && s'.rows[id].status == Running
      ensures exists w :: w in s'.live && s'.live[w].job == id
    {
      var w := WorkerOf(s, a, id);
    }
  }

  /** Who works on a running row after a step. */
  lemma WorkerOf(s: State, a: Step, id: JobId) returns (w: WorkerId)
    requires Owned(s) && Staffed(s) && Enabled(s, a) && !a.Crash?
    requires id in Apply(s, a).rows && Apply(s, a).rows[id].status == Running
    ensures w in Apply(s, a).live && Apply(s, a).live[w].job == id
  {
    StillRunning(s, a, id);
    if a.Claim? && a.id == id {
      w := a.w;
    } else {
      w :| w in s.live && s.live[w].job == id;
    }
  }

  /** Only a claim sets a row running. */
  lemma StillRunning(s: State, a: Step, id: JobId)
    requires Enabled(s, a) && id in Apply(s, a).rows && Apply(s, a).rows[id].status == Running
    ensures (a.Claim? && a.id == id) || (id in s.rows && s.rows[id].status == Running)
  {
  }

  /** A job whose worker died: running, with nobody at work. */
  ghost predicate Abandoned(s: State, id: JobId) {
    id in s.rows && s.rows[id].status == Running && forall w :: w in s.live ==> s.live[w].job != id
  }

  /** Work that becomes possible by waiting. */
  ghost predicate WorkAhead(s: State) {
    exists until, a :: s.now <= until && IsWork(a) && Enabled(Apply(s, Tick(until)), a)
  }

  /** An abandoned job that a reclaim, once its lease is over, queues again. */
  ghost predicate RescueAhead(s: State) {
    exists id, until :: Abandoned(s, id) && s.now <= until && Lapsed(s.rows[id], until)
  }

  lemma UnfinishedMoves(s: State, id: JobId)
    requires id in s.rows && id in s.log && !Final(s.rows[id])
    requires forall w :: w in s.live ==> s.live[w].claimedAt <= s.now
    ensures Abandoned(s, id) || WorkAhead(s)
  {
    if s.rows[id].status == Running {
      if !Abandoned(s, id) {
        var w :| w in s.live && s.live[w].job == id;
        var until, a := s.now, Finish(w, Returned, s.now);
        assert s.now <= until && IsWork(a) && Enabled(Apply(s, Tick(until)), a);
      }
    } else {
      var until := if s.now < s.rows[id].visibleAt then s.rows[id].visibleAt else s.now;
      var w := FreshWorker(s.live.Keys);
      var a := Claim(w, id, until);
      assert s.now <= until && IsWork(a) && Enabled(Apply(s, Tick(until)), a);
    }
  }

  lemma AbandonedIsRescued(s: State, id: JobId)
    requires Abandoned(s, id)
    ensures RescueAhead(s)
  {
    var lease := s.rows[id].leaseUntil;
    var until := if lease.Some? && s.now <= lease.value then lease.value + 1.0 else s.now;
    assert Lapsed(s.rows[id], until);
  }

  /** Until every job is final, a claim or final write becomes possible by waiting, or the
      rescue of a job whose worker died. */
  lemma NeverStuck(s: State)
    requires Inv(s)
    ensures Sum(Weights(s)) == 0 <==> forall id :: id in s.rows ==> Final(s.rows[id])
    ensures Sum(Weights(s)) > 0 ==> WorkAhead(s) || RescueAhead(s)
    ensures Sum(Weights(s)) > 0 && Staffed(s) ==> WorkAhead(s)
  {
    SumZero(Weights(s), s.rows.Keys);
    assert Weights(s).Keys == s.rows.Keys;
    assert forall id :: id in s.rows ==> (Weights(s)[id] == 0 <==> Final(s.rows[id]));
    if id :| id in s.rows && !Final(s.rows[id]) {
      UnfinishedMoves(s, id);
      if Abandoned(s, id) {
        AbandonedIsRescued(s, id);
      }
    }
  }

  lemma {:induction false} FreshWorker(ws: set<WorkerId>) returns (w: WorkerId)
    ensures forall v :: v in ws ==> v < w
    decreases ws
  {
    w := 0;
    if ws != {} {
      var v :| v in ws;
      w := FreshWorker(ws - {v});
      w := if w <= v then v + 1 else w;
      assert forall u :: u in ws ==> u == v || u in ws - {v};
    }
  }

  /** The queue drains: with no further submits a run, restarts and crashes included, does
      bounded work, and as long as a job is unfinished more work lies ahead, or a rescue. A
      crash-free run from a table without abandoned jobs needs no rescue. */
  lemma QueueDrains(s: State, steps: seq<Step>)
    requires Inv(s) && Orderly(s, steps)
    requires forall i :: 0 <= i < |steps| ==> !steps[i].Submit?
    ensures WorkSteps(steps) <= Sum(Weights(s)) + Reclaims(s, steps)
    ensures var end := Exec(s, steps);
      (forall id :: id in end.rows ==> Final(end.rows[id])) || WorkAhead(end) || RescueAhead(end)
    ensures var end := Exec(s, steps);
      Staffed(s) && (forall i :: 0 <= i < |steps| ==> !steps[i].Crash?) ==>
        (forall id :: id in end.rows ==> Final(end.rows[id])) || WorkAhead(end)
  {
    WorkIsBounded(s, steps);
    NeverStuck(Exec(s, steps));
    if Staffed(s) && forall i :: 0 <= i < |steps| ==> !steps[i].Crash? {
      StaffedHolds(s, steps);
    }
  }
}
