/**
 One run per project at a time (`api/store.py`, and its caller in `api/main.py`).
 The project's `status` and `run_started_at` are the lock; both stores claim it, the
 in-memory one under a mutex and the SQL one in a single conditional UPDATE.
 */
module RunLease {
  import opened Options

  type ProjectId = string
  type RunId = nat

  datatype Status = Created | Uploaded | Enqueued | Running | Completed | Failed

  datatype Project = Project(status: Status, runStartedAt: Option<real>)

  const RUN_LEASE_SECONDS := 900.0

  /** `project.run_started_at or 0`: both None and 0.0 read as zero. */
  function StartedOrZero(p: Project): real {
    if p.runStartedAt.Some? then p.runStartedAt.value else 0.0
  }

  predicate MemoryClaims(p: Project, now: real) {
    !(p.status == Running && !(StartedOrZero(p) < now - RUN_LEASE_SECONDS))
  }

  predicate SqlClaims(p: Project, now: real) {
    p.status != Running || p.runStartedAt == None || p.runStartedAt.value < now - RUN_LEASE_SECONDS
  }

  /** The two stores disagree on exactly one kind of row: running, no start time, and
      a clock still inside its first lease. */
  lemma StoresAgreeIff(p: Project, now: real)
    ensures (MemoryClaims(p, now) <==> SqlClaims(p, now)) <==>
      !(p.status == Running && p.runStartedAt == None && now <= RUN_LEASE_SECONDS)
  {
  }

  function Begun(p: Project, now: real): Project {
    p.(status := Running, runStartedAt := Some(now))
  }

  class ProjectStore {
    var projects: map<ProjectId, Project>

    method TryBeginRun(pid: ProjectId, now: real) returns (claimed: bool)
      modifies this
      ensures claimed <==> pid in old(projects) && MemoryClaims(old(projects)[pid], now)
      ensures !claimed && pid in old(projects) ==>
        && old(projects)[pid].status == Running
        && (old(projects)[pid].runStartedAt.Some? ==> old(projects)[pid].runStartedAt.value + 900.0 >= now)
        && (old(projects)[pid].runStartedAt.None? ==> now <= 900.0)
      ensures claimed && old(projects)[pid].status == Running ==>
        if old(projects)[pid].runStartedAt.Some? then old(projects)[pid].runStartedAt.value + 900.0 < now else now > 900.0
      ensures projects == if claimed then old(projects)[pid := Project(Running, Some(now))] else old(projects)
    {
      if pid !in projects {
        return false;
      }
      var project := projects[pid];
      var stale := StartedOrZero(project) < now - RUN_LEASE_SECONDS;
      if project.status == Running && !stale {
        return false;
      }
      projects := projects[pid := Begun(project, now)];
      claimed := true;
    }

    method EndRun(pid: ProjectId)
      modifies this
      ensures projects == if pid in old(projects)
        then old(projects)[pid := old(projects)[pid].(runStartedAt := None)] else old(projects)
    {
      if pid in projects {
        projects := projects[pid := projects[pid].(runStartedAt := None)];
      }
    }
  }

  class SqlProjectStore {
    var projects: map<ProjectId, Project>

    /** The number of rows the conditional UPDATE changed is one or zero. */
    method TryBeginRun(pid: ProjectId, now: real) returns (claimed: bool)
      modifies this
      ensures claimed <==> pid in old(projects) && SqlClaims(old(projects)[pid], now)
      ensures !claimed && pid in old(projects) ==>
        && old(projects)[pid].status == Running && old(projects)[pid].runStartedAt.Some?
        && old(projects)[pid].runStartedAt.value + 900.0 >= now
      ensures claimed && old(projects)[pid].status == Running && old(projects)[pid].runStartedAt.Some? ==>
        old(projects)[pid].runStartedAt.value + 900.0 < now
      ensures projects == if claimed then old(projects)[pid := Project(Running, Some(now))] else old(projects)
    {
      var changed := set id | id in projects && id == pid && SqlClaims(projects[id], now);
      projects := map id | id in projects :: if id in changed then Begun(projects[id], now) else projects[id];
      claimed := changed != {};
      assert pid in old(projects) && SqlClaims(old(projects)[pid], now) ==> pid in changed;
    }

    method EndRun(pid: ProjectId)
      modifies this
      ensures projects == if pid in old(projects)
        then old(projects)[pid := old(projects)[pid].(runStartedAt := None)] else old(projects)
    {
      projects := map id | id in projects ::
        if id == pid then projects[id].(runStartedAt := None) else projects[id];
    }

    /** `save` writes the status the caller decided on; the lease column is not in it. */
    method Save(pid: ProjectId, status: Status)
      modifies this
      ensures projects == if pid in old(projects)
        then old(projects)[pid := old(projects)[pid].(status := status)] else old(projects)
    {
      projects := map id | id in projects ::
        if id == pid then projects[id].(status := status) else projects[id];
    }
  }

  // ---------- the callers' protocol on one project ----------

  /** Between `try_begin_run` and `end_run` a run works, and then, unless an exception nobody
      handles ends it first, has saved its outcome. */
  datatype Phase = Working(begunAt: real) | Saved

  datatype State = State(now: real, project: Project, runs: map<RunId, Phase>)

  datatype Step =
    | Tick(until: real)
    | Begin(r: RunId, t: real)
    | Save(r: RunId, ok: bool)
    | End(r: RunId)
    | Crash(r: RunId)
    | Foreign(status: Status)

  predicate Enabled(s: State, a: Step) {
    match a
    case Tick(until) => s.now <= until
    case Begin(r, t) => r !in s.runs && t <= s.now
    case Save(r, _) => r in s.runs && s.runs[r].Working?
    case End(r) => r in s.runs
    case Crash(r) => r in s.runs
    case Foreign(status) => status != Running
  }

  /** A refused Begin is the caller's 409 and changes nothing. */
  function Apply(s: State, a: Step): State
    requires Enabled(s, a)
  {
    match a
    case Tick(until) => s.(now := until)
    case Begin(r, t) =>
      if SqlClaims(s.project, t) then s.(project := Begun(s.project, t), runs := s.runs[r := Working(t)]) else s
    case Save(r, ok) =>
      s.(project := s.project.(status := if ok then Completed else Failed), runs := s.runs[r := Saved])
    case End(r) => s.(project := s.project.(runStartedAt := None), runs := s.runs - {r})
    case Crash(r) => s.(runs := s.runs - {r})
    case Foreign(status) => s.(project := s.project.(status := status))
  }

  /** At most one run in flight. */
  ghost predicate Exclusive(s: State) {
    forall q, r :: q in s.runs && r in s.runs ==> q == r
  }

  /** The run in flight, while it works, is the one the lock names. */
  ghost predicate Inv(s: State) {
    && Exclusive(s)
    && forall r :: r in s.runs && s.runs[r].Working? ==>
         s.project == Project(Running, Some(s.runs[r].begunAt))
  }

  /** A run that the next claimant does not see: it has saved but not ended, or its
      lease has run out. */
  ghost predicate Exposed(s: State, t: real) {
    exists r :: r in s.runs && (s.runs[r].Saved? || s.runs[r].begunAt < t - RUN_LEASE_SECONDS)
  }

  /** What each step must not do for the lock to hold. */
  ghost predicate Disciplined(s: State, a: Step) {
    && (a.Begin? ==> !Exposed(s, a.t))
    && (a.Foreign? ==> forall r :: r in s.runs ==> s.runs[r].Saved?)
  }

  lemma InvPreserved(s: State, a: Step)
    requires Inv(s) && Enabled(s, a) && Disciplined(s, a)
    ensures Inv(Apply(s, a))
  {
    if a.Begin? && exists q :: q in s.runs {
      var q :| q in s.runs;
      assert s.runs[q].Working?;
    }
  }

  /** A saved project whose run has not ended keeps a final status. */
  ghost predicate SavedIsFinal(s: State) {
    forall r :: r in s.runs && s.runs[r].Saved? ==> s.project.status != Running
  }

  lemma SavedIsFinalPreserved(s: State, a: Step)
    requires Inv(s) && SavedIsFinal(s) && Enabled(s, a) && Disciplined(s, a)
    ensures SavedIsFinal(Apply(s, a))
  {
    if a.Begin? && exists q :: q in s.runs {
      var q :| q in s.runs;
      assert s.runs[q].Working?;
    }
  }

  /** A second run gets in beside one in flight exactly when that one is exposed. */
  lemma SecondRunIff(s: State, a: Step)
    requires Inv(s) && SavedIsFinal(s) && a.Begin? && Enabled(s, a)
    ensures Exclusive(Apply(s, a)) <==> !Exposed(s, a.t)
  {
    if Exposed(s, a.t) {
      var q :| q in s.runs && (s.runs[q].Saved? || s.runs[q].begunAt < a.t - RUN_LEASE_SECONDS);
      assert q in Apply(s, a).runs && a.r in Apply(s, a).runs;
    } else {
      InvPreserved(s, a);
    }
  }

  ghost predicate CanRun(s: State, steps: seq<Step>)
    decreases |steps|
  {
    steps == [] || (Enabled(s, steps[0]) && CanRun(Apply(s, steps[0]), steps[1..]))
  }

  ghost function Exec(s: State, steps: seq<Step>): State
    requires CanRun(s, steps)
    decreases |steps|
  {
    if steps == [] then s else Exec(Apply(s, steps[0]), steps[1..])
  }

  ghost predicate DisciplinedRun(s: State, steps: seq<Step>)
    ensures DisciplinedRun(s, steps) ==> CanRun(s, steps)
    decreases |steps|
  {
    steps == [] ||
    (Enabled(s, steps[0]) && Disciplined(s, steps[0]) && DisciplinedRun(Apply(s, steps[0]), steps[1..]))
  }

  /** One run at a time, over every disciplined run of any number of callers. */
  lemma {:induction false} OneRunAtATime(s: State, steps: seq<Step>)
    requires Inv(s) && SavedIsFinal(s) && DisciplinedRun(s, steps)
    ensures Inv(Exec(s, steps)) && SavedIsFinal(Exec(s, steps))
    decreases |steps|
  {
    if steps != [] {
      InvPreserved(s, steps[0]);
      SavedIsFinalPreserved(s, steps[0]);
      OneRunAtATime(Apply(s, steps[0]), steps[1..]);
    }
  }

  /** Lease and status discipline are not enough: a run that begins between another's
      save and its end loses its start time to that end, and a third one gets in. Every
      run is inside its lease, and only holders write the status. */
  function SaveEndGap(): seq<Step> {
    [Begin(0, 1000.0), Save(0, true), Begin(1, 1000.0), End(0), Begin(2, 1000.0)]
  }

  lemma SaveEndGapBreaksExclusion()
    ensures var s0 := State(1000.0, Project(Uploaded, None), map[]);
      && Inv(s0) && CanRun(s0, SaveEndGap())
      && (var s := Exec(s0, SaveEndGap());
          && 1 in s.runs && 2 in s.runs
          && s.runs[1] == Working(s.now) && s.runs[2] == Working(s.now))
  {
    var s0 := State(1000.0, Project(Uploaded, None), map[]);
    var a := SaveEndGap();
    var s1 := Apply(s0, a[0]);
    var s2 := Apply(s1, a[1]);
    var s3 := Apply(s2, a[2]);
    var s4 := Apply(s3, a[3]);
    var s5 := Apply(s4, a[4]);
    var a4 := [Begin(2, 1000.0)];
    var a3 := [End(0), Begin(2, 1000.0)];
    var a2 := [Begin(1, 1000.0), End(0), Begin(2, 1000.0)];
    var a1 := [Save(0, true), Begin(1, 1000.0), End(0), Begin(2, 1000.0)];
    assert a[1..] == a1 && a1[1..] == a2 && a2[1..] == a3 && a3[1..] == a4 && a4[1..] == [];
    assert CanRun(s5, []) && CanRun(s4, a4) && CanRun(s3, a3) && CanRun(s2, a2) && CanRun(s1, a1);
    assert Exec(s4, a4) == s5 && Exec(s3, a3) == s5 && Exec(s2, a2) == s5 && Exec(s1, a1) == s5;
  }
}
