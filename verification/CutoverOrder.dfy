/**
 The planned waves against the observed calls (`_wave_violations`, `analyze_dependencies`):
 what the check finds, and what its silence means.
 */
module CutoverOrder {
  import opened Options
  import opened Text
  import opened Sorting
  import opened Inventory
  import opened PlanModel
  import opened Dependencies
  import opened MutualGroups
  import opened Observed
  import Waves

  // ---------- the schedule ----------

  /** The sequence number of the last of the first n waves that lists the name. */
  function WaveBelow(waves: seq<Waves.Wave>, name: string, n: nat): Option<nat>
    requires n <= |waves|
  {
    if n == 0 then None
    else if name in waves[n - 1].workloads then Some(waves[n - 1].sequence)
    else WaveBelow(waves, name, n - 1)
  }

  predicate Holds(m: map<string, nat>, name: string, wave: Option<nat>) {
    if name in m then wave == Some(m[name]) else wave == None
  }

  ghost predicate Schedules(m: map<string, nat>, waves: seq<Waves.Wave>, n: nat)
    requires n <= |waves|
  {
    forall name :: Holds(m, name, WaveBelow(waves, name, n))
  }

  method ScheduleOf(waves: seq<Waves.Wave>) returns (waveOf: map<string, nat>)
    ensures Schedules(waveOf, waves, |waves|)
  {
    waveOf := map[];
    for n := 0 to |waves|
      invariant Schedules(waveOf, waves, n)
    {
      ghost var before := waveOf;
      var names := waves[n].workloads;
      for i := 0 to |names|
        invariant forall name :: name in waveOf <==> name in before || name in names[..i]
        invariant forall name :: name in waveOf ==>
          waveOf[name] == if name in names[..i] then waves[n].sequence else before[name]
      {
        waveOf := waveOf[names[i] := waves[n].sequence];
      }
      assert names[..|names|] == names;
      ScheduleStep(before, waveOf, waves, n);
    }
  }

  lemma ScheduleStep(before: map<string, nat>, after: map<string, nat>, waves: seq<Waves.Wave>, n: nat)
    requires n < |waves| && Schedules(before, waves, n)
    requires forall name :: name in after <==> name in before || name in waves[n].workloads
    requires forall name :: name in after ==>
      after[name] == if name in waves[n].workloads then waves[n].sequence else before[name]
    ensures Schedules(after, waves, n + 1)
  {
    var next := n + 1;
    forall name ensures Holds(after, name, WaveBelow(waves, name, next)) {
      assert Holds(before, name, WaveBelow(waves, name, n));
    }
  }

  // ---------- violations ----------

  datatype WaveViolation = WaveViolation(source: string, sourceWave: nat, target: string, targetWave: nat, ports: set<int>)

  /** The dependency moves before what it needs; names without a wave are skipped. */
  predicate Backwards(d: Dependency, waveOf: map<string, nat>) {
    d.source in waveOf && d.target in waveOf && waveOf[d.source] < waveOf[d.target]
  }

  function ViolationOf(d: Dependency, waveOf: map<string, nat>): WaveViolation
    requires Backwards(d, waveOf)
  {
    WaveViolation(d.source, waveOf[d.source], d.target, waveOf[d.target], d.ports)
  }

  predicate ViolationLeq(a: WaveViolation, b: WaveViolation) {
    a.sourceWave < b.sourceWave || (a.sourceWave == b.sourceWave && LexLeq(a.source, b.source))
  }

  lemma ViolationOrder()
    ensures TotalOrder(ViolationLeq)
  {
    forall a: WaveViolation, b: WaveViolation ensures ViolationLeq(a, b) || ViolationLeq(b, a) {
      LexTotal(a.source, b.source);
    }
    forall a: WaveViolation, b: WaveViolation, c: WaveViolation | ViolationLeq(a, b) && ViolationLeq(b, c)
      ensures ViolationLeq(a, c)
    {
      if a.sourceWave == b.sourceWave == c.sourceWave {
        LexTransitive(a.source, b.source, c.source);
      }
    }
  }

  /** The violation names both ends and their waves, and what the calls used. */
  predicate Flags(v: WaveViolation, d: Dependency, waveOf: map<string, nat>) {
    && d.source in waveOf && d.target in waveOf && waveOf[d.source] < waveOf[d.target]
    && v.source == d.source && v.sourceWave == waveOf[d.source]
    && v.target == d.target && v.targetWave == waveOf[d.target] && v.ports == d.ports
  }

  ghost function Broken(deps: seq<Dependency>, waveOf: map<string, nat>, n: nat): set<nat>
    requires n <= |deps|
  {
    set i: nat | i < n && Backwards(deps[i], waveOf)
  }

  /** One violation per dependency the order gets backwards. */
  ghost predicate Reports(violations: seq<WaveViolation>, deps: seq<Dependency>, waveOf: map<string, nat>, n: nat)
    requires n <= |deps|
  {
    && (forall v :: v in violations <==> exists i :: 0 <= i < n && Flags(v, deps[i], waveOf))
    && |violations| == |Broken(deps, waveOf, n)|
  }

  /** By source, then target. */
  predicate CallLeq(a: WaveViolation, b: WaveViolation) {
    PairLeq((a.source, a.target), (b.source, b.target))
  }

  /** By wave, then source, then target. */
  ghost predicate InOrder(violations: seq<WaveViolation>) {
    forall i, j :: 0 <= i < j < |violations| ==>
      || violations[i].sourceWave < violations[j].sourceWave
      || (violations[i].sourceWave == violations[j].sourceWave && CallLeq(violations[i], violations[j]))
  }

  method FindViolations(deps: seq<Dependency>, waveOf: map<string, nat>) returns (violations: seq<WaveViolation>)
    requires Ordered(DependencyKeys(deps), PairLeq)
    ensures Reports(violations, deps, waveOf, |deps|)
    ensures InOrder(violations)
  {
    var found := Collect(deps, waveOf);
    violations := SortBy(found, ViolationLeq);
    ViolationOrder();
    SortSorts(found, ViolationLeq);
    PermutedMembers(found, violations);
    SortStable(found, ViolationLeq, CallLeq);
    StableInOrder(violations);
  }

  method Collect(deps: seq<Dependency>, waveOf: map<string, nat>) returns (violations: seq<WaveViolation>)
    requires Ordered(DependencyKeys(deps), PairLeq)
    ensures Reports(violations, deps, waveOf, |deps|)
    ensures Ordered(violations, CallLeq)
  {
    violations := [];
    for i := 0 to |deps|
      invariant Reports(violations, deps, waveOf, i) && Ordered(violations, CallLeq)
    {
      ReportStep(violations, deps, waveOf, i);
      if Backwards(deps[i], waveOf) {
        LaterCall(violations, deps, waveOf, i);
        violations := violations + [ViolationOf(deps[i], waveOf)];
      }
    }
  }

  lemma LaterCall(violations: seq<WaveViolation>, deps: seq<Dependency>, waveOf: map<string, nat>, i: nat)
    requires i < |deps| && Reports(violations, deps, waveOf, i) && Ordered(DependencyKeys(deps), PairLeq)
    requires Backwards(deps[i], waveOf)
    ensures forall v :: v in violations ==> CallLeq(v, ViolationOf(deps[i], waveOf))
  {
    forall v | v in violations ensures CallLeq(v, ViolationOf(deps[i], waveOf)) {
      var j :| 0 <= j < i && Flags(v, deps[j], waveOf);
      assert PairLeq(DependencyKeys(deps)[j], DependencyKeys(deps)[i]);
    }
  }

  lemma StableInOrder(violations: seq<WaveViolation>)
    requires Ordered(violations, ViolationLeq) && Stable(violations, ViolationLeq, CallLeq)
    ensures InOrder(violations)
  {
    forall i, j | 0 <= i < j < |violations| && violations[i].sourceWave == violations[j].sourceWave
      ensures CallLeq(violations[i], violations[j])
    {
      assert ViolationLeq(violations[i], violations[j]);
      LexTotal(violations[i].source, violations[j].source);
    }
  }

  lemma ReportStep(violations: seq<WaveViolation>, deps: seq<Dependency>, waveOf: map<string, nat>, i: nat)
    requires i < |deps| && Reports(violations, deps, waveOf, i)
    ensures Reports(
      if Backwards(deps[i], waveOf) then violations + [ViolationOf(deps[i], waveOf)] else violations, deps, waveOf, i + 1)
  {
    var more := if Backwards(deps[i], waveOf) then violations + [ViolationOf(deps[i], waveOf)] else violations;
    var n := i + 1;
    assert Broken(deps, waveOf, n) == Broken(deps, waveOf, i) + if Backwards(deps[i], waveOf) then {i} else {};
    forall v ensures v in more <==> exists j :: 0 <= j < n && Flags(v, deps[j], waveOf) {
      if v in more && v !in violations {
        assert Flags(v, deps[i], waveOf);
      }
      if j :| 0 <= j < n && Flags(v, deps[j], waveOf) {
        assert j == i ==> v == ViolationOf(deps[i], waveOf);
      }
    }
  }

  // ---------- the report ----------

  function EdgesOf(deps: seq<Dependency>): Edges {
    set i | 0 <= i < |deps| :: (deps[i].source, deps[i].target)
  }

  datatype Report = Report(
    dependencies: seq<Dependency>, external: seq<ExternalDependency>, mustMoveTogether: seq<seq<string>>,
    violations: seq<WaveViolation>, counts: Counts)

  /** `analyze_dependencies`; whether an address is private is asked of `isPrivate`. */
  method AnalyzeDependencies(
    flows: seq<Flow>, vms: seq<NormalizedVM>, isPrivate: string -> bool, waves: Option<seq<Waves.Wave>>,
    minConnections: int := MIN_CONNECTIONS, ignorePorts: Option<set<int>> := None)
    returns (report: Report, ghost view: View, ghost waveOf: map<string, nat>)
    ensures Indexes(view.index, vms, |vms|) && view.minConnections == minConnections
    ensures view.ignore == if ignorePorts.Some? then ignorePorts.value else INFRASTRUCTURE_PORTS
    ensures DependenciesOf(report.dependencies, flows, view)
    ensures ExternalsOf(report.external, flows, view, isPrivate)
    ensures report.counts == Counted(flows, view, |flows|)
    ensures CallsReported(report.dependencies, flows, vms, view.ignore, minConnections)
    ensures ExitsReported(report.external, flows, vms, view.ignore, minConnections)
    ensures FlowsCounted(report.counts, flows, vms, view.ignore, minConnections)
    ensures EachIsGroup(EdgesOf(report.dependencies), report.mustMoveTogether)
    ensures PairwiseDisjoint(report.mustMoveTogether)
    ensures forall a, b :: a != b ==>
      (Together(report.mustMoveTogether, a, b) <==> Linked(EdgesOf(report.dependencies), a, b))
    ensures waves.Some? ==> Schedules(waveOf, waves.value, |waves.value|)
    ensures waves.Some? ==>
      Reports(report.violations, report.dependencies, waveOf, |report.dependencies|) && InOrder(report.violations)
    ensures waves.None? ==> report.violations == []
  {
    var index := IndexByIp(vms);
    var v := View(index, if ignorePorts.Some? then ignorePorts.value else INFRASTRUCTURE_PORTS, minConnections);
    view := v;
    var pairs, externals, counts := Tally(flows, v);
    var deps := ListDependencies(pairs, flows, v);
    var external := ListExternals(externals, isPrivate, flows, v);
    ReportedCalls(deps, flows, vms, v);
    ReportedExits(external, flows, vms, v, isPrivate);
    CountsAgree(flows, vms, v, |flows|);
    var groups := FindGroups(EdgesOf(deps));
    var violations: seq<WaveViolation> := [];
    waveOf := map[];
    if waves.Some? {
      var schedule := ScheduleOf(waves.value);
      violations := FindViolations(deps, schedule);
      waveOf := schedule;
    }
    report := Report(deps, external, groups, violations, counts);
  }

  // ---------- what the check means ----------

  ghost predicate Scheduled(deps: seq<Dependency>, waveOf: map<string, nat>) {
    forall i :: 0 <= i < |deps| ==> deps[i].source in waveOf && deps[i].target in waveOf
  }

  lemma {:induction false} ChainSplits(edges: Edges, waveOf: map<string, nat>, path: seq<string>, a: string, b: string)
    returns (x: string, y: string)
    requires Connects(edges, path, a, b) && forall i :: 0 <= i < |path| ==> path[i] in waveOf
    requires waveOf[a] != waveOf[b]
    ensures x in path && y in path && Mutual(edges, x, y) && waveOf[x] < waveOf[y]
  {
    var init := path[..|path| - 1];
    var m := path[|path| - 2];
    if waveOf[m] == waveOf[b] {
      x, y := ChainSplits(edges, waveOf, init, a, m);
    } else {
      assert Mutual(edges, path[|path| - 2], path[|path| - 2 + 1]);
      x, y := if waveOf[m] < waveOf[b] then m else b, if waveOf[m] < waveOf[b] then b else m;
    }
  }

  lemma {:induction false} PathLinked(edges: Edges, path: seq<string>, a: string, b: string, i: nat)
    requires Connects(edges, path, a, b) && i < |path|
    ensures Linked(edges, a, path[i])
  {
    assert Connects(edges, path[..i + 1], a, path[i]);
  }

  /** A group split across waves has a violation between two of its own members. */
  lemma SplitGroupViolates(
    deps: seq<Dependency>, waveOf: map<string, nat>, violations: seq<WaveViolation>, g: seq<string>, a: string, b: string)
    returns (v: WaveViolation)
    requires Scheduled(deps, waveOf) && Reports(violations, deps, waveOf, |deps|)
    requires IsGroup(EdgesOf(deps), g) && a in g && b in g && a in waveOf && b in waveOf && waveOf[a] != waveOf[b]
    ensures v in violations && v.source in g && v.target in g
  {
    var edges := EdgesOf(deps);
    var path :| Connects(edges, path, a, b);
    forall i | 0 <= i < |path| ensures path[i] in g && path[i] in waveOf {
      PathLinked(edges, path, a, b, i);
      if i > 0 {
        assert Mutual(edges, path[i - 1], path[i - 1 + 1]);
      }
    }
    var x, y := ChainSplits(edges, waveOf, path, a, b);
    var i :| 0 <= i < |deps| && (deps[i].source, deps[i].target) == (x, y);
    v := ViolationOf(deps[i], waveOf);
  }

  /** A walk along dependencies, each caller to what it calls. */
  ghost predicate Walk(deps: seq<Dependency>, path: seq<string>) {
    forall i :: 0 <= i < |path| - 1 ==> (path[i], path[i + 1]) in EdgesOf(deps)
  }

  lemma SilentIff(deps: seq<Dependency>, waveOf: map<string, nat>, violations: seq<WaveViolation>)
    requires Reports(violations, deps, waveOf, |deps|)
    ensures violations == [] <==> forall i :: 0 <= i < |deps| ==> !Backwards(deps[i], waveOf)
  {
    if i :| 0 <= i < |deps| && Backwards(deps[i], waveOf) {
      assert ViolationOf(deps[i], waveOf) in violations;
    }
    if violations != [] {
      assert violations[0] in violations;
    }
  }

  /** With no violation, everything a workload needs, however indirectly, moves with it or earlier. */
  lemma {:induction false} QuietOrderIsSafe(deps: seq<Dependency>, waveOf: map<string, nat>, path: seq<string>)
    requires Scheduled(deps, waveOf) && forall i :: 0 <= i < |deps| ==> !Backwards(deps[i], waveOf)
    requires |path| > 1 && Walk(deps, path)
    ensures path[0] in waveOf && path[|path| - 1] in waveOf && waveOf[path[|path| - 1]] <= waveOf[path[0]]
  {
    var a, b := path[|path| - 2], path[|path| - 1];
    assert (path[|path| - 2], path[|path| - 2 + 1]) in EdgesOf(deps);
    var i :| 0 <= i < |deps| && (deps[i].source, deps[i].target) == (a, b);
    assert !Backwards(deps[i], waveOf);
    if |path| > 2 {
      var init := path[..|path| - 1];
      forall j | 0 <= j < |init| - 1 ensures (init[j], init[j + 1]) in EdgesOf(deps) {
        assert (path[j], path[j + 1]) in EdgesOf(deps);
      }
      QuietOrderIsSafe(deps, waveOf, init);
    }
  }

  // ---------- against the planner's own waves ----------

  ghost predicate OwnWaves(waves: seq<Waves.Wave>, slot: seq<nat>, compute: seq<ComputePlan>) {
    Waves.MovesInOrder(waves, slot, compute) && Waves.DistinctNames(compute)
  }

  lemma {:induction false} OnlyWave(waves: seq<Waves.Wave>, name: string, k: nat, n: nat)
    requires n <= |waves| && k < |waves| && waves[k].sequence == k
    requires forall l :: 0 <= l < |waves| ==> (name in waves[l].workloads <==> l == k)
    ensures WaveBelow(waves, name, n) == if k < n then Some(k) else None
  {
    if n > 0 {
      OnlyWave(waves, name, k, n - 1);
    }
  }

  /** Every planned workload has a wave: its own. */
  lemma WaveOfPlan(
    waves: seq<Waves.Wave>, slot: seq<nat>, compute: seq<ComputePlan>, waveOf: map<string, nat>, i: nat)
    requires OwnWaves(waves, slot, compute) && Schedules(waveOf, waves, |waves|) && i < |compute|
    ensures compute[i].vmName in waveOf && waveOf[compute[i].vmName] == slot[i]
  {
    Waves.ScheduledOnce(waves, slot, compute, i);
    assert Waves.ListsSlot(waves[slot[i]], slot[i], slot, compute);
    OnlyWave(waves, compute[i].vmName, slot[i], |waves|);
    assert Holds(waveOf, compute[i].vmName, WaveBelow(waves, compute[i].vmName, |waves|));
  }

  /** Under the planner's own waves a call is a violation exactly when its caller has to move before its target. */
  lemma ViolationIff(
    waves: seq<Waves.Wave>, slot: seq<nat>, compute: seq<ComputePlan>, waveOf: map<string, nat>,
    d: Dependency, i: nat, j: nat)
    requires OwnWaves(waves, slot, compute) && Schedules(waveOf, waves, |waves|)
    requires i < |compute| && j < |compute| && d.source == compute[i].vmName && d.target == compute[j].vmName
    ensures Backwards(d, waveOf) <==> Waves.MovesBefore(compute[i], compute[j])
  {
    WaveOfPlan(waves, slot, compute, waveOf, i);
    WaveOfPlan(waves, slot, compute, waveOf, j);
  }

  ghost predicate Planned(compute: seq<ComputePlan>, name: string) {
    exists a :: 0 <= a < |compute| && compute[a].vmName == name
  }

  /** Both ends of a dependency are machines of the inventory. */
  lemma EndsAreMachines(flows: seq<Flow>, vms: seq<NormalizedVM>, view: View, deps: seq<Dependency>, k: nat)
    returns (i: nat, j: nat)
    requires Indexes(view.index, vms, |vms|) && DependenciesOf(deps, flows, view) && k < |deps|
    ensures i < |vms| && vms[i].vmName == deps[k].source
    ensures j < |vms| && vms[j].vmName == deps[k].target
  {
    assert DependencyKeys(deps)[k] == (deps[k].source, deps[k].target);
    var f :| 0 <= f < |flows| && RouteOf(view, flows[f]) == Mapped(deps[k].source, deps[k].target, true);
    i := OwnerOf(vms, view, flows[f].srcIp);
    j := OwnerOf(vms, view, flows[f].dstIp);
  }

  lemma OwnerOf(vms: seq<NormalizedVM>, view: View, ip: string) returns (i: nat)
    requires Indexes(view.index, vms, |vms|) && ip in view.index
    ensures i < |vms| && vms[i].vmName == view.index[ip]
  {
    assert Lookup(view.index, ip, OwnerBelow(vms, ip, |vms|));
    OwnerIsFirst(vms, ip, |vms|);
    i :| 0 <= i < |vms| && Owns(vms, i, ip) && OwnerBelow(vms, ip, |vms|).value == vms[i].vmName;
  }

  /** Over one estate the planner's schedule leaves no end of a dependency out. */
  lemma OwnEstateIsScheduled(
    waves: seq<Waves.Wave>, slot: seq<nat>, compute: seq<ComputePlan>, waveOf: map<string, nat>,
    flows: seq<Flow>, vms: seq<NormalizedVM>, view: View, deps: seq<Dependency>)
    requires OwnWaves(waves, slot, compute) && Schedules(waveOf, waves, |waves|)
    requires Indexes(view.index, vms, |vms|) && DependenciesOf(deps, flows, view)
    requires forall i :: 0 <= i < |vms| ==> Planned(compute, vms[i].vmName)
    ensures Scheduled(deps, waveOf)
  {
    forall k | 0 <= k < |deps| ensures deps[k].source in waveOf && deps[k].target in waveOf {
      var i, j := EndsAreMachines(flows, vms, view, deps, k);
      assert Planned(compute, vms[i].vmName) && Planned(compute, vms[j].vmName);
      var a :| 0 <= a < |compute| && compute[a].vmName == deps[k].source;
      WaveOfPlan(waves, slot, compute, waveOf, a);
      var b :| 0 <= b < |compute| && compute[b].vmName == deps[k].target;
      WaveOfPlan(waves, slot, compute, waveOf, b);
    }
  }
}
