/**
 One compute plan per machine (`agents/rightsizing.py`, `sizing.py`, and the catalog
 search of `targets/base.py`). `suggest` is the model's proposal and may be anything.
 */
module Rightsizing {
  import opened Options
  import opened Text
  import opened Naming
  import opened Inventory
  import opened PlanModel
  import opened Lists

  // ---------- the catalog search ----------

  predicate Fits(i: InstanceSpec, needCpu: real, needMemory: real, family: Option<string>) {
    i.vcpu as real >= needCpu && i.memoryGib >= needMemory && (family.None? || i.family == family.value)
  }

  /** Strict order of the sort key (price, vcpu, memory). */
  predicate Cheaper(a: InstanceSpec, b: InstanceSpec) {
    || a.usdPerHour < b.usdPerHour
    || (a.usdPerHour == b.usdPerHour &&
          (a.vcpu < b.vcpu || (a.vcpu == b.vcpu && a.memoryGib < b.memoryGib)))
  }

  predicate Larger(a: InstanceSpec, b: InstanceSpec) {
    a.vcpu > b.vcpu || (a.vcpu == b.vcpu && a.memoryGib > b.memoryGib)
  }

  /** Head of the fitting candidates sorted by price, if any fits. */
  function CheapestFit(catalog: seq<InstanceSpec>, needCpu: real, needMemory: real, family: Option<string>)
    : (best: Option<InstanceSpec>)
    ensures best.None? <==> forall i :: i in catalog ==> !Fits(i, needCpu, needMemory, family)
    ensures best.Some? ==> best.value in catalog && Fits(best.value, needCpu, needMemory, family)
    ensures best.Some? ==> forall i :: i in catalog && Fits(i, needCpu, needMemory, family) ==> !Cheaper(i, best.value)
  {
    if catalog == [] then None
    else
      var last, rest := catalog[|catalog| - 1], catalog[..|catalog| - 1];
      assert catalog == rest + [last];
      var best := CheapestFit(rest, needCpu, needMemory, family);
      if Fits(last, needCpu, needMemory, family) && (best.None? || Cheaper(last, best.value)) then Some(last) else best
  }

  /** The best effort when nothing fits. */
  function Largest(catalog: seq<InstanceSpec>): (best: InstanceSpec)
    requires catalog != []
    ensures best in catalog && forall i :: i in catalog ==> !Larger(i, best)
  {
    var last, rest := catalog[|catalog| - 1], catalog[..|catalog| - 1];
    assert catalog == rest + [last];
    if rest == [] then last
    else
      var best := Largest(rest);
      if Larger(last, best) then last else best
  }

  function Need(amount: real, headroom: real): real {
    amount * headroom
  }

  function SmallestFit(
    catalog: seq<InstanceSpec>, vcpu: real, memoryGib: real, headroom: real, preferFamily: Option<string>)
    : (best: InstanceSpec)
    requires catalog != []
    ensures best in catalog
  {
    var preferred := if preferFamily.Some? && preferFamily.value != ""
      then CheapestFit(catalog, Need(vcpu, headroom), Need(memoryGib, headroom), preferFamily) else None;
    var anyFit := CheapestFit(catalog, Need(vcpu, headroom), Need(memoryGib, headroom), None);
    if preferred.Some? then preferred.value
    else if anyFit.Some? then anyFit.value
    else Largest(catalog)
  }

  /** Its sort key comes first; of equal keys, the first in the catalog. */
  ghost predicate CheapestAt(
    catalog: seq<InstanceSpec>, k: nat, needCpu: real, needMemory: real, family: Option<string>)
  {
    && k < |catalog| && Fits(catalog[k], needCpu, needMemory, family)
    && forall j :: 0 <= j < |catalog| && Fits(catalog[j], needCpu, needMemory, family) ==>
         !Cheaper(catalog[j], catalog[k]) && (j < k ==> Cheaper(catalog[k], catalog[j]))
  }

  lemma {:induction false} CheapestIsFirst(
    catalog: seq<InstanceSpec>, needCpu: real, needMemory: real, family: Option<string>)
    returns (k: nat)
    requires CheapestFit(catalog, needCpu, needMemory, family).Some?
    ensures CheapestAt(catalog, k, needCpu, needMemory, family)
    ensures CheapestFit(catalog, needCpu, needMemory, family).value == catalog[k]
  {
    var last, rest := catalog[|catalog| - 1], catalog[..|catalog| - 1];
    var best := CheapestFit(rest, needCpu, needMemory, family);
    if Fits(last, needCpu, needMemory, family) && (best.None? || Cheaper(last, best.value)) {
      k := |catalog| - 1;
      forall j | 0 <= j < |rest| && Fits(catalog[j], needCpu, needMemory, family)
        ensures !Cheaper(catalog[j], last) && Cheaper(last, catalog[j])
      {
        assert rest[j] in rest;
      }
    } else {
      k := CheapestIsFirst(rest, needCpu, needMemory, family);
    }
  }

  /** None exceeds it; of equals, the first in the catalog. */
  ghost predicate LargestAt(catalog: seq<InstanceSpec>, k: nat) {
    && k < |catalog|
    && forall j :: 0 <= j < |catalog| ==> !Larger(catalog[j], catalog[k]) && (j < k ==> Larger(catalog[k], catalog[j]))
  }

  lemma {:induction false} LargestIsFirst(catalog: seq<InstanceSpec>) returns (k: nat)
    requires catalog != []
    ensures LargestAt(catalog, k) && Largest(catalog) == catalog[k]
  {
    var last, rest := catalog[|catalog| - 1], catalog[..|catalog| - 1];
    if rest == [] || Larger(last, Largest(rest)) {
      k := |catalog| - 1;
      forall j | 0 <= j < |rest| ensures !Larger(catalog[j], last) && Larger(last, catalog[j]) {
        assert rest[j] in rest;
      }
    } else {
      k := LargestIsFirst(rest);
    }
  }

  /** Of the family asked for, if one was. */
  predicate Preferred(i: InstanceSpec, preferFamily: Option<string>) {
    preferFamily.Some? && preferFamily.value != "" && i.family == preferFamily.value
  }

  /**
   Type k of the catalog is the one to take for a load: one that carries it, of the preferred
   family if that has any, and of those the cheapest. The largest, if none carries it.
   */
  ghost predicate BestAt(catalog: seq<InstanceSpec>, k: nat, carries: InstanceSpec -> bool, preferFamily: Option<string>) {
    && k < |catalog|
    && (forall j :: 0 <= j < |catalog| && carries(catalog[j]) ==>
          && carries(catalog[k])
          && (Preferred(catalog[j], preferFamily) ==> Preferred(catalog[k], preferFamily))
          && (Preferred(catalog[j], preferFamily) == Preferred(catalog[k], preferFamily) ==>
                !Cheaper(catalog[j], catalog[k]) && (j < k ==> Cheaper(catalog[k], catalog[j]))))
    && ((forall j :: 0 <= j < |catalog| ==> !carries(catalog[j])) ==> LargestAt(catalog, k))
  }

  lemma SmallestFitIsBestAt(
    catalog: seq<InstanceSpec>, vcpu: real, memoryGib: real, headroom: real, preferFamily: Option<string>,
    carries: InstanceSpec -> bool)
    returns (k: nat)
    requires catalog != []
    requires forall i :: i in catalog ==> (carries(i) <==> Fits(i, Need(vcpu, headroom), Need(memoryGib, headroom), None))
    ensures BestAt(catalog, k, carries, preferFamily)
    ensures SmallestFit(catalog, vcpu, memoryGib, headroom, preferFamily) == catalog[k]
  {
    var needCpu, needMemory := Need(vcpu, headroom), Need(memoryGib, headroom);
    var asked := preferFamily.Some? && preferFamily.value != "";
    if asked && CheapestFit(catalog, needCpu, needMemory, preferFamily).Some? {
      k := CheapestIsFirst(catalog, needCpu, needMemory, preferFamily);
      PreferredBest(catalog, k, needCpu, needMemory, preferFamily, carries);
    } else if CheapestFit(catalog, needCpu, needMemory, None).Some? {
      k := CheapestIsFirst(catalog, needCpu, needMemory, None);
      forall j | 0 <= j < |catalog| && Fits(catalog[j], needCpu, needMemory, None)
        ensures !Preferred(catalog[j], preferFamily)
      {
        assert catalog[j] in catalog;
      }
    } else {
      k := LargestIsFirst(catalog);
    }
  }

  lemma PreferredBest(
    catalog: seq<InstanceSpec>, k: nat, needCpu: real, needMemory: real, family: Option<string>, carries: InstanceSpec -> bool)
    requires CheapestAt(catalog, k, needCpu, needMemory, family) && family.Some? && family.value != ""
    requires forall i :: i in catalog ==> (carries(i) <==> Fits(i, needCpu, needMemory, None))
    ensures BestAt(catalog, k, carries, family)
  {
  }

  // ---------- demand and volumes ----------

  datatype Demand = Demand(vcpu: real, memoryGib: real, headroom: real)

  function AtLeastOne(x: real): real {
    if x < 1.0 then 1.0 else x
  }

  function Utilized(pct: Option<real>): real {
    if pct.Some? then pct.value / 100.0 else 1.0
  }

  function InUse(given: real, pct: Option<real>): real {
    given * Utilized(pct)
  }

  /** Observed demand at the target utilization, or the allocation with a fifth on top. */
  function EffectiveDemand(h: Hardware, targetUtilization: real): Demand
    requires targetUtilization > 0.0
  {
    if h.cpuUtilPct.Some? || h.memUtilPct.Some? then
      Demand(AtLeastOne(InUse(h.cpu as real, h.cpuUtilPct)), AtLeastOne(InUse(h.memoryGib, h.memUtilPct)),
        1.0 / targetUtilization)
    else Demand(h.cpu as real, h.memoryGib, 1.2)
  }

  /** At the target utilization the capacity takes what was seen in use, and at least one unit. */
  predicate Takes(capacity: real, given: real, utilPct: Option<real>, targetUtilization: real) {
    && capacity * targetUtilization >= 1.0
    && capacity * targetUtilization >= if utilPct.Some? then given * (utilPct.value / 100.0) else given
  }

  /** A type carries a machine: what it used, where that is known; else all it had, with a fifth to spare. */
  predicate CarriesMachine(i: InstanceSpec, h: Hardware, targetUtilization: real) {
    if h.cpuUtilPct.Some? || h.memUtilPct.Some? then
      && Takes(i.vcpu as real, h.cpu as real, h.cpuUtilPct, targetUtilization)
      && Takes(i.memoryGib, h.memoryGib, h.memUtilPct, targetUtilization)
    else i.vcpu as real >= h.cpu as real * 1.2 && i.memoryGib >= h.memoryGib * 1.2
  }

  lemma Scaled(capacity: real, need: real, u: real)
    requires u > 0.0
    ensures capacity >= need * (1.0 / u) <==> capacity * u >= need
  {
    var inverse := 1.0 / u;
    assert inverse > 0.0 && inverse * u == 1.0;
    assert (capacity * u) * inverse == capacity * (u * inverse) == capacity;
    if capacity * u >= need {
      assert (capacity * u - need) * inverse >= 0.0;
    } else {
      assert (need - capacity * u) * inverse > 0.0;
    }
  }

  lemma TakesIff(capacity: real, given: real, utilPct: Option<real>, u: real, need: real, headroom: real)
    requires u > 0.0 && headroom == 1.0 / u && need == AtLeastOne(InUse(given, utilPct))
    ensures Takes(capacity, given, utilPct, u) <==> capacity >= Need(need, headroom)
  {
    Scaled(capacity, need, u);
    var room, used := capacity * u, InUse(given, utilPct);
    assert utilPct.None? ==> used == given;
    assert room >= AtLeastOne(used) <==> room >= 1.0 && room >= used;
  }

  ghost predicate AgreeAt(i: InstanceSpec, h: Hardware, targetUtilization: real, d: Demand) {
    Fits(i, Need(d.vcpu, d.headroom), Need(d.memoryGib, d.headroom), None) <==> CarriesMachine(i, h, targetUtilization)
  }

  /** The demand asked of the catalog is the machine's load. */
  lemma DemandIsLoad(i: InstanceSpec, h: Hardware, targetUtilization: real)
    requires targetUtilization > 0.0
    ensures AgreeAt(i, h, targetUtilization, EffectiveDemand(h, targetUtilization))
  {
    if h.cpuUtilPct.Some? || h.memUtilPct.Some? {
      CpuIff(i, h, targetUtilization);
      MemoryIff(i, h, targetUtilization);
    } else {
      assert EffectiveDemand(h, targetUtilization) == Demand(h.cpu as real, h.memoryGib, 1.2);
    }
  }

  lemma CpuIff(i: InstanceSpec, h: Hardware, u: real)
    requires u > 0.0 && (h.cpuUtilPct.Some? || h.memUtilPct.Some?)
    ensures var d := EffectiveDemand(h, u);
      Takes(i.vcpu as real, h.cpu as real, h.cpuUtilPct, u) <==> i.vcpu as real >= Need(d.vcpu, d.headroom)
  {
    var d := EffectiveDemand(h, u);
    TakesIff(i.vcpu as real, h.cpu as real, h.cpuUtilPct, u, d.vcpu, d.headroom);
  }

  lemma MemoryIff(i: InstanceSpec, h: Hardware, u: real)
    requires u > 0.0 && (h.cpuUtilPct.Some? || h.memUtilPct.Some?)
    ensures var d := EffectiveDemand(h, u);
      Takes(i.memoryGib, h.memoryGib, h.memUtilPct, u) <==> i.memoryGib >= Need(d.memoryGib, d.headroom)
  {
    var d := EffectiveDemand(h, u);
    TakesIff(i.memoryGib, h.memoryGib, h.memUtilPct, u, d.memoryGib, d.headroom);
  }

  const MIN_ROOT_GIB := 30

  function Ceil(x: real): int {
    -(-x).Floor
  }

  /** Sizes in whole GiB of the disks that have any size. */
  function WholeDisks(disks: seq<real>): seq<int> {
    if disks == [] then []
    else (if disks[0] > 0.0 then [Ceil(disks[0])] else []) + WholeDisks(disks[1..])
  }

  function RootAndExtra(disks: seq<real>): (int, seq<int>) {
    var whole := WholeDisks(disks);
    if whole == [] then (MIN_ROOT_GIB, [])
    else (if whole[0] < MIN_ROOT_GIB then MIN_ROOT_GIB else whole[0], whole[1..])
  }

  function SumInts(xs: seq<int>): int {
    if xs == [] then 0 else xs[0] + SumInts(xs[1..])
  }

  function PositiveTotal(disks: seq<real>): real {
    if disks == [] then 0.0 else (if disks[0] > 0.0 then disks[0] else 0.0) + PositiveTotal(disks[1..])
  }

  lemma {:induction false} WholeDisksCover(disks: seq<real>)
    ensures SumInts(WholeDisks(disks)) as real >= PositiveTotal(disks)
    ensures SumInts(WholeDisks(disks)) as real <= PositiveTotal(disks) + |WholeDisks(disks)| as real
    ensures forall k :: 0 <= k < |WholeDisks(disks)| ==> WholeDisks(disks)[k] >= 1
  {
    if disks != [] {
      WholeDisksCover(disks[1..]);
      if disks[0] > 0.0 {
        assert WholeDisks(disks)[1..] == WholeDisks(disks[1..]);
      } else {
        assert WholeDisks(disks) == WholeDisks(disks[1..]);
      }
    }
  }

  /** The whole GiB that just hold the disk. */
  predicate JustHolds(gib: int, disk: real) {
    (gib - 1) as real < disk && disk <= (gib as real)
  }

  /** The positions of the disks that have any size. */
  ghost predicate PositiveDisks(at: seq<nat>, disks: seq<real>) {
    Increasing(at) && forall i: nat :: i in at <==> i < |disks| && disks[i] > 0.0
  }

  /**
   The root volume holds the first disk that has any size, and is never small; each further
   such disk has a volume of its own, in order, that just holds it.
   */
  ghost predicate HoldDisks(root: int, extra: seq<int>, disks: seq<real>) {
    exists at: seq<nat> :: PositiveDisks(at, disks) && OnePerDisk(root, extra, disks, at)
  }

  ghost predicate OnePerDisk(root: int, extra: seq<int>, disks: seq<real>, at: seq<nat>) {
    && (forall k :: 0 <= k < |at| ==> at[k] < |disks|)
    && (at == [] ==> root == 30 && extra == [])
    && (at != [] ==>
          && |extra| == |at| - 1
          && root >= 30 && (JustHolds(root, disks[at[0]]) || (root == 30 && disks[at[0]] <= 30.0))
          && forall k :: 0 <= k < |extra| ==> JustHolds(extra[k], disks[at[k + 1]]))
  }

  lemma {:induction false} WholeAppend(disks: seq<real>, x: real)
    ensures WholeDisks(disks + [x]) == WholeDisks(disks) + if x > 0.0 then [Ceil(x)] else []
  {
    if disks != [] {
      WholeAppend(disks[1..], x);
      assert (disks + [x])[1..] == disks[1..] + [x];
    }
  }

  lemma {:induction false} WholeDisksAt(disks: seq<real>) returns (at: seq<nat>)
    ensures PositiveDisks(at, disks) && RoundedAt(disks, at)
  {
    if disks == [] {
      at := [];
    } else {
      var rest := disks[..|disks| - 1];
      var before := WholeDisksAt(rest);
      assert disks == rest + [disks[|rest|]];
      at := if disks[|rest|] > 0.0 then before + [|rest|] else before;
      WholeStep(rest, disks[|rest|], before);
      PositiveStep(rest, disks[|rest|], before);
    }
  }

  ghost predicate RoundedAt(disks: seq<real>, at: seq<nat>) {
    && |at| == |WholeDisks(disks)|
    && forall k :: 0 <= k < |at| ==> at[k] < |disks| && JustHolds(WholeDisks(disks)[k], disks[at[k]])
  }

  lemma WholeStep(disks: seq<real>, x: real, at: seq<nat>)
    requires RoundedAt(disks, at)
    ensures RoundedAt(disks + [x], if x > 0.0 then at + [|disks|] else at)
  {
    WholeAppend(disks, x);
    assert JustHolds(Ceil(x), x);
  }

  lemma PositiveStep(disks: seq<real>, x: real, at: seq<nat>)
    requires PositiveDisks(at, disks)
    ensures PositiveDisks(if x > 0.0 then at + [|disks|] else at, disks + [x])
  {
    IncreasingStep(at, |disks|);
    forall i: nat | i < |disks| ensures (disks + [x])[i] == disks[i] {
    }
  }

  /**
   No disk is lost in planning: the volumes are the disks', each rounded up, and together
   less than a GiB a disk (beyond the root floor) larger.
   */
  lemma VolumesHoldDisks(disks: seq<real>)
    ensures var (root, extra) := RootAndExtra(disks); HoldDisks(root, extra, disks) && Covers(root, extra, disks)
  {
    WholeDisksCover(disks);
    var at := WholeDisksAt(disks);
    var (root, extra) := RootAndExtra(disks);
    assert OnePerDisk(root, extra, disks, at);
  }

  predicate Covers(root: int, extra: seq<int>, disks: seq<real>) {
    && (root + SumInts(extra)) as real >= PositiveTotal(disks)
    && (root + SumInts(extra)) as real <= PositiveTotal(disks) + (|extra| + 1 + MIN_ROOT_GIB) as real
  }

  // ---------- unique resource names ----------

  ghost predicate SameButNames(before: seq<ComputePlan>, after: seq<ComputePlan>) {
    && |after| == |before|
    && forall i :: 0 <= i < |before| ==> after[i] == before[i].(resourceName := after[i].resourceName)
  }

  /** The labels of the first n plans. */
  ghost function Labels(plans: seq<ComputePlan>, n: nat): set<string>
    requires n <= |plans|
  {
    set i | 0 <= i < n :: plans[i].resourceName
  }

  /** How often the first n plans asked for a label or were given it: what `seen` counts. */
  ghost function Uses(before: seq<ComputePlan>, after: seq<ComputePlan>, name: string, n: nat): nat
    requires n <= |before| && n <= |after|
  {
    if n == 0 then 0
    else
      Uses(before, after, name, n - 1)
      + if before[n - 1].resourceName == name || after[n - 1].resourceName == name then 1 else 0
  }

  /** Numbered from `start` on, k is the first that is free. */
  ghost predicate FirstFree(taken: set<string>, base: string, start: nat, k: nat) {
    && start <= k && base + "_" + Decimal(k) !in taken
    && forall m: nat :: start <= m < k ==> base + "_" + Decimal(m) in taken
  }

  /** Given the labels `taken` before it and how often its own was used, a plan keeps `base`
      or gets it with the first free number. */
  ghost predicate LabelChosen(base: string, chosen: string, taken: set<string>, uses: nat) {
    if base !in taken then chosen == base
    else exists k: nat :: FirstFree(taken, base, uses + 1, k) && chosen == base + "_" + Decimal(k)
  }

  /** Each label was chosen given those before it. */
  ghost predicate Relabelled(before: seq<ComputePlan>, after: seq<ComputePlan>, n: nat) {
    && n <= |before| == |after|
    && forall i :: 0 <= i < n ==> Chosen(before, after, i)
  }

  ghost predicate Chosen(before: seq<ComputePlan>, after: seq<ComputePlan>, i: nat)
    requires i < |before| == |after|
  {
    LabelChosen(before[i].resourceName, after[i].resourceName, Labels(after, i), Uses(before, after, before[i].resourceName, i))
  }

  lemma {:induction false} UsesAgree(
    before: seq<ComputePlan>, p: seq<ComputePlan>, q: seq<ComputePlan>, name: string, n: nat)
    requires n <= |before| && n <= |p| && n <= |q| && forall i :: 0 <= i < n ==> p[i].resourceName == q[i].resourceName
    ensures Uses(before, p, name, n) == Uses(before, q, name, n)
  {
    if n > 0 {
      UsesAgree(before, p, q, name, n - 1);
    }
  }

  lemma LabelsAgree(p: seq<ComputePlan>, q: seq<ComputePlan>, n: nat)
    requires n <= |p| && n <= |q| && forall i :: 0 <= i < n ==> p[i].resourceName == q[i].resourceName
    ensures Labels(p, n) == Labels(q, n)
  {
    forall x | x in Labels(p, n) ensures x in Labels(q, n) {
      var i :| 0 <= i < n && p[i].resourceName == x;
      assert q[i].resourceName == x;
    }
    forall x | x in Labels(q, n) ensures x in Labels(p, n) {
      var i :| 0 <= i < n && q[i].resourceName == x;
      assert p[i].resourceName == x;
    }
  }

  lemma RelabelStep(before: seq<ComputePlan>, after: seq<ComputePlan>, n: nat, chosen: string)
    requires Relabelled(before, after, n) && n < |before|
    requires LabelChosen(before[n].resourceName, chosen, Labels(after, n), Uses(before, after, before[n].resourceName, n))
    ensures Relabelled(before, Given(after, n, chosen), n + 1)
    ensures Labels(Given(after, n, chosen), n + 1) == Labels(after, n) + {chosen}
  {
    var after' := Given(after, n, chosen);
    forall i | 0 <= i <= n
      ensures Labels(after', i) == Labels(after, i)
      ensures Chosen(before, after', i)
    {
      LabelsAgree(after', after, i);
      UsesAgree(before, after', after, before[i].resourceName, i);
      assert i < n ==> Chosen(before, after, i) && after'[i] == after[i];
    }
    OneMoreLabel(after', n);
  }

  lemma OneMoreLabel(plans: seq<ComputePlan>, n: nat)
    requires n < |plans|
    ensures Labels(plans, n + 1) == Labels(plans, n) + {plans[n].resourceName}
  {
  }

  function Given(plans: seq<ComputePlan>, n: nat, chosen: string): seq<ComputePlan>
    requires n < |plans|
  {
    plans[n := plans[n].(resourceName := chosen)]
  }

  /** `seen` holds each label used so far and how often. */
  ghost predicate Remembers(seen: map<string, nat>, before: seq<ComputePlan>, after: seq<ComputePlan>, n: nat)
    requires n <= |before| && n <= |after|
  {
    && seen.Keys == Labels(after, n)
    && forall x :: Uses(before, after, x, n) == if x in seen then seen[x] else 0
  }

  lemma RememberStep(seen: map<string, nat>, before: seq<ComputePlan>, after: seq<ComputePlan>, n: nat, chosen: string)
    requires n < |before| == |after| && Relabelled(before, after, n) && Remembers(seen, before, after, n)
    requires LabelChosen(before[n].resourceName, chosen, Labels(after, n), Uses(before, after, before[n].resourceName, n))
    ensures var base := before[n].resourceName;
      Remembers(Noted(seen, base, chosen), before, Given(after, n, chosen), n + 1)
  {
    var base, next := before[n].resourceName, n + 1;
    var after', seen' := Given(after, n, chosen), Noted(seen, base, chosen);
    RelabelStep(before, after, n, chosen);
    forall x ensures Uses(before, after', x, next) == if x in seen' then seen'[x] else 0 {
      UsesAgree(before, after', after, x, n);
      assert Uses(before, after, x, n) == if x in seen then seen[x] else 0;
    }
  }

  function Noted(seen: map<string, nat>, base: string, chosen: string): map<string, nat> {
    var counted := seen[base := (if base in seen then seen[base] else 0) + 1];
    if chosen == base then counted else counted[chosen := 1]
  }

  /** The label for one plan, and what `seen` becomes. */
  method ChooseLabel(seen: map<string, nat>, base: string) returns (chosen: string, seen': map<string, nat>)
    requires forall x :: x in seen ==> seen[x] >= 1
    ensures LabelChosen(base, chosen, seen.Keys, if base in seen then seen[base] else 0)
    ensures seen' == Noted(seen, base, chosen)
  {
    chosen := base;
    var count := if base in seen then seen[base] else 0;
    seen' := seen[base := count + 1];
    if count != 0 {
      var k := FirstUnused(seen'.Keys, base + "_", count + 1);
      assert seen'.Keys == seen.Keys;
      chosen := base + "_" + Decimal(k);
      assert FirstFree(seen.Keys, base, count + 1, k);
      seen' := seen'[chosen := 1];
    }
  }

  /** Labels become pairwise distinct. A plan keeps its label exactly when no earlier plan
      was given it, even as a generated one; otherwise it gets the label with a number. */
  method EnsureUniqueResourceNames(plans: array<ComputePlan>)
    modifies plans
    ensures SameButNames(old(plans[..]), plans[..])
    ensures Relabelled(old(plans[..]), plans[..], plans.Length)
  {
    ghost var before, now := plans[..], plans[..];
    var seen: map<string, nat> := map[];
    for n := 0 to plans.Length
      invariant now == plans[..] && Progress(before, now, seen, n)
    {
      var base := plans[n].resourceName;
      assert now[n] == plans[n];
      ProgressAsks(before, now, seen, n);
      var chosen;
      ghost var known := seen;
      chosen, seen := ChooseLabel(seen, base);
      if chosen != base {
        plans[n] := plans[n].(resourceName := chosen);
      }
      ProgressStep(before, now, known, n, chosen);
      now := Given(now, n, chosen);
    }
  }

  /** The state of the loop before plan n. */
  ghost predicate Progress(before: seq<ComputePlan>, now: seq<ComputePlan>, seen: map<string, nat>, n: nat) {
    && n <= |before| == |now| && SameButNames(before, now) && now[n..] == before[n..]
    && Relabelled(before, now, n) && Remembers(seen, before, now, n)
    && forall x :: x in seen ==> seen[x] >= 1
  }

  lemma ProgressAsks(before: seq<ComputePlan>, now: seq<ComputePlan>, seen: map<string, nat>, n: nat)
    requires Progress(before, now, seen, n) && n < |before|
    ensures now[n] == before[n] && seen.Keys == Labels(now, n) && forall x :: x in seen ==> seen[x] >= 1
    ensures var base := now[n].resourceName; Uses(before, now, base, n) == if base in seen then seen[base] else 0
  {
    assert now[n..][0] == before[n..][0];
  }

  lemma ProgressStep(before: seq<ComputePlan>, now: seq<ComputePlan>, seen: map<string, nat>, n: nat, chosen: string)
    requires Progress(before, now, seen, n) && n < |before|
    requires LabelChosen(before[n].resourceName, chosen, Labels(now, n), Uses(before, now, before[n].resourceName, n))
    ensures Progress(before, Given(now, n, chosen), Noted(seen, before[n].resourceName, chosen), n + 1)
  {
    ProgressAsks(before, now, seen, n);
    RelabelStep(before, now, n, chosen);
    RememberStep(seen, before, now, n, chosen);
    assert Given(now, n, chosen)[n + 1..] == now[n..][1..];
    assert before[n + 1..] == before[n..][1..];
  }

  lemma LabelsDistinct(before: seq<ComputePlan>, after: seq<ComputePlan>)
    requires Relabelled(before, after, |before|)
    ensures forall i, j :: 0 <= i < j < |after| ==> after[i].resourceName != after[j].resourceName
  {
    forall i, j | 0 <= i < j < |after| ensures after[i].resourceName != after[j].resourceName {
      assert after[i].resourceName in Labels(after, j);
      assert Chosen(before, after, j);
    }
  }

  /** The first plan to ask for a label gets it, so relabelling an estate without
      collisions changes nothing. */
  lemma KeepsLabelIff(before: seq<ComputePlan>, after: seq<ComputePlan>, j: nat)
    requires Relabelled(before, after, |before|) && j < |before|
    ensures after[j].resourceName == before[j].resourceName <==>
      forall i :: 0 <= i < j ==> after[i].resourceName != before[j].resourceName
  {
    assert Chosen(before, after, j);
    if forall i :: 0 <= i < j ==> after[i].resourceName != before[j].resourceName {
      assert before[j].resourceName !in Labels(after, j);
    } else {
      assert before[j].resourceName in Labels(after, j);
    }
  }

  lemma LabelsStayIdentifiers(before: seq<ComputePlan>, after: seq<ComputePlan>)
    requires Relabelled(before, after, |before|)
    requires forall i :: 0 <= i < |before| ==> IsIdentifier(before[i].resourceName)
    ensures forall i :: 0 <= i < |after| ==> IsIdentifier(after[i].resourceName)
  {
    forall i | 0 <= i < |after| ensures IsIdentifier(after[i].resourceName) {
      var base := before[i].resourceName;
      assert Chosen(before, after, i);
      if k: nat :| after[i].resourceName == base + "_" + Decimal(k) {
        NumberedIdentifier(base, k);
      }
    }
  }

  // ---------- the plans ----------

  /** The suggested type where the cloud has it, else the one to take for the machine's load. */
  ghost predicate TypeFor(
    instanceType: string, suggested: string, h: Hardware, tier: Tier, target: Target, targetUtilization: real)
  {
    if target.InstanceExists(suggested) then instanceType == suggested
    else IsFallback(instanceType, h, tier, target, targetUtilization)
  }

  ghost predicate IsFallback(name: string, h: Hardware, tier: Tier, target: Target, targetUtilization: real) {
    exists k: nat ::
      && BestAt(target.catalog, k, i => CarriesMachine(i, h, targetUtilization), target.familyForTier(tier))
      && target.catalog[k].name == name
  }

  lemma FallbackType(h: Hardware, tier: Tier, target: Target, targetUtilization: real, d: Demand)
    requires target.catalog != []
    requires Agree(h, targetUtilization, d)
    ensures var fit := SmallestFit(target.catalog, d.vcpu, d.memoryGib, d.headroom, target.familyForTier(tier));
      IsFallback(fit.name, h, tier, target, targetUtilization)
  {
    var carries := i => CarriesMachine(i, h, targetUtilization);
    Carried(h, targetUtilization, d, carries);
    var k := SmallestFitIsBestAt(target.catalog, d.vcpu, d.memoryGib, d.headroom, target.familyForTier(tier), carries);
  }

  ghost predicate Agree(h: Hardware, targetUtilization: real, d: Demand) {
    forall i :: AgreeAt(i, h, targetUtilization, d)
  }

  lemma Carried(h: Hardware, targetUtilization: real, d: Demand, carries: InstanceSpec -> bool)
    requires Agree(h, targetUtilization, d)
    requires carries == (i => CarriesMachine(i, h, targetUtilization))
    ensures forall i :: carries(i) <==> Fits(i, Need(d.vcpu, d.headroom), Need(d.memoryGib, d.headroom), None)
  {
    forall i ensures carries(i) <==> Fits(i, Need(d.vcpu, d.headroom), Need(d.memoryGib, d.headroom), None) {
      assert AgreeAt(i, h, targetUtilization, d);
    }
  }

  lemma AllCarry(h: Hardware, targetUtilization: real)
    requires targetUtilization > 0.0
    ensures Agree(h, targetUtilization, EffectiveDemand(h, targetUtilization))
  {
    forall i ensures AgreeAt(i, h, targetUtilization, EffectiveDemand(h, targetUtilization)) {
      DemandIsLoad(i, h, targetUtilization);
    }
  }

  /** The instance type of a plan. */
  function TypeName(suggested: string, h: Hardware, tier: Tier, target: Target, targetUtilization: real): (name: string)
    requires target.catalog != [] && targetUtilization > 0.0
    ensures TypeFor(name, suggested, h, tier, target, targetUtilization)
  {
    AllCarry(h, targetUtilization);
    var demand := EffectiveDemand(h, targetUtilization);
    FallbackType(h, tier, target, targetUtilization, demand);
    if target.InstanceExists(suggested) then suggested
    else SmallestFit(target.catalog, demand.vcpu, demand.memoryGib, demand.headroom, target.familyForTier(tier)).name
  }

  /** The plan made for one machine, before labels are made unique. */
  function PlanFor(
    vm: NormalizedVM, placed: (Tier, Environment), suggested: string, target: Target, targetUtilization: real)
    : (plan: ComputePlan)
    requires target.catalog != [] && targetUtilization > 0.0
    ensures plan.vmName == vm.vmName && plan.tier == placed.0 && plan.environment == placed.1
    ensures plan.subnetTier == target.subnetTierForTier(placed.0) && plan.securityGroup == target.sgForTier(placed.0)
    ensures TypeFor(plan.instanceType, suggested, vm.hardware, placed.0, target, targetUtilization)
    ensures HoldDisks(plan.rootVolumeGib, plan.extraVolumesGib, vm.hardware.disksGib)
    ensures Covers(plan.rootVolumeGib, plan.extraVolumesGib, vm.hardware.disksGib)
    ensures plan.resourceName == TerraformSafeName(vm.vmName) && IsIdentifier(plan.resourceName)
  {
    SafeNameIsLabel(vm.vmName);
    VolumesHoldDisks(vm.hardware.disksGib);
    var (tier, environment) := placed;
    var (root, extra) := RootAndExtra(vm.hardware.disksGib);
    ComputePlan(vm.vmName, TerraformSafeName(vm.vmName),
      TypeName(suggested, vm.hardware, tier, target, targetUtilization),
      root, extra, target.subnetTierForTier(tier), target.sgForTier(tier), tier, environment)
  }

  function PlacedIn(tierEnv: map<string, (Tier, Environment)>, vm: NormalizedVM): (Tier, Environment) {
    if vm.vmName in tierEnv then tierEnv[vm.vmName] else (Other, Unknown)
  }

  /** What the planner is given besides the machines. */
  datatype Advice = Advice(
    suggest: (NormalizedVM, Tier, Environment) -> string, tierEnv: map<string, (Tier, Environment)>,
    target: Target, targetUtilization: real)
  {
    ghost predicate Usable() {
      target.catalog != [] && targetUtilization > 0.0
    }

    function Draft(vm: NormalizedVM): (plan: ComputePlan)
      requires target.catalog != [] && targetUtilization > 0.0
      ensures PlanOf(plan, vm, this) && plan.resourceName == TerraformSafeName(vm.vmName)
    {
      var placed := PlacedIn(tierEnv, vm);
      PlanFor(vm, placed, suggest(vm, placed.0, placed.1), target, targetUtilization)
    }
  }

  /** All that a plan says of its machine, except the label. */
  ghost predicate PlanOf(plan: ComputePlan, vm: NormalizedVM, advice: Advice) {
    && plan.vmName == vm.vmName
    && (if vm.vmName in advice.tierEnv then (plan.tier, plan.environment) == advice.tierEnv[vm.vmName]
        else plan.tier == Other && plan.environment == Unknown)
    && plan.subnetTier == advice.target.subnetTierForTier(plan.tier)
    && plan.securityGroup == advice.target.sgForTier(plan.tier)
    && TypeFor(plan.instanceType, advice.suggest(vm, plan.tier, plan.environment), vm.hardware, plan.tier,
         advice.target, advice.targetUtilization)
    && HoldDisks(plan.rootVolumeGib, plan.extraVolumesGib, vm.hardware.disksGib)
    && Covers(plan.rootVolumeGib, plan.extraVolumesGib, vm.hardware.disksGib)
  }

  /** Plan i is labelled with its safe name, numbered if a plan before it has that label. */
  ghost predicate LabelledAfter(plans: seq<ComputePlan>, i: nat, safe: string)
    requires i < |plans|
  {
    if safe in Labels(plans, i) then exists k: nat :: plans[i].resourceName == safe + "_" + Decimal(k)
    else plans[i].resourceName == safe
  }

  /** `build_compute_plans`: one plan per machine, in order. */
  method BuildComputePlans(vms: seq<NormalizedVM>, advice: Advice) returns (plans: seq<ComputePlan>)
    requires advice.Usable()
    ensures |plans| == |vms|
    ensures forall i :: 0 <= i < |vms| ==> PlanOf(plans[i], vms[i], advice)
    ensures forall i :: 0 <= i < |vms| ==> LabelledAfter(plans, i, TerraformSafeName(vms[i].vmName))
    ensures forall i :: 0 <= i < |plans| ==> IsIdentifier(plans[i].resourceName)
    ensures forall i, j :: 0 <= i < j < |plans| ==> plans[i].resourceName != plans[j].resourceName
  {
    var drafts := DraftPlans(vms, advice);
    plans := UniqueNames(drafts);
    LabelsDistinct(drafts, plans);
    LabelsStayIdentifiers(drafts, plans);
    forall i | 0 <= i < |vms|
      ensures PlanOf(plans[i], vms[i], advice) && LabelledAfter(plans, i, TerraformSafeName(vms[i].vmName))
    {
      LabelledFrom(drafts, plans, i, advice, vms[i]);
    }
  }

  method DraftPlans(vms: seq<NormalizedVM>, advice: Advice) returns (drafts: seq<ComputePlan>)
    requires advice.Usable()
    ensures |drafts| == |vms|
    ensures forall i :: 0 <= i < |vms| ==> DraftOf(drafts[i], vms[i], advice)
    ensures forall i :: 0 <= i < |vms| ==> IsIdentifier(drafts[i].resourceName)
  {
    drafts := [];
    for n := 0 to |vms|
      invariant |drafts| == n
      invariant forall i :: 0 <= i < n ==> DraftOf(drafts[i], vms[i], advice) && IsIdentifier(drafts[i].resourceName)
    {
      SafeNameIsLabel(vms[n].vmName);
      drafts := drafts + [advice.Draft(vms[n])];
    }
  }

  ghost predicate DraftOf(plan: ComputePlan, vm: NormalizedVM, advice: Advice) {
    PlanOf(plan, vm, advice) && plan.resourceName == TerraformSafeName(vm.vmName)
  }

  lemma LabelledFrom(drafts: seq<ComputePlan>, plans: seq<ComputePlan>, i: nat, advice: Advice, vm: NormalizedVM)
    requires SameButNames(drafts, plans) && Relabelled(drafts, plans, |drafts|) && i < |drafts|
    requires DraftOf(drafts[i], vm, advice)
    ensures PlanOf(plans[i], vm, advice) && LabelledAfter(plans, i, TerraformSafeName(vm.vmName))
  {
    assert Chosen(drafts, plans, i);
    assert plans[i] == drafts[i].(resourceName := plans[i].resourceName);
  }

  method UniqueNames(drafts: seq<ComputePlan>) returns (plans: seq<ComputePlan>)
    ensures SameButNames(drafts, plans)
    ensures Relabelled(drafts, plans, |drafts|)
  {
    var cells := new ComputePlan[|drafts|](i requires 0 <= i < |drafts| => drafts[i]);
    assert cells[..] == drafts;
    EnsureUniqueResourceNames(cells);
    plans := cells[..];
  }
}
