/**
 Migration waves (`waves.py`): the compute plans grouped by environment rank and tier depth,
 in ascending order.
 */
module Waves {
  import opened Text
  import opened Sorting
  import opened PlanModel

  function EnvRank(e: Environment): nat {
    match e
    case Development => 0
    case Testing => 0
    case Staging => 1
    case Unknown => 2
    case Production => 2
  }

  function TierDepth(t: Tier): nat {
    match t
    case Database => 0
    case Cache => 0
    case Other => 0
    case App => 1
    case Web => 2
  }

  /** Environment rank, then tier depth. */
  datatype Key = Key(rank: nat, depth: nat)

  function WaveKey(c: ComputePlan): Key {
    Key(EnvRank(c.environment), TierDepth(c.tier))
  }

  predicate KeyLeq(a: Key, b: Key) {
    a.rank < b.rank || (a.rank == b.rank && a.depth <= b.depth)
  }

  predicate NameLeq(a: ComputePlan, b: ComputePlan) {
    LexLeq(a.vmName, b.vmName)
  }

  lemma Orders()
    ensures TotalOrder(KeyLeq) && TotalOrder(NameLeq)
  {
    forall a: ComputePlan, b: ComputePlan ensures NameLeq(a, b) || NameLeq(b, a) {
      LexTotal(a.vmName, b.vmName);
    }
    forall a: ComputePlan, b: ComputePlan, c: ComputePlan | NameLeq(a, b) && NameLeq(b, c) ensures NameLeq(a, c) {
      LexTransitive(a.vmName, b.vmName, c.vmName);
    }
  }

  /** The printed id is `wave-`sequence, environment and depth label. */
  datatype WaveId = WaveId(sequence: nat, environment: Environment, depth: nat)

  datatype Wave = Wave(
    id: WaveId, sequence: nat, environment: Environment, tierDepth: nat, workloads: seq<string>, dependsOn: seq<WaveId>)
  {
    function Layer(): Key {
      Key(EnvRank(environment), tierDepth)
    }
  }

  // ---------- grouping ----------

  /** The first n plans with that key, in order. */
  function MembersOf(compute: seq<ComputePlan>, key: Key, n: nat): (members: seq<ComputePlan>)
    requires n <= |compute|
    ensures forall k :: 0 <= k < |members| ==> WaveKey(members[k]) == key
  {
    if n == 0 then []
    else MembersOf(compute, key, n - 1) + if WaveKey(compute[n - 1]) == key then [compute[n - 1]] else []
  }

  lemma {:induction false} MemberIff(compute: seq<ComputePlan>, key: Key, n: nat, c: ComputePlan)
    requires n <= |compute|
    ensures c in MembersOf(compute, key, n) <==> WaveKey(c) == key && c in compute[..n]
  {
    if n > 0 {
      MemberIff(compute, key, n - 1, c);
      assert compute[..n] == compute[..n - 1] + [compute[n - 1]];
    }
  }

  ghost predicate Grouped(groups: map<Key, seq<ComputePlan>>, compute: seq<ComputePlan>, n: nat)
    requires n <= |compute|
  {
    forall key :: MembersOf(compute, key, n) == if key in groups then groups[key] else []
  }

  function Append(groups: map<Key, seq<ComputePlan>>, c: ComputePlan): map<Key, seq<ComputePlan>> {
    groups[WaveKey(c) := (if WaveKey(c) in groups then groups[WaveKey(c)] else []) + [c]]
  }

  lemma GroupStep(groups: map<Key, seq<ComputePlan>>, compute: seq<ComputePlan>, n: nat)
    requires n < |compute| && Grouped(groups, compute, n)
    ensures Grouped(Append(groups, compute[n]), compute, n + 1)
  {
    var next, m := Append(groups, compute[n]), n + 1;
    forall key ensures MembersOf(compute, key, m) == if key in next then next[key] else [] {
      assert MembersOf(compute, key, n) == if key in groups then groups[key] else [];
    }
  }

  method GroupByKey(compute: seq<ComputePlan>) returns (groups: map<Key, seq<ComputePlan>>)
    ensures Grouped(groups, compute, |compute|)
    ensures forall key :: key in groups ==> groups[key] != []
  {
    groups := map[];
    for n := 0 to |compute|
      invariant Grouped(groups, compute, n)
      invariant forall key :: key in groups ==> groups[key] != []
    {
      GroupStep(groups, compute, n);
      groups := Append(groups, compute[n]);
    }
  }

  // ---------- waves ----------

  function Names(members: seq<ComputePlan>): seq<string> {
    seq(|members|, k requires 0 <= k < |members| => members[k].vmName)
  }

  /** What the wave at position k is. */
  ghost predicate IsWave(w: Wave, k: nat, key: Key, compute: seq<ComputePlan>) {
    var members := SortBy(MembersOf(compute, key, |compute|), NameLeq);
    && w.sequence == k && w.Layer() == key && w.id == WaveId(k, w.environment, w.tierDepth)
    && members != [] && w.environment == members[0].environment && w.workloads == Names(members)
  }

  ghost predicate WavesFor(waves: seq<Wave>, keys: seq<Key>, compute: seq<ComputePlan>)
    requires |waves| <= |keys|
  {
    forall k :: 0 <= k < |waves| ==> IsWave(waves[k], k, keys[k], compute)
  }

  /** A wave of the same rank and a lower depth. */
  ghost predicate Below(w: Wave, other: Wave) {
    other.Layer().rank == w.Layer().rank && other.Layer().depth < w.Layer().depth
  }

  /** Waits exactly for the earlier waves of its own stage. */
  ghost predicate WaitsFor(waves: seq<Wave>, k: nat)
    requires k < |waves|
  {
    forall id :: id in waves[k].dependsOn <==>
      exists l :: 0 <= l < k && waves[l].id == id && SameStage(waves[l].environment, waves[k].environment)
  }

  /** Ids of the waves built so far, by key. */
  ghost predicate IdsOf(ids: map<Key, WaveId>, waves: seq<Wave>, keys: seq<Key>)
    requires |waves| <= |keys|
  {
    && (forall k :: 0 <= k < |waves| ==> keys[k] in ids && ids[keys[k]] == waves[k].id)
    && (forall key :: key in ids ==> key in keys[..|waves|])
  }

  method Prerequisites(ids: map<Key, WaveId>, key: Key) returns (dependsOn: seq<WaveId>)
    ensures forall id :: id in dependsOn <==>
      exists depth: nat :: depth < key.depth && Key(key.rank, depth) in ids && ids[Key(key.rank, depth)] == id
  {
    dependsOn := [];
    for d := 0 to key.depth
      invariant forall id :: id in dependsOn <==>
        exists depth: nat :: depth < d && Key(key.rank, depth) in ids && ids[Key(key.rank, depth)] == id
    {
      ghost var before := dependsOn;
      if Key(key.rank, d) in ids {
        dependsOn := dependsOn + [ids[Key(key.rank, d)]];
      }
      forall id ensures id in dependsOn <==>
        exists depth: nat :: depth < d + 1 && Key(key.rank, depth) in ids && ids[Key(key.rank, depth)] == id
      {
        if Key(key.rank, d) in ids && ids[Key(key.rank, d)] == id {
          assert d < d + 1;
        }
      }
    }
  }

  /** Its prerequisites, as the ids collected before it. */
  ghost predicate WaitsByKey(w: Wave, ids: map<Key, WaveId>) {
    forall id :: id in w.dependsOn <==>
      exists depth: nat :: depth < w.tierDepth && Key(w.Layer().rank, depth) in ids && ids[Key(w.Layer().rank, depth)] == id
  }

  method BuildWave(
    members: seq<ComputePlan>, ghost compute: seq<ComputePlan>, sequence: nat, key: Key, ids: map<Key, WaveId>)
    returns (w: Wave)
    requires members == MembersOf(compute, key, |compute|) && members != []
    ensures IsWave(w, sequence, key, compute) && WaitsByKey(w, ids)
  {
    var sorted := SortBy(members, NameLeq);
    Orders();
    SortSorts(members, NameLeq);
    PermutedMembers(members, sorted);
    assert sorted[0] in members;
    var dependsOn := Prerequisites(ids, key);
    var environment := sorted[0].environment;
    w := Wave(WaveId(sequence, environment, key.depth), sequence, environment, key.depth, Names(sorted), dependsOn);
  }

  /** The first waves, each with the ids known when it was built. */
  ghost predicate Built(
    waves: seq<Wave>, seen: seq<map<Key, WaveId>>, keys: seq<Key>, compute: seq<ComputePlan>)
  {
    && |waves| == |seen| <= |keys| && WavesFor(waves, keys, compute)
    && forall l :: 0 <= l < |waves| ==> IdsOf(seen[l], waves[..l], keys) && WaitsByKey(waves[l], seen[l])
  }

  lemma BuiltStep(
    waves: seq<Wave>, seen: seq<map<Key, WaveId>>, keys: seq<Key>, compute: seq<ComputePlan>,
    ids: map<Key, WaveId>, w: Wave)
    requires Built(waves, seen, keys, compute) && IdsOf(ids, waves, keys) && |waves| < |keys|
    requires IsWave(w, |waves|, keys[|waves|], compute) && WaitsByKey(w, ids)
    ensures Built(waves + [w], seen + [ids], keys, compute)
  {
    var waves', seen' := waves + [w], seen + [ids];
    assert waves'[..|waves|] == waves;
    forall l | 0 <= l < |waves'| ensures IdsOf(seen'[l], waves'[..l], keys) && WaitsByKey(waves'[l], seen'[l]) {
      assert l < |waves| ==> waves'[..l] == waves[..l];
    }
  }

  method BuildWaves(ordered: seq<Key>, groups: map<Key, seq<ComputePlan>>, ghost compute: seq<ComputePlan>)
    returns (waves: seq<Wave>, ghost seen: seq<map<Key, WaveId>>)
    requires Grouped(groups, compute, |compute|) && Ascending(ordered)
    requires forall k :: 0 <= k < |ordered| ==> ordered[k] in groups && groups[ordered[k]] != []
    ensures |waves| == |ordered| && Built(waves, seen, ordered, compute)
  {
    var ids: map<Key, WaveId> := map[];
    waves, seen := [], [];
    for k := 0 to |ordered|
      invariant |waves| == k && Built(waves, seen, ordered, compute) && IdsOf(ids, waves, ordered)
    {
      var w := BuildWave(groups[ordered[k]], compute, k, ordered[k], ids);
      BuiltStep(waves, seen, ordered, compute, ids, w);
      IdsStep(ids, waves, ordered, w);
      seen := seen + [ids];
      ids := ids[ordered[k] := w.id];
      waves := waves + [w];
    }
  }

  /** `plan_waves`; ghost slot i is the wave of plan i. */
  method PlanWaves(compute: seq<ComputePlan>) returns (waves: seq<Wave>, ghost slot: seq<nat>)
    ensures MovesInOrder(waves, slot, compute)
    ensures forall k :: 0 <= k < |waves| ==> WaitsFor(waves, k)
  {
    var groups := GroupByKey(compute);
    Orders();
    var ordered := SortSet(groups.Keys, KeyLeq);
    SortedAscends(ordered);
    ghost var seen;
    waves, seen := BuildWaves(ordered, groups, compute);
    KeysCover(groups, compute);
    slot := SlotsOf(ordered, compute);
    SlotsInOrder(waves, ordered, slot, compute);
    forall k | 0 <= k < |waves| ensures WaitsFor(waves, k) {
      WaitsExact(waves, ordered, compute, k, seen[k]);
    }
  }

  lemma KeysCover(groups: map<Key, seq<ComputePlan>>, compute: seq<ComputePlan>)
    requires Grouped(groups, compute, |compute|)
    ensures forall i :: 0 <= i < |compute| ==> WaveKey(compute[i]) in groups
  {
    forall i | 0 <= i < |compute| ensures WaveKey(compute[i]) in groups {
      MemberIff(compute, WaveKey(compute[i]), |compute|, compute[i]);
      assert compute[..|compute|][i] == compute[i];
    }
  }

  /** Strictly. */
  ghost predicate Ascending(keys: seq<Key>) {
    forall k, l :: 0 <= k < l < |keys| ==> KeyLeq(keys[k], keys[l]) && keys[k] != keys[l]
  }

  lemma SortedAscends(keys: seq<Key>)
    requires NoDuplicates(keys) && Ordered(keys, KeyLeq)
    ensures Ascending(keys)
  {
  }

  lemma IdsStep(ids: map<Key, WaveId>, waves: seq<Wave>, keys: seq<Key>, w: Wave)
    requires |waves| < |keys| && IdsOf(ids, waves, keys) && Ascending(keys)
    ensures IdsOf(ids[keys[|waves|] := w.id], waves + [w], keys)
  {
    assert keys[..|waves| + 1] == keys[..|waves|] + [keys[|waves|]];
  }

  lemma WaitsExact(waves: seq<Wave>, keys: seq<Key>, compute: seq<ComputePlan>, k: nat, ids: map<Key, WaveId>)
    requires k < |waves| == |keys| && WavesFor(waves, keys, compute) && Ascending(keys)
    requires IdsOf(ids, waves[..k], keys) && WaitsByKey(waves[k], ids)
    ensures WaitsFor(waves, k)
  {
    forall l | 0 <= l < k && SameStage(waves[l].environment, waves[k].environment)
      ensures waves[l].id in waves[k].dependsOn
    {
      BelowIff(waves, keys, compute, k, l);
      BelowIsListed(waves, keys, compute, k, l, ids);
    }
    forall id | id in waves[k].dependsOn
      ensures exists l :: 0 <= l < k && waves[l].id == id && SameStage(waves[l].environment, waves[k].environment)
    {
      var l := ListedIsBelow(waves, keys, compute, k, id, ids);
      BelowIff(waves, keys, compute, k, l);
    }
  }

  lemma BelowIff(waves: seq<Wave>, keys: seq<Key>, compute: seq<ComputePlan>, k: nat, l: nat)
    requires k < |waves| == |keys| && l < |waves| && WavesFor(waves, keys, compute) && Ascending(keys)
    ensures Below(waves[k], waves[l]) <==> l < k && SameStage(waves[l].environment, waves[k].environment)
  {
    assert IsWave(waves[k], k, keys[k], compute) && IsWave(waves[l], l, keys[l], compute);
    RanksShared(waves[l].environment, waves[k].environment);
    assert l < k ==> KeyLeq(keys[l], keys[k]) && keys[l] != keys[k];
    assert k < l ==> KeyLeq(keys[k], keys[l]) && keys[l] != keys[k];
  }

  lemma BelowIsListed(
    waves: seq<Wave>, keys: seq<Key>, compute: seq<ComputePlan>, k: nat, l: nat, ids: map<Key, WaveId>)
    requires k < |waves| == |keys| && WavesFor(waves, keys, compute) && Ascending(keys)
    requires IdsOf(ids, waves[..k], keys) && WaitsByKey(waves[k], ids)
    requires l < |waves| && Below(waves[k], waves[l])
    ensures waves[l].id in waves[k].dependsOn
  {
    assert waves[k].Layer() == keys[k] && waves[l].Layer() == keys[l];
    assert l < k && waves[..k][l] == waves[l];
    assert keys[l] == Key(keys[k].rank, keys[l].depth);
  }

  lemma ListedIsBelow(
    waves: seq<Wave>, keys: seq<Key>, compute: seq<ComputePlan>, k: nat, id: WaveId, ids: map<Key, WaveId>)
    returns (l: nat)
    requires k < |waves| == |keys| && WavesFor(waves, keys, compute)
    requires IdsOf(ids, waves[..k], keys) && WaitsByKey(waves[k], ids) && id in waves[k].dependsOn
    ensures l < |waves| && waves[l].id == id && Below(waves[k], waves[l])
  {
    var w := waves[k];
    var depth: nat :| depth < w.tierDepth && Key(w.Layer().rank, depth) in ids && ids[Key(w.Layer().rank, depth)] == id;
    l :| 0 <= l < k && keys[..k][l] == Key(w.Layer().rank, depth);
    assert waves[..k][l] == waves[l] && waves[l].Layer() == keys[l];
  }

  // ---------- what moves when ----------

  predicate Lower(e: Environment) {
    e == Development || e == Testing
  }

  /** Both before staging, both staging, or both after. */
  predicate SameStage(e: Environment, f: Environment) {
    Lower(e) == Lower(f) && (e == Staging <==> f == Staging)
  }

  /** What others build on first, what users see last. */
  predicate Carries(t: Tier, u: Tier) {
    (t in {Database, Cache, Other} && u in {App, Web}) || (t == App && u == Web)
  }

  /** Development and test move before staging, staging before the rest; in one stage the tiers decide. */
  predicate MovesBefore(c: ComputePlan, d: ComputePlan) {
    || (Lower(c.environment) && d.environment in {Staging, Production, Unknown})
    || (c.environment == Staging && d.environment in {Production, Unknown})
    || (SameStage(c.environment, d.environment) && Carries(c.tier, d.tier))
  }

  lemma RanksShared(a: Environment, b: Environment)
    ensures EnvRank(a) == EnvRank(b) <==> SameStage(a, b)
  {
  }

  lemma MovesBeforeIff(c: ComputePlan, d: ComputePlan)
    ensures MovesBefore(c, d) <==> KeyLeq(WaveKey(c), WaveKey(d)) && WaveKey(c) != WaveKey(d)
  {
  }

  /** The plans of that name in wave k. */
  ghost function Movers(slot: seq<nat>, compute: seq<ComputePlan>, k: nat, name: string, n: nat): set<nat>
    requires n <= |slot| == |compute|
  {
    set i: nat | i < n && slot[i] == k && compute[i].vmName == name
  }

  predicate DepthOf(depth: nat, t: Tier) {
    || (depth == 0 && t in {Database, Cache, Other})
    || (depth == 1 && t == App)
    || (depth == 2 && t == Web)
  }

  /** Wave k: a name for each plan whose slot it is, in order; its environment is the first one's. */
  ghost predicate ListsSlot(w: Wave, k: nat, slot: seq<nat>, compute: seq<ComputePlan>)
    requires |slot| == |compute|
  {
    && w.sequence == k && w.id == WaveId(k, w.environment, w.tierDepth)
    && (forall name :: multiset(w.workloads)[name] == |Movers(slot, compute, k, name, |compute|)|)
    && (forall a, b :: 0 <= a < b < |w.workloads| ==> LexLeq(w.workloads[a], w.workloads[b]))
    && (forall i :: 0 <= i < |compute| && slot[i] == k ==> DepthOf(w.tierDepth, compute[i].tier))
    && w.workloads != []
    && exists i :: 0 <= i < |compute| && slot[i] == k
         && compute[i].vmName == w.workloads[0] && compute[i].environment == w.environment
  }

  /** Plan i moves in wave slot[i], in an earlier wave than plan j exactly when it has to. */
  ghost predicate MovesInOrder(waves: seq<Wave>, slot: seq<nat>, compute: seq<ComputePlan>) {
    && |slot| == |compute|
    && (forall i :: 0 <= i < |compute| ==> slot[i] < |waves|)
    && (forall i, j :: 0 <= i < |compute| && 0 <= j < |compute| ==>
          (slot[i] < slot[j] <==> MovesBefore(compute[i], compute[j])))
    && forall k :: 0 <= k < |waves| ==> ListsSlot(waves[k], k, slot, compute)
  }

  /** Where each plan's key stands. */
  ghost predicate AreSlots(slot: seq<nat>, keys: seq<Key>, compute: seq<ComputePlan>) {
    |slot| == |compute| && forall i :: 0 <= i < |compute| ==> slot[i] < |keys| && keys[slot[i]] == WaveKey(compute[i])
  }

  lemma SlotsOf(keys: seq<Key>, compute: seq<ComputePlan>) returns (slot: seq<nat>)
    requires forall i :: 0 <= i < |compute| ==> WaveKey(compute[i]) in keys
    ensures AreSlots(slot, keys, compute)
  {
    slot := [];
    for n := 0 to |compute|
      invariant AreSlots(slot, keys, compute[..n])
    {
      var k :| 0 <= k < |keys| && keys[k] == WaveKey(compute[n]);
      slot := slot + [k];
    }
    assert compute[..|compute|] == compute;
  }

  lemma SlotsInOrder(waves: seq<Wave>, keys: seq<Key>, slot: seq<nat>, compute: seq<ComputePlan>)
    requires |waves| == |keys| && WavesFor(waves, keys, compute) && Ascending(keys) && AreSlots(slot, keys, compute)
    ensures MovesInOrder(waves, slot, compute)
  {
    forall i, j | 0 <= i < |compute| && 0 <= j < |compute|
      ensures slot[i] < slot[j] <==> MovesBefore(compute[i], compute[j])
    {
      MovesBeforeIff(compute[i], compute[j]);
    }
    forall k | 0 <= k < |waves| ensures ListsSlot(waves[k], k, slot, compute) {
      WaveListsSlot(waves[k], k, keys, slot, compute);
    }
  }

  lemma SlotIff(keys: seq<Key>, slot: seq<nat>, compute: seq<ComputePlan>, i: nat, k: nat)
    requires k < |keys| && Ascending(keys) && AreSlots(slot, keys, compute) && i < |compute|
    ensures slot[i] == k <==> WaveKey(compute[i]) == keys[k]
  {
  }

  lemma WaveListsSlot(w: Wave, k: nat, keys: seq<Key>, slot: seq<nat>, compute: seq<ComputePlan>)
    requires k < |keys| && Ascending(keys) && IsWave(w, k, keys[k], compute) && AreSlots(slot, keys, compute)
    ensures ListsSlot(w, k, slot, compute)
  {
    var i := Leader(w, k, keys, slot, compute);
    NamesOrdered(MembersOf(compute, keys[k], |compute|));
    NamesSorted(MembersOf(compute, keys[k], |compute|));
    forall name ensures multiset(w.workloads)[name] == |Movers(slot, compute, k, name, |compute|)| {
      CountNames(keys, slot, compute, k, name, |compute|);
    }
    forall i | 0 <= i < |compute| && slot[i] == k ensures DepthOf(w.tierDepth, compute[i].tier) {
      assert w.Layer() == WaveKey(compute[i]);
    }
  }

  /** The first plan by name leads its wave. */
  lemma Leader(w: Wave, k: nat, keys: seq<Key>, slot: seq<nat>, compute: seq<ComputePlan>) returns (i: nat)
    requires k < |keys| && Ascending(keys) && IsWave(w, k, keys[k], compute) && AreSlots(slot, keys, compute)
    ensures w.workloads != [] && i < |compute| && slot[i] == k
    ensures compute[i].vmName == w.workloads[0] && compute[i].environment == w.environment
  {
    var members := MembersOf(compute, keys[k], |compute|);
    var c := SortBy(members, NameLeq)[0];
    Orders();
    SortSorts(members, NameLeq);
    PermutedMembers(members, SortBy(members, NameLeq));
    assert c in members;
    MemberIff(compute, keys[k], |compute|, c);
    i :| 0 <= i < |compute| && compute[..|compute|][i] == c;
    assert compute[i] == c;
    SlotIff(keys, slot, compute, i, k);
  }

  lemma NamesOrdered(members: seq<ComputePlan>)
    ensures var names := Names(SortBy(members, NameLeq));
      forall a, b :: 0 <= a < b < |names| ==> LexLeq(names[a], names[b])
  {
    Orders();
    SortSorts(members, NameLeq);
  }

  lemma NamesAppend(a: seq<ComputePlan>, c: ComputePlan)
    ensures multiset(Names(a + [c])) == multiset(Names(a)) + multiset{c.vmName}
  {
    assert Names(a + [c]) == Names(a) + [c.vmName];
  }

  lemma {:induction false} NamesInserted(s: seq<ComputePlan>, c: ComputePlan)
    ensures multiset(Names(Insert(s, c, NameLeq))) == multiset(Names(s)) + multiset{c.vmName}
  {
    if s == [] || NameLeq(s[|s| - 1], c) {
      NamesAppend(s, c);
    } else {
      var rest, last := s[..|s| - 1], s[|s| - 1];
      NamesInserted(rest, c);
      NamesAppend(Insert(rest, c, NameLeq), last);
      NamesAppend(rest, last);
      assert s == rest + [last];
    }
  }

  lemma {:induction false} NamesSorted(s: seq<ComputePlan>)
    ensures multiset(Names(SortBy(s, NameLeq))) == multiset(Names(s))
  {
    if s != [] {
      var rest, last := s[..|s| - 1], s[|s| - 1];
      NamesSorted(rest);
      NamesInserted(SortBy(rest, NameLeq), last);
      NamesAppend(rest, last);
      assert s == rest + [last];
    }
  }

  lemma MoversStep(slot: seq<nat>, compute: seq<ComputePlan>, k: nat, name: string, n: nat)
    requires n < |slot| == |compute|
    ensures |Movers(slot, compute, k, name, n + 1)|
      == |Movers(slot, compute, k, name, n)| + if slot[n] == k && compute[n].vmName == name then 1 else 0
  {
    assert Movers(slot, compute, k, name, n + 1)
      == Movers(slot, compute, k, name, n) + if slot[n] == k && compute[n].vmName == name then {n} else {};
  }

  lemma {:induction false} CountNames(
    keys: seq<Key>, slot: seq<nat>, compute: seq<ComputePlan>, k: nat, name: string, n: nat)
    requires k < |keys| && Ascending(keys) && AreSlots(slot, keys, compute) && n <= |compute|
    ensures multiset(Names(MembersOf(compute, keys[k], n)))[name] == |Movers(slot, compute, k, name, n)|
  {
    if n > 0 {
      CountNames(keys, slot, compute, k, name, n - 1);
      MoversStep(slot, compute, k, name, n - 1);
      SlotIff(keys, slot, compute, n - 1, k);
      MembersStep(compute, keys[k], n - 1, name);
    } else {
      assert Names(MembersOf(compute, keys[k], 0)) == [] && Movers(slot, compute, k, name, 0) == {};
    }
  }

  lemma MembersStep(compute: seq<ComputePlan>, key: Key, n: nat, name: string)
    requires n < |compute|
    ensures multiset(Names(MembersOf(compute, key, n + 1)))[name] == multiset(Names(MembersOf(compute, key, n)))[name]
      + if WaveKey(compute[n]) == key && compute[n].vmName == name then 1 else 0
  {
    NamesAppend(MembersOf(compute, key, n), compute[n]);
    if WaveKey(compute[n]) != key {
      assert MembersOf(compute, key, n + 1) == MembersOf(compute, key, n);
    }
  }

  // ---------- every workload in one wave ----------

  ghost predicate DistinctNames(compute: seq<ComputePlan>) {
    forall i, j :: 0 <= i < j < |compute| ==> compute[i].vmName != compute[j].vmName
  }

  /** A wave lists a name exactly when a plan of that name has its slot. */
  lemma ListedIff(waves: seq<Wave>, slot: seq<nat>, compute: seq<ComputePlan>, k: nat, name: string)
    requires k < |waves| && MovesInOrder(waves, slot, compute)
    ensures name in waves[k].workloads <==> exists i :: 0 <= i < |compute| && compute[i].vmName == name && slot[i] == k
  {
    assert ListsSlot(waves[k], k, slot, compute);
    var movers := Movers(slot, compute, k, name, |compute|);
    assert name in waves[k].workloads <==> multiset(waves[k].workloads)[name] > 0;
    if i :| 0 <= i < |compute| && compute[i].vmName == name && slot[i] == k {
      assert i in movers;
    }
    if name in waves[k].workloads {
      assert movers != {};
      var i :| i in movers;
    }
  }

  /** With distinct names, each workload is in the one wave of its slot. */
  lemma ScheduledOnce(waves: seq<Wave>, slot: seq<nat>, compute: seq<ComputePlan>, i: nat)
    requires MovesInOrder(waves, slot, compute) && i < |compute| && DistinctNames(compute)
    ensures forall l :: 0 <= l < |waves| ==> (compute[i].vmName in waves[l].workloads <==> l == slot[i])
  {
    forall l | 0 <= l < |waves| ensures compute[i].vmName in waves[l].workloads <==> l == slot[i] {
      ListedIff(waves, slot, compute, l, compute[i].vmName);
    }
  }

  /** Two plans of one stage and layer whose environments differ. */
  predicate Mixes(c: ComputePlan, d: ComputePlan) {
    && c.environment != d.environment && SameStage(c.environment, d.environment)
    && !Carries(c.tier, d.tier) && !Carries(d.tier, c.tier)
  }

  /**
   A wave is one environment's layer only when no two plans at its depth are development
   next to test, or production next to unknown.
   */
  lemma SingleEnvironmentIff(waves: seq<Wave>, slot: seq<nat>, compute: seq<ComputePlan>)
    requires MovesInOrder(waves, slot, compute)
    ensures (forall i :: 0 <= i < |compute| ==> compute[i].environment == waves[slot[i]].environment)
      <==> (forall i, j :: 0 <= i < |compute| && 0 <= j < |compute| ==> !Mixes(compute[i], compute[j]))
  {
    forall i | 0 <= i < |compute| && compute[i].environment != waves[slot[i]].environment
      ensures exists j :: 0 <= j < |compute| && Mixes(compute[i], compute[j])
    {
      assert ListsSlot(waves[slot[i]], slot[i], slot, compute);
      var j :| 0 <= j < |compute| && slot[j] == slot[i] && compute[j].environment == waves[slot[i]].environment;
      assert !MovesBefore(compute[i], compute[j]) && !MovesBefore(compute[j], compute[i]);
      assert Mixes(compute[i], compute[j]);
    }
    forall i, j | 0 <= i < |compute| && 0 <= j < |compute| && Mixes(compute[i], compute[j])
      ensures slot[i] == slot[j]
    {
      assert !MovesBefore(compute[i], compute[j]) && !MovesBefore(compute[j], compute[i]);
    }
  }

  function Sample(name: string, environment: Environment): ComputePlan {
    ComputePlan(name, name, "t", 30, [], Private, "db", Database, environment)
  }

  /** A development and a test database: one wave moves both. */
  lemma DevelopmentMeetsTest(waves: seq<Wave>, slot: seq<nat>)
    requires MovesInOrder(waves, slot, [Sample("dev", Development), Sample("test", Testing)])
    ensures Mixes(Sample("dev", Development), Sample("test", Testing))
    ensures exists k :: 0 <= k < |waves| && "dev" in waves[k].workloads && "test" in waves[k].workloads
  {
    var compute := [Sample("dev", Development), Sample("test", Testing)];
    assert !MovesBefore(compute[0], compute[1]) && !MovesBefore(compute[1], compute[0]);
    var k := slot[0];
    assert slot[1] == k;
    ListedIff(waves, slot, compute, k, "dev");
    ListedIff(waves, slot, compute, k, "test");
    assert compute[0].vmName == "dev" && compute[1].vmName == "test";
  }
}
