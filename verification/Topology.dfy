/**
 What is in the graph of a plan, in the plan's own terms: every node with its name, every
 edge with its two ends, and nothing else.
 */
module Topology {
  import opened Options
  import opened Lists
  import opened PlanModel
  import opened Validators
  import opened Graph
  import Network

  // ---------- names resolved ----------

  /** The last plan of that machine name. */
  ghost predicate LastPlan(compute: seq<ComputePlan>, j: nat, vmName: string) {
    j < |compute| && compute[j].vmName == vmName && forall h :: j < h < |compute| ==> compute[h].vmName != vmName
  }

  lemma LastPlanUnique(compute: seq<ComputePlan>, i: nat, j: nat, vmName: string)
    requires LastPlan(compute, i, vmName) && LastPlan(compute, j, vmName)
    ensures i == j
  {
  }

  lemma {:induction false} InstanceIsLast(compute: seq<ComputePlan>, vmName: string)
    ensures InstanceNamed(compute, vmName).None? ==> forall j :: 0 <= j < |compute| ==> compute[j].vmName != vmName
    ensures InstanceNamed(compute, vmName).Some? ==>
      exists j: nat :: LastPlan(compute, j, vmName) && compute[j].resourceName == InstanceNamed(compute, vmName).value
  {
    if compute != [] {
      var rest, last := compute[..|compute| - 1], |compute| - 1;
      InstanceIsLast(rest, vmName);
      if compute[last].vmName == vmName {
        assert LastPlan(compute, last, vmName);
      } else if j: nat :| LastPlan(rest, j, vmName) && rest[j].resourceName == InstanceNamed(rest, vmName).value {
        assert LastPlan(compute, j, vmName) && compute[j] == rest[j];
      }
    }
  }

  ghost predicate LastBelow(compute: seq<ComputePlan>, j: nat, vmName: string, n: nat)
    requires n <= |compute|
  {
    j < n && compute[j].vmName == vmName && forall h :: j < h < n ==> compute[h].vmName != vmName
  }

  /** A plan's placement is that of the last plan of its machine name. */
  lemma {:induction false} PlacementIsLast(
    subnets: seq<Subnet>, compute: seq<ComputePlan>, n: nat, j: nat, vmName: string)
    requires n <= |compute| && subnets != [] && LastBelow(compute, j, vmName, n)
    ensures vmName in Placement(subnets, compute, n)
    ensures Placement(subnets, compute, n)[vmName] == Slot(subnets, compute, j)
  {
    if j < n - 1 {
      PlacementIsLast(subnets, compute, n - 1, j, vmName);
    }
  }

  lemma {:induction false} LastExists(compute: seq<ComputePlan>, i: nat, n: nat) returns (j: nat)
    requires i < n <= |compute|
    ensures LastBelow(compute, j, compute[i].vmName, n)
  {
    j := n - 1;
    if compute[n - 1].vmName != compute[i].vmName {
      j := LastExists(compute, i, n - 1);
    }
  }

  // ---------- whose turn ----------

  /** The subnets of a tier; all of them if it has none. */
  ghost predicate Candidates(at: seq<nat>, subnets: seq<Subnet>, tier: SubnetTier) {
    && Increasing(at)
    && if exists k :: 0 <= k < |subnets| && subnets[k].tier == tier
       then forall k: nat :: k in at <==> k < |subnets| && subnets[k].tier == tier
       else forall k: nat :: k in at <==> k < |subnets|
  }

  ghost function Earlier(compute: seq<ComputePlan>, tier: SubnetTier, n: nat): set<nat>
    requires n <= |compute|
  {
    set h: nat | h < n && compute[h].subnetTier == tier
  }

  /** Plan j's turn in the round robin of its tier falls on the subnet of that label. */
  ghost predicate TurnOf(subnets: seq<Subnet>, compute: seq<ComputePlan>, j: nat, at: seq<nat>, name: string)
    requires j < |compute|
  {
    && Candidates(at, subnets, compute[j].subnetTier) && at != [] && (forall k :: 0 <= k < |at| ==> at[k] < |subnets|)
    && subnets[at[|Earlier(compute, compute[j].subnetTier, j)| % |at|]].resourceName == name
  }

  lemma {:induction false} RankCounts(compute: seq<ComputePlan>, tier: SubnetTier, n: nat)
    requires n <= |compute|
    ensures Rank(compute, tier, n) == |Earlier(compute, tier, n)|
  {
    if n > 0 {
      RankCounts(compute, tier, n - 1);
      assert Earlier(compute, tier, n)
        == Earlier(compute, tier, n - 1) + if compute[n - 1].subnetTier == tier then {n - 1} else {};
    }
  }

  /** Where a tier's own subnets stand. */
  ghost predicate PoolStands(at: seq<nat>, subnets: seq<Subnet>, tier: SubnetTier) {
    OfTier(at, subnets, tier) && Labels(at, subnets, Pool(subnets, tier))
  }

  ghost predicate OfTier(at: seq<nat>, subnets: seq<Subnet>, tier: SubnetTier) {
    Increasing(at) && forall k: nat :: k in at <==> k < |subnets| && subnets[k].tier == tier
  }

  ghost predicate Labels(at: seq<nat>, subnets: seq<Subnet>, labels: seq<string>) {
    && |at| == |labels|
    && forall k :: 0 <= k < |at| ==> at[k] < |subnets| && subnets[at[k]].resourceName == labels[k]
  }

  lemma {:induction false} PoolAt(subnets: seq<Subnet>, tier: SubnetTier) returns (at: seq<nat>)
    ensures PoolStands(at, subnets, tier)
  {
    if subnets == [] {
      at := [];
    } else {
      var rest := subnets[..|subnets| - 1];
      var before := PoolAt(rest, tier);
      assert subnets == rest + [subnets[|rest|]];
      PoolStep(rest, subnets[|rest|], before, tier);
      at := if subnets[|rest|].tier == tier then before + [|rest|] else before;
    }
  }

  lemma PoolStep(subnets: seq<Subnet>, s: Subnet, at: seq<nat>, tier: SubnetTier)
    requires PoolStands(at, subnets, tier)
    ensures PoolStands(if s.tier == tier then at + [|subnets|] else at, subnets + [s], tier)
  {
    PoolAppend(subnets, s, tier);
    OfTierStep(subnets, s, at, tier);
  }

  lemma OfTierStep(subnets: seq<Subnet>, s: Subnet, at: seq<nat>, tier: SubnetTier)
    requires OfTier(at, subnets, tier)
    ensures OfTier(if s.tier == tier then at + [|subnets|] else at, subnets + [s], tier)
  {
    IncreasingStep(at, |subnets|);
    forall k: nat | k < |subnets| ensures (subnets + [s])[k] == subnets[k] {
    }
  }

  lemma PoolAppend(subnets: seq<Subnet>, s: Subnet, tier: SubnetTier)
    ensures Pool(subnets + [s], tier) == Pool(subnets, tier) + if s.tier == tier then [s.resourceName] else []
  {
    assert (subnets + [s])[..|subnets|] == subnets;
  }

  lemma SlotIsTurn(subnets: seq<Subnet>, compute: seq<ComputePlan>, j: nat) returns (at: seq<nat>)
    requires j < |compute| && subnets != []
    ensures TurnOf(subnets, compute, j, at, Slot(subnets, compute, j))
  {
    var tier := compute[j].subnetTier;
    RankCounts(compute, tier, j);
    at := CandidatesAt(subnets, tier);
  }

  /** The pool of a tier, by position. */
  lemma CandidatesAt(subnets: seq<Subnet>, tier: SubnetTier) returns (at: seq<nat>)
    requires subnets != []
    ensures Candidates(at, subnets, tier) && |at| == |PoolFor(subnets, tier)| > 0
    ensures forall k :: 0 <= k < |at| ==> at[k] < |subnets| && subnets[at[k]].resourceName == PoolFor(subnets, tier)[k]
  {
    at := PoolAt(subnets, tier);
    if at == [] {
      NoneOfTier(at, subnets, tier);
      at := AllOf(|subnets|);
    } else {
      assert at[0] in at;
      assert subnets[at[0]].tier == tier;
    }
  }

  lemma AllOf(n: nat) returns (at: seq<nat>)
    ensures Increasing(at) && (forall k: nat :: k in at <==> k < n) && |at| == n && forall k :: 0 <= k < n ==> at[k] == k
  {
    at := seq(n, k => k);
    forall k: nat | k < n ensures k in at {
      assert at[k] == k;
    }
  }

  lemma NoneOfTier(at: seq<nat>, subnets: seq<Subnet>, tier: SubnetTier)
    requires PoolStands(at, subnets, tier) && at == []
    ensures forall k :: 0 <= k < |subnets| ==> subnets[k].tier != tier
  {
    forall k: nat | k < |subnets| ensures subnets[k].tier != tier {
      assert k !in at;
    }
  }


  /** The round robin gives plan j the subnet of that label. */
  ghost predicate HasTurn(subnets: seq<Subnet>, compute: seq<ComputePlan>, j: nat, name: string)
    requires j < |compute|
  {
    exists at: seq<nat> :: TurnOf(subnets, compute, j, at, name)
  }

  lemma TurnIff(subnets: seq<Subnet>, compute: seq<ComputePlan>, j: nat, name: string)
    requires j < |compute|
    ensures HasTurn(subnets, compute, j, name) <==> subnets != [] && name == Slot(subnets, compute, j)
  {
    if subnets != [] {
      var at := SlotIsTurn(subnets, compute, j);
      if other: seq<nat> :| TurnOf(subnets, compute, j, other, name) {
        IncreasingUnique(at, other);
      }
    }
  }

  // ---------- the nodes ----------

  /** A node for the network and for each part of the plan, under its own name. */
  ghost predicate IsNamed(plan: MigrationPlan, node: Node) {
    match node.id
    case VpcId => node.name == plan.projectName + "-vpc"
    case SubnetId(safe) =>
      exists k :: 0 <= k < |plan.network.subnets| && plan.network.subnets[k].resourceName == safe
        && plan.network.subnets[k].name == node.name
    case GroupId(safe) =>
      exists k :: 0 <= k < |plan.network.securityGroups| && plan.network.securityGroups[k].resourceName == safe
        && plan.network.securityGroups[k].name == node.name
    case InstanceId(safe) =>
      exists k :: 0 <= k < |plan.compute| && plan.compute[k].resourceName == safe && plan.compute[k].vmName == node.name
    case BalancerId(safe) =>
      exists k :: 0 <= k < |plan.network.loadBalancers| && Network.BalancerLabel(plan.network.loadBalancers[k]) == safe
        && Network.BalancerName(plan.network.loadBalancers[k]) == node.name
  }

  lemma NodesNamed(plan: MigrationPlan, node: Node)
    ensures node in Nodes(plan) <==> IsNamed(plan, node)
    ensures |Nodes(plan)| == 1 + |plan.network.subnets| + |plan.network.securityGroups| + |plan.compute|
      + |plan.network.loadBalancers|
  {
    var net := plan.network;
    var root := [Node(VpcId, plan.projectName + "-vpc")];
    var s, g, i, b := SubnetNodes(net.subnets), GroupNodes(net.securityGroups), InstanceNodes(plan.compute), BalancerNodes(net.loadBalancers);
    InConcat(i, b, node);
    InConcat(g, i + b, node);
    InConcat(s, g + (i + b), node);
    InConcat(root, s + (g + (i + b)), node);
    assert node in root <==> node.id == VpcId && IsNamed(plan, node);
    NetworkNodes(plan, node);
    ComputeNodes(plan, node);
  }

  lemma NetworkNodes(plan: MigrationPlan, node: Node)
    ensures node in SubnetNodes(plan.network.subnets) <==> node.id.SubnetId? && IsNamed(plan, node)
    ensures node in GroupNodes(plan.network.securityGroups) <==> node.id.GroupId? && IsNamed(plan, node)
  {
    var subnets, groups := plan.network.subnets, plan.network.securityGroups;
    if node.id.SubnetId? && IsNamed(plan, node) {
      var k :| 0 <= k < |subnets| && subnets[k].resourceName == node.id.name && subnets[k].name == node.name;
      assert SubnetNodes(subnets)[k] == node;
    } else if node.id.GroupId? && IsNamed(plan, node) {
      var k :| 0 <= k < |groups| && groups[k].resourceName == node.id.name && groups[k].name == node.name;
      assert GroupNodes(groups)[k] == node;
    }
  }

  lemma ComputeNodes(plan: MigrationPlan, node: Node)
    ensures node in InstanceNodes(plan.compute) <==> node.id.InstanceId? && IsNamed(plan, node)
    ensures node in BalancerNodes(plan.network.loadBalancers) <==> node.id.BalancerId? && IsNamed(plan, node)
  {
    var compute, lbs := plan.compute, plan.network.loadBalancers;
    if node.id.InstanceId? && IsNamed(plan, node) {
      var k :| 0 <= k < |compute| && compute[k].resourceName == node.id.name && compute[k].vmName == node.name;
      assert InstanceNodes(compute)[k] == node;
    } else if node.id.BalancerId? && IsNamed(plan, node) {
      var k :| 0 <= k < |lbs| && Network.BalancerLabel(lbs[k]) == node.id.name && Network.BalancerName(lbs[k]) == node.name;
      assert BalancerNodes(lbs)[k] == node;
    }
  }

  // ---------- the edges ----------

  /** From the network to each of its subnets. */
  ghost predicate Holds(plan: MigrationPlan, e: Edge) {
    e.kind == Contains && e.source == VpcId
    && exists k :: 0 <= k < |plan.network.subnets| && e.target == SubnetId(plan.network.subnets[k].resourceName)
  }

  /** From instance i to the subnet of the turn of the last plan of its machine name. */
  ghost predicate Places(plan: MigrationPlan, e: Edge, i: nat) {
    && i < |plan.compute| && e.kind == PlacedIn && e.source == InstanceId(plan.compute[i].resourceName)
    && e.target.SubnetId? && e.target.name != ""
    && exists j: nat ::
         LastPlan(plan.compute, j, plan.compute[i].vmName) && HasTurn(plan.network.subnets, plan.compute, j, e.target.name)
  }

  /** To the last group of that name. */
  ghost predicate Secures(groups: seq<SecurityGroup>, e: Edge, source: NodeId, name: string) {
    e.kind == SecuredBy && e.source == source
    && exists g: nat :: Network.LastNamed(groups, g, name) && e.target == GroupId(groups[g].resourceName)
  }

  /** From a balancer to every subnet of its tier. */
  ghost predicate Spans(subnets: seq<Subnet>, e: Edge, source: NodeId, tier: SubnetTier) {
    e.kind == PlacedIn && e.source == source
    && exists k :: 0 <= k < |subnets| && subnets[k].tier == tier && e.target == SubnetId(subnets[k].resourceName)
  }

  /** From a balancer to the instance of each of its targets. */
  ghost predicate Reaches(compute: seq<ComputePlan>, e: Edge, source: NodeId, targets: seq<string>) {
    e.kind == Fronts && e.source == source
    && exists j: nat, t :: t in targets && LastPlan(compute, j, t) && e.target == InstanceId(compute[j].resourceName)
  }

  ghost predicate InstanceEdge(plan: MigrationPlan, e: Edge, i: nat) {
    i < |plan.compute|
    && (Places(plan, e, i)
        || Secures(plan.network.securityGroups, e, InstanceId(plan.compute[i].resourceName), plan.compute[i].securityGroup))
  }

  ghost predicate BalancerEdge(plan: MigrationPlan, e: Edge, k: nat) {
    && k < |plan.network.loadBalancers|
    && var lb := plan.network.loadBalancers[k];
       var id := BalancerId(Network.BalancerLabel(lb));
       || Spans(plan.network.subnets, e, id, lb.subnetTier)
       || Secures(plan.network.securityGroups, e, id, lb.securityGroup)
       || Reaches(plan.compute, e, id, lb.targets)
  }

  lemma SecuredIff(groups: seq<SecurityGroup>, e: Edge, source: NodeId, name: string)
    ensures e in SecuredEdges(source, groups, name) <==> Secures(groups, e, source, name)
  {
    Network.NamedIsLast(groups, name);
    if g: nat :| Network.LastNamed(groups, g, name) && e.target == GroupId(groups[g].resourceName) {
      var h: nat :| Network.LastNamed(groups, h, name) && groups[h] == Network.GroupNamed(groups, name).value;
      assert g == h;
    }
  }

  lemma PlacedIff(plan: MigrationPlan, e: Edge, i: nat)
    requires i < |plan.compute|
    ensures var mapping := Placement(plan.network.subnets, plan.compute, |plan.compute|);
      e in PlacedEdges(plan.compute[i], mapping) <==> Places(plan, e, i)
  {
    var subnets, compute := plan.network.subnets, plan.compute;
    var j := LastExists(compute, i, |compute|);
    assert LastPlan(compute, j, compute[i].vmName);
    if e.target.SubnetId? {
      TurnIff(subnets, compute, j, e.target.name);
    }
    if subnets != [] {
      PlacementIsLast(subnets, compute, |compute|, j, compute[i].vmName);
    }
    if h: nat :| LastPlan(compute, h, compute[i].vmName) && e.target.SubnetId? && HasTurn(subnets, compute, h, e.target.name) {
      LastPlanUnique(compute, h, j, compute[i].vmName);
    }
  }

  lemma SpansIff(subnets: seq<Subnet>, e: Edge, source: NodeId, tier: SubnetTier)
    ensures e in SpanEdges(source, Pool(subnets, tier)) <==> Spans(subnets, e, source, tier)
  {
    var pool := Pool(subnets, tier);
    var edges := SpanEdges(source, pool);
    if e.target.SubnetId? {
      PoolExact(subnets, tier, e.target.name);
      if e.kind == PlacedIn && e.source == source && e.target.name in pool {
        var k :| 0 <= k < |pool| && pool[k] == e.target.name;
        assert edges[k] == e;
      }
    }
    if e in edges {
      var k :| 0 <= k < |edges| && edges[k] == e;
      assert pool[k] in pool;
    }
  }

  lemma {:induction false} FrontsIff(compute: seq<ComputePlan>, e: Edge, source: NodeId, targets: seq<string>)
    ensures e in FrontEdges(source, compute, targets) <==> Reaches(compute, e, source, targets)
  {
    if targets != [] {
      var rest, last := targets[..|targets| - 1], targets[|targets| - 1];
      assert targets == rest + [last];
      FrontsIff(compute, e, source, rest);
      FrontsLast(compute, e, source, last);
    }
  }

  ghost predicate ReachesOne(compute: seq<ComputePlan>, e: Edge, source: NodeId, t: string) {
    e.kind == Fronts && e.source == source
    && exists j: nat :: LastPlan(compute, j, t) && e.target == InstanceId(compute[j].resourceName)
  }

  lemma FrontsLast(compute: seq<ComputePlan>, e: Edge, source: NodeId, t: string)
    ensures ReachesOne(compute, e, source, t) <==>
      InstanceNamed(compute, t).Some? && e == Edge(source, InstanceId(InstanceNamed(compute, t).value), Fronts)
  {
    InstanceIsLast(compute, t);
    if j: nat :| LastPlan(compute, j, t) {
      var h: nat :| LastPlan(compute, h, t) && compute[h].resourceName == InstanceNamed(compute, t).value;
      assert forall i: nat :: LastPlan(compute, i, t) ==> i == h;
    }
  }


  lemma InstanceEdgesIff(plan: MigrationPlan, e: Edge)
    ensures e in InstanceEdges(plan) <==> exists i: nat :: InstanceEdge(plan, e, i)
  {
    var mapping := Placement(plan.network.subnets, plan.compute, |plan.compute|);
    var parts := InstanceParts(plan.compute, mapping, plan.network.securityGroups);
    InFlatten(parts, |plan.compute|, e);
    forall i: nat | i < |plan.compute| ensures e in parts[i] <==> InstanceEdge(plan, e, i) {
      var c := plan.compute[i];
      PlacedIff(plan, e, i);
      SecuredIff(plan.network.securityGroups, e, InstanceId(c.resourceName), c.securityGroup);
      InConcat(PlacedEdges(c, mapping), SecuredEdges(InstanceId(c.resourceName), plan.network.securityGroups, c.securityGroup), e);
    }
  }

  lemma BalancerEdgesIff(plan: MigrationPlan, e: Edge)
    ensures e in BalancerEdges(plan) <==> exists k: nat :: BalancerEdge(plan, e, k)
  {
    var parts := BalancerParts(plan.network, plan.compute);
    InFlatten(parts, |plan.network.loadBalancers|, e);
    forall k: nat | k < |plan.network.loadBalancers| ensures e in parts[k] <==> BalancerEdge(plan, e, k) {
      OneBalancerIff(plan, e, k);
    }
  }

  lemma OneBalancerIff(plan: MigrationPlan, e: Edge, k: nat)
    requires k < |plan.network.loadBalancers|
    ensures e in BalancerEdgesAt(plan.network, plan.compute, plan.network.loadBalancers[k]) <==> BalancerEdge(plan, e, k)
  {
    var net, lb := plan.network, plan.network.loadBalancers[k];
    var id := BalancerId(Network.BalancerLabel(lb));
    var span := SpanEdges(id, Pool(net.subnets, lb.subnetTier));
    var secured, front := SecuredEdges(id, net.securityGroups, lb.securityGroup), FrontEdges(id, plan.compute, lb.targets);
    SpansIff(net.subnets, e, id, lb.subnetTier);
    SecuredIff(net.securityGroups, e, id, lb.securityGroup);
    FrontsIff(plan.compute, e, id, lb.targets);
    InConcat(secured, front, e);
    InConcat(span, secured + front, e);
  }

  /**
   The graph has exactly these edges: the network holds each subnet; each instance is placed
   where its turn falls and secured by its group; each balancer spans the subnets of its tier,
   is secured by its group, and fronts the instance of each of its targets.
   */
  lemma EdgesExact(plan: MigrationPlan, e: Edge)
    ensures e in Edges(plan) <==>
      || Holds(plan, e)
      || (exists i: nat :: InstanceEdge(plan, e, i))
      || (exists k: nat :: BalancerEdge(plan, e, k))
  {
    var contains := ContainsEdges(plan.network.subnets);
    InConcat(InstanceEdges(plan), BalancerEdges(plan), e);
    InConcat(contains, InstanceEdges(plan) + BalancerEdges(plan), e);
    InstanceEdgesIff(plan, e);
    BalancerEdgesIff(plan, e);
    if Holds(plan, e) {
      var k :| 0 <= k < |plan.network.subnets| && e.target == SubnetId(plan.network.subnets[k].resourceName);
      assert contains[k] == e;
    }
  }
}
