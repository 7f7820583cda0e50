/**
 The topology graph derived from a plan (`graph.py`): placement spreads the instances of
 a tier over its subnets, and every edge of the graph joins two of its nodes.
 */
module Graph {
  import opened Options
  import opened PlanModel
  import opened Lists
  import opened Validators
  import Network

  /** Node ids; the original tags each label with its kind, so kinds never collide. */
  datatype NodeId =
    | VpcId
    | SubnetId(name: string)
    | GroupId(name: string)
    | InstanceId(name: string)
    | BalancerId(name: string)

  datatype EdgeKind = Contains | PlacedIn | SecuredBy | Fronts

  datatype Node = Node(id: NodeId, name: string)
  datatype Edge = Edge(source: NodeId, target: NodeId, kind: EdgeKind)

  // ---------- placement ----------

  /** Labels of the subnets of a tier, in plan order. */
  function Pool(subnets: seq<Subnet>, tier: SubnetTier): seq<string> {
    if subnets == [] then []
    else
      var last := subnets[|subnets| - 1];
      Pool(subnets[..|subnets| - 1], tier) + if last.tier == tier then [last.resourceName] else []
  }

  /** Where instances of a tier go: its own subnets, or any if it has none. */
  function PoolFor(subnets: seq<Subnet>, tier: SubnetTier): seq<string> {
    if Pool(subnets, tier) != [] then Pool(subnets, tier) else SubnetLabels(subnets)
  }

  /** How many of the first n plans belong to a subnet tier. */
  function Rank(compute: seq<ComputePlan>, tier: SubnetTier, n: nat): nat
    requires n <= |compute|
  {
    if n == 0 then 0 else Rank(compute, tier, n - 1) + if compute[n - 1].subnetTier == tier then 1 else 0
  }

  /** The subnet the round robin gives plan i. */
  function Slot(subnets: seq<Subnet>, compute: seq<ComputePlan>, i: nat): string
    requires i < |compute| && subnets != []
  {
    var pool := PoolFor(subnets, compute[i].subnetTier);
    PoolNonempty(subnets, compute[i].subnetTier);
    NextOf(pool, Rank(compute, compute[i].subnetTier, i))
  }

  lemma PoolNonempty(subnets: seq<Subnet>, tier: SubnetTier)
    requires subnets != []
    ensures PoolFor(subnets, tier) != []
  {
  }

  /** Keyed by machine name: a later plan of the same name takes the entry over. */
  function Placement(subnets: seq<Subnet>, compute: seq<ComputePlan>, n: nat): map<string, string>
    requires n <= |compute|
  {
    if n == 0 || subnets == [] then map[]
    else Placement(subnets, compute, n - 1)[compute[n - 1].vmName := Slot(subnets, compute, n - 1)]
  }

  lemma PoolEmptyIff(subnets: seq<Subnet>, tier: SubnetTier)
    ensures PoolFor(subnets, tier) == [] <==> subnets == []
  {
  }

  /** `assign_subnets`. */
  method AssignSubnets(subnets: seq<Subnet>, compute: seq<ComputePlan>) returns (mapping: map<string, string>)
    ensures mapping == Placement(subnets, compute, |compute|)
  {
    var public, private := Pool(subnets, Public), Pool(subnets, Private);
    var counters: map<SubnetTier, nat> := map[Public := 0, Private := 0];
    mapping := map[];
    RankedAtFirst(counters, subnets, compute);
    for n := 0 to |compute|
      invariant mapping == Placement(subnets, compute, n)
      invariant Ranked(counters, subnets, compute, n)
    {
      var pool := ChoosePool(subnets, public, private, compute[n].subnetTier);
      mapping, counters := PlaceOne(subnets, compute, n, pool, mapping, counters);
    }
  }

  method PlaceOne(
    ghost subnets: seq<Subnet>, compute: seq<ComputePlan>, n: nat, pool: seq<string>, before: map<string, string>,
    counted: map<SubnetTier, nat>)
    returns (mapping: map<string, string>, counters: map<SubnetTier, nat>)
    requires n < |compute| && before == Placement(subnets, compute, n) && Ranked(counted, subnets, compute, n)
    requires pool == PoolFor(subnets, compute[n].subnetTier) && (pool == [] <==> subnets == [])
    ensures mapping == Placement(subnets, compute, n + 1) && Ranked(counters, subnets, compute, n + 1)
  {
    var tier := compute[n].subnetTier;
    mapping, counters := before, counted;
    if pool != [] {
      PlacementStep(subnets, compute, n, counters[tier]);
      RankedStep(counters, subnets, compute, n);
      mapping := mapping[compute[n].vmName := NextOf(pool, counters[tier])];
      counters := counters[tier := counters[tier] + 1];
    } else {
      NoPlacement(subnets, compute, n);
    }
  }

  lemma RankedAtFirst(counters: map<SubnetTier, nat>, subnets: seq<Subnet>, compute: seq<ComputePlan>)
    requires counters == map[Public := 0, Private := 0]
    ensures Ranked(counters, subnets, compute, 0)
  {
    forall tier: SubnetTier ensures tier in counters && counters[tier] == 0 {
      assert tier == Public || tier == Private;
    }
  }

  method ChoosePool(subnets: seq<Subnet>, public: seq<string>, private: seq<string>, tier: SubnetTier)
    returns (pool: seq<string>)
    requires public == Pool(subnets, Public) && private == Pool(subnets, Private)
    ensures pool == PoolFor(subnets, tier) && (pool == [] <==> subnets == [])
  {
    PoolEmptyIff(subnets, tier);
    pool := if tier == Public then public else private;
    if pool == [] {
      pool := SubnetLabels(subnets);
    }
  }

  function NextOf(pool: seq<string>, count: nat): string
    requires pool != []
  {
    pool[count % |pool|]
  }

  /** The counters of the first n plans. */
  ghost predicate Ranked(counters: map<SubnetTier, nat>, subnets: seq<Subnet>, compute: seq<ComputePlan>, n: nat)
    requires n <= |compute|
  {
    && (forall tier: SubnetTier :: tier in counters)
    && (subnets != [] ==> forall tier: SubnetTier :: counters[tier] == Rank(compute, tier, n))
  }

  lemma RankedStep(counters: map<SubnetTier, nat>, subnets: seq<Subnet>, compute: seq<ComputePlan>, n: nat)
    requires n < |compute| && Ranked(counters, subnets, compute, n)
    ensures var tier := compute[n].subnetTier; Ranked(counters[tier := counters[tier] + 1], subnets, compute, n + 1)
  {
  }

  lemma NoPlacement(subnets: seq<Subnet>, compute: seq<ComputePlan>, n: nat)
    requires n < |compute| && subnets == []
    ensures Placement(subnets, compute, n + 1) == Placement(subnets, compute, n)
  {
  }

  lemma PlacementStep(subnets: seq<Subnet>, compute: seq<ComputePlan>, n: nat, count: nat)
    requires n < |compute| && subnets != [] && count == Rank(compute, compute[n].subnetTier, n)
    ensures var pool := PoolFor(subnets, compute[n].subnetTier);
      && pool != []
      && Placement(subnets, compute, n + 1) == Placement(subnets, compute, n)[compute[n].vmName := NextOf(pool, count)]
  {
  }

  /** How many of the first n plans of a tier land in slot k of m. */
  function Load(compute: seq<ComputePlan>, tier: SubnetTier, m: nat, k: nat, n: nat): nat
    requires m > 0 && n <= |compute|
  {
    if n == 0 then 0
    else
      Load(compute, tier, m, k, n - 1)
      + if compute[n - 1].subnetTier == tier && Rank(compute, tier, n - 1) % m == k then 1 else 0
  }

  /** Round robin: each slot has the whole share, and the first few one more. */
  lemma {:induction false} LoadExact(compute: seq<ComputePlan>, tier: SubnetTier, m: nat, k: nat, n: nat)
    requires m > 0 && k < m && n <= |compute|
    ensures Load(compute, tier, m, k, n) ==
      Rank(compute, tier, n) / m + (if k < Rank(compute, tier, n) % m then 1 else 0)
  {
    if n == 0 {
      NoneYet(m);
    } else {
      var before, after := Rank(compute, tier, n - 1), Rank(compute, tier, n);
      LoadExact(compute, tier, m, k, n - 1);
      if compute[n - 1].subnetTier == tier {
        NextShare(before, m, k);
        assert after == before + 1;
      } else {
        assert after == before;
      }
    }
  }

  lemma NoneYet(m: nat)
    requires m > 0
    ensures 0 / m == 0 && 0 % m == 0
  {
  }

  /** The next one goes to the slot whose turn it is. */
  lemma NextShare(r: nat, m: nat, k: nat)
    requires m > 0 && k < m
    ensures (r + 1) / m + (if k < (r + 1) % m then 1 else 0)
      == r / m + (if k < r % m then 1 else 0) + (if r % m == k then 1 else 0)
  {
    Successor(r, m);
  }

  lemma Successor(r: nat, m: nat)
    requires m > 0
    ensures if r % m == m - 1 then (r + 1) % m == 0 && (r + 1) / m == r / m + 1
      else (r + 1) % m == r % m + 1 && (r + 1) / m == r / m
  {
    var q, s := r / m, r % m;
    assert r == m * q + s;
    if s == m - 1 {
      NextMultiple(m, q);
      Quotient(r + 1, m, q + 1, 0);
    } else {
      Quotient(r + 1, m, q, s + 1);
    }
  }

  lemma NextMultiple(m: nat, q: nat)
    ensures m * (q + 1) == m * q + m
  {
  }

  lemma Quotient(x: nat, m: nat, q: nat, s: nat)
    requires m > 0 && s < m && x == m * q + s
    ensures x / m == q && x % m == s
  {
    var q', s' := x / m, x % m;
    assert x == m * q' + s';
    assert m * (q - q') == s' - s by {
      assert m * (q - q') == m * q - m * q';
    }
    NoRoom(m, q - q');
  }

  lemma NoRoom(m: nat, t: int)
    requires m > 0 && m * t < m && m * t > 0 - m
    ensures t == 0
  {
  }

  /** Any two subnets of a tier hold instance counts that differ by at most one. */
  lemma PlacementBalanced(compute: seq<ComputePlan>, tier: SubnetTier, m: nat, k: nat, l: nat)
    requires m > 0 && k < m && l < m
    ensures Load(compute, tier, m, k, |compute|) <= Load(compute, tier, m, l, |compute|) + 1
  {
    LoadExact(compute, tier, m, k, |compute|);
    LoadExact(compute, tier, m, l, |compute|);
  }

  // ---------- the graph ----------

  function SubnetNodes(subnets: seq<Subnet>): seq<Node> {
    seq(|subnets|, k requires 0 <= k < |subnets| => Node(SubnetId(subnets[k].resourceName), subnets[k].name))
  }

  function ContainsEdges(subnets: seq<Subnet>): seq<Edge> {
    seq(|subnets|, k requires 0 <= k < |subnets| => Edge(VpcId, SubnetId(subnets[k].resourceName), Contains))
  }

  function GroupNodes(groups: seq<SecurityGroup>): seq<Node> {
    seq(|groups|, k requires 0 <= k < |groups| => Node(GroupId(groups[k].resourceName), groups[k].name))
  }

  function InstanceNodes(compute: seq<ComputePlan>): seq<Node> {
    seq(|compute|, k requires 0 <= k < |compute| => Node(InstanceId(compute[k].resourceName), compute[k].vmName))
  }

  function BalancerNodes(lbs: seq<LoadBalancer>): seq<Node> {
    seq(|lbs|, k requires 0 <= k < |lbs| => BalancerNode(lbs[k]))
  }

  function BalancerNode(lb: LoadBalancer): Node {
    Node(BalancerId(Network.BalancerLabel(lb)), Network.BalancerName(lb))
  }

  /** An edge from `source` to the security group of that name, if there is one. */
  function SecuredEdges(source: NodeId, groups: seq<SecurityGroup>, name: string): seq<Edge> {
    var group := Network.GroupNamed(groups, name);
    if group.Some? then [Edge(source, GroupId(group.value.resourceName), SecuredBy)] else []
  }

  /** An empty label is no placement, as an empty string is false. */
  function PlacedEdges(c: ComputePlan, mapping: map<string, string>): seq<Edge> {
    if c.vmName in mapping && mapping[c.vmName] != ""
    then [Edge(InstanceId(c.resourceName), SubnetId(mapping[c.vmName]), PlacedIn)] else []
  }

  /** The edges of one instance. */
  function OwnEdges(c: ComputePlan, mapping: map<string, string>, groups: seq<SecurityGroup>): (own: seq<Edge>)
    ensures forall k :: 0 <= k < |own| ==> own[k].source == InstanceId(c.resourceName)
  {
    PlacedEdges(c, mapping) + SecuredEdges(InstanceId(c.resourceName), groups, c.securityGroup)
  }

  function InstanceParts(compute: seq<ComputePlan>, mapping: map<string, string>, groups: seq<SecurityGroup>)
    : (parts: seq<seq<Edge>>)
    ensures |parts| == |compute|
  {
    seq(|compute|, k requires 0 <= k < |compute| => OwnEdges(compute[k], mapping, groups))
  }

  /** `instance_id_by_vm_name.get`: the last plan of that name. */
  function InstanceNamed(compute: seq<ComputePlan>, vmName: string): Option<string> {
    if compute == [] then None
    else if compute[|compute| - 1].vmName == vmName then Some(compute[|compute| - 1].resourceName)
    else InstanceNamed(compute[..|compute| - 1], vmName)
  }

  function SpanEdges(source: NodeId, pool: seq<string>): seq<Edge> {
    seq(|pool|, k requires 0 <= k < |pool| => Edge(source, SubnetId(pool[k]), PlacedIn))
  }

  function FrontEdges(source: NodeId, compute: seq<ComputePlan>, targets: seq<string>): seq<Edge> {
    if targets == [] then []
    else
      var instance := InstanceNamed(compute, targets[|targets| - 1]);
      FrontEdges(source, compute, targets[..|targets| - 1])
      + if instance.Some? then [Edge(source, InstanceId(instance.value), Fronts)] else []
  }

  function BalancerEdgesAt(net: NetworkPlan, compute: seq<ComputePlan>, lb: LoadBalancer): seq<Edge> {
    var id := BalancerId(Network.BalancerLabel(lb));
    SpanEdges(id, Pool(net.subnets, lb.subnetTier))
    + (SecuredEdges(id, net.securityGroups, lb.securityGroup) + FrontEdges(id, compute, lb.targets))
  }

  function BalancerParts(net: NetworkPlan, compute: seq<ComputePlan>): (parts: seq<seq<Edge>>)
    ensures |parts| == |net.loadBalancers|
  {
    seq(|net.loadBalancers|, k requires 0 <= k < |net.loadBalancers| => BalancerEdgesAt(net, compute, net.loadBalancers[k]))
  }

  function Nodes(plan: MigrationPlan): seq<Node> {
    [Node(VpcId, plan.projectName + "-vpc")] + (SubnetNodes(plan.network.subnets)
    + (GroupNodes(plan.network.securityGroups)
    + (InstanceNodes(plan.compute) + BalancerNodes(plan.network.loadBalancers))))
  }

  function InstanceEdges(plan: MigrationPlan): seq<Edge> {
    var mapping := Placement(plan.network.subnets, plan.compute, |plan.compute|);
    Flatten(InstanceParts(plan.compute, mapping, plan.network.securityGroups), |plan.compute|)
  }

  function BalancerEdges(plan: MigrationPlan): seq<Edge> {
    Flatten(BalancerParts(plan.network, plan.compute), |plan.network.loadBalancers|)
  }

  function Edges(plan: MigrationPlan): seq<Edge> {
    ContainsEdges(plan.network.subnets) + (InstanceEdges(plan) + BalancerEdges(plan))
  }

  method AppendParts(parts: seq<seq<Edge>>) returns (edges: seq<Edge>)
    ensures edges == Flatten(parts, |parts|)
  {
    edges := [];
    for n := 0 to |parts|
      invariant edges == Flatten(parts, n)
    {
      edges := edges + parts[n];
    }
  }

  /** `build_graph`. */
  method BuildGraph(plan: MigrationPlan) returns (nodes: seq<Node>, edges: seq<Edge>)
    ensures nodes == Nodes(plan)
    ensures edges == Edges(plan)
  {
    var net := plan.network;
    var mapping := AssignSubnets(net.subnets, plan.compute);
    var instanceEdges := AppendParts(InstanceParts(plan.compute, mapping, net.securityGroups));
    var balancerEdges := AppendParts(BalancerParts(net, plan.compute));
    nodes := [Node(VpcId, plan.projectName + "-vpc")] + (SubnetNodes(net.subnets)
      + (GroupNodes(net.securityGroups) + (InstanceNodes(plan.compute) + BalancerNodes(net.loadBalancers))));
    edges := ContainsEdges(net.subnets) + (instanceEdges + balancerEdges);
  }

  // ---------- every edge joins two nodes ----------

  /** Which ids a plan has, by kind. */
  ghost predicate IsNode(plan: MigrationPlan, id: NodeId) {
    match id
    case VpcId => true
    case SubnetId(name) => exists k :: 0 <= k < |plan.network.subnets| && plan.network.subnets[k].resourceName == name
    case GroupId(name) =>
      exists k :: 0 <= k < |plan.network.securityGroups| && plan.network.securityGroups[k].resourceName == name
    case InstanceId(name) => exists k :: 0 <= k < |plan.compute| && plan.compute[k].resourceName == name
    case BalancerId(name) =>
      exists k :: 0 <= k < |plan.network.loadBalancers| && Network.BalancerLabel(plan.network.loadBalancers[k]) == name
  }

  ghost predicate HasNode(nodes: seq<Node>, id: NodeId) {
    exists k :: 0 <= k < |nodes| && nodes[k].id == id
  }

  lemma HasNodeConcat(a: seq<Node>, b: seq<Node>, id: NodeId)
    ensures HasNode(a + b, id) <==> HasNode(a, id) || HasNode(b, id)
  {
    if k :| 0 <= k < |a| && a[k].id == id {
      assert (a + b)[k].id == id;
    }
    if k :| 0 <= k < |b| && b[k].id == id {
      assert (a + b)[|a| + k].id == id;
    }
  }

  /** The node list has exactly the ids of the plan's parts. */
  lemma NodesExact(plan: MigrationPlan, id: NodeId)
    ensures HasNode(Nodes(plan), id) <==> IsNode(plan, id)
  {
    var net := plan.network;
    var root := [Node(VpcId, plan.projectName + "-vpc")];
    var s, g, i, b := SubnetNodes(net.subnets), GroupNodes(net.securityGroups), InstanceNodes(plan.compute), BalancerNodes(net.loadBalancers);
    HasNodeConcat(i, b, id);
    HasNodeConcat(g, i + b, id);
    HasNodeConcat(s, g + (i + b), id);
    HasNodeConcat(root, s + (g + (i + b)), id);
    assert root[0].id == VpcId;
    PartNodes(plan, id);
  }

  lemma PartNodes(plan: MigrationPlan, id: NodeId)
    ensures HasNode(SubnetNodes(plan.network.subnets), id) <==> id.SubnetId? && IsNode(plan, id)
    ensures HasNode(GroupNodes(plan.network.securityGroups), id) <==> id.GroupId? && IsNode(plan, id)
    ensures HasNode(InstanceNodes(plan.compute), id) <==> id.InstanceId? && IsNode(plan, id)
    ensures HasNode(BalancerNodes(plan.network.loadBalancers), id) <==> id.BalancerId? && IsNode(plan, id)
  {
    if id.SubnetId? && IsNode(plan, id) {
      var k :| 0 <= k < |plan.network.subnets| && plan.network.subnets[k].resourceName == id.name;
      assert SubnetNodes(plan.network.subnets)[k].id == id;
    } else if id.GroupId? && IsNode(plan, id) {
      var k :| 0 <= k < |plan.network.securityGroups| && plan.network.securityGroups[k].resourceName == id.name;
      assert GroupNodes(plan.network.securityGroups)[k].id == id;
    } else if id.InstanceId? && IsNode(plan, id) {
      var k :| 0 <= k < |plan.compute| && plan.compute[k].resourceName == id.name;
      assert InstanceNodes(plan.compute)[k].id == id;
    } else if id.BalancerId? && IsNode(plan, id) {
      var k :| 0 <= k < |plan.network.loadBalancers| && Network.BalancerLabel(plan.network.loadBalancers[k]) == id.name;
      assert BalancerNodes(plan.network.loadBalancers)[k].id == id;
    }
  }

  ghost predicate Joins(plan: MigrationPlan, e: Edge) {
    IsNode(plan, e.source) && IsNode(plan, e.target)
  }

  lemma {:induction false} PoolExact(subnets: seq<Subnet>, tier: SubnetTier, name: string)
    ensures name in Pool(subnets, tier) <==>
      exists k :: 0 <= k < |subnets| && subnets[k].resourceName == name && subnets[k].tier == tier
  {
    if subnets != [] {
      var rest, last := subnets[..|subnets| - 1], subnets[|subnets| - 1];
      PoolExact(rest, tier, name);
      if k :| 0 <= k < |rest| && rest[k].resourceName == name && rest[k].tier == tier {
        assert subnets[k].resourceName == name && subnets[k].tier == tier;
      }
      if k :| 0 <= k < |subnets| && subnets[k].resourceName == name && subnets[k].tier == tier {
        assert k < |rest| ==> rest[k] == subnets[k];
      }
    }
  }

  lemma SlotIsSubnet(plan: MigrationPlan, i: nat)
    requires i < |plan.compute| && plan.network.subnets != []
    ensures IsNode(plan, SubnetId(Slot(plan.network.subnets, plan.compute, i)))
  {
    var subnets, slot := plan.network.subnets, Slot(plan.network.subnets, plan.compute, i);
    PoolExact(subnets, plan.compute[i].subnetTier, slot);
    if slot !in Pool(subnets, plan.compute[i].subnetTier) {
      var k :| 0 <= k < |subnets| && SubnetLabels(subnets)[k] == slot;
      assert subnets[k].resourceName == slot;
    }
  }

  lemma {:induction false} PlacementIsSubnet(plan: MigrationPlan, n: nat, vmName: string)
    requires n <= |plan.compute| && vmName in Placement(plan.network.subnets, plan.compute, n)
    ensures IsNode(plan, SubnetId(Placement(plan.network.subnets, plan.compute, n)[vmName]))
  {
    if plan.compute[n - 1].vmName == vmName {
      SlotIsSubnet(plan, n - 1);
    } else {
      PlacementIsSubnet(plan, n - 1, vmName);
    }
  }

  lemma {:induction false} GroupNamedIsNode(groups: seq<SecurityGroup>, name: string)
    ensures var g := Network.GroupNamed(groups, name);
      && (g.None? <==> forall k :: 0 <= k < |groups| ==> groups[k].name != name)
      && (g.Some? ==> g.value in groups && g.value.name == name)
  {
    if groups != [] && groups[|groups| - 1].name != name {
      GroupNamedIsNode(groups[..|groups| - 1], name);
    }
  }

  lemma SecuredEdgesJoin(plan: MigrationPlan, source: NodeId, name: string, e: Edge)
    requires IsNode(plan, source) && e in SecuredEdges(source, plan.network.securityGroups, name)
    ensures Joins(plan, e) && e.source == source && e.kind == SecuredBy
  {
    GroupNamedIsNode(plan.network.securityGroups, name);
  }

  lemma InstanceEdgesJoin(plan: MigrationPlan, e: Edge)
    requires e in InstanceEdges(plan)
    ensures Joins(plan, e)
  {
    var mapping := Placement(plan.network.subnets, plan.compute, |plan.compute|);
    InFlatten(InstanceParts(plan.compute, mapping, plan.network.securityGroups), |plan.compute|, e);
    var i :| 0 <= i < |plan.compute| && e in OwnEdges(plan.compute[i], mapping, plan.network.securityGroups);
    OwnEdgesJoin(plan, i, e);
  }

  lemma OwnEdgesJoin(plan: MigrationPlan, i: nat, e: Edge)
    requires i < |plan.compute|
    requires e in OwnEdges(plan.compute[i], Placement(plan.network.subnets, plan.compute, |plan.compute|),
      plan.network.securityGroups)
    ensures Joins(plan, e)
  {
    var mapping := Placement(plan.network.subnets, plan.compute, |plan.compute|);
    var c := plan.compute[i];
    var placed := PlacedEdges(c, mapping);
    var secured := SecuredEdges(InstanceId(c.resourceName), plan.network.securityGroups, c.securityGroup);
    InConcat(placed, secured, e);
    if e in placed {
      PlacementIsSubnet(plan, |plan.compute|, c.vmName);
    } else {
      SecuredEdgesJoin(plan, InstanceId(c.resourceName), c.securityGroup, e);
    }
  }

  lemma {:induction false} InstanceNamedIsNode(compute: seq<ComputePlan>, vmName: string)
    ensures InstanceNamed(compute, vmName).Some? ==>
      exists k :: 0 <= k < |compute| && compute[k].resourceName == InstanceNamed(compute, vmName).value
  {
    if compute != [] && compute[|compute| - 1].vmName != vmName {
      InstanceNamedIsNode(compute[..|compute| - 1], vmName);
    }
  }

  lemma {:induction false} FrontEdgesJoin(plan: MigrationPlan, source: NodeId, targets: seq<string>, e: Edge)
    requires IsNode(plan, source) && e in FrontEdges(source, plan.compute, targets)
    ensures Joins(plan, e) && e.source == source && e.kind == Fronts
  {
    var rest := targets[..|targets| - 1];
    if e in FrontEdges(source, plan.compute, rest) {
      FrontEdgesJoin(plan, source, rest, e);
    } else {
      InstanceNamedIsNode(plan.compute, targets[|targets| - 1]);
    }
  }

  lemma SpanEdgesJoin(plan: MigrationPlan, source: NodeId, tier: SubnetTier, e: Edge)
    requires IsNode(plan, source) && e in SpanEdges(source, Pool(plan.network.subnets, tier))
    ensures Joins(plan, e) && e.source == source && e.kind == PlacedIn
  {
    var pool := Pool(plan.network.subnets, tier);
    var k :| 0 <= k < |pool| && SpanEdges(source, pool)[k] == e;
    PoolExact(plan.network.subnets, tier, pool[k]);
  }

  lemma BalancerEdgesAtJoin(plan: MigrationPlan, lb: LoadBalancer, e: Edge)
    requires lb in plan.network.loadBalancers && e in BalancerEdgesAt(plan.network, plan.compute, lb)
    ensures Joins(plan, e) && e.source.BalancerId?
  {
    var id := BalancerId(Network.BalancerLabel(lb));
    var span := SpanEdges(id, Pool(plan.network.subnets, lb.subnetTier));
    var secured := SecuredEdges(id, plan.network.securityGroups, lb.securityGroup);
    var front := FrontEdges(id, plan.compute, lb.targets);
    InConcat(secured, front, e);
    InConcat(span, secured + front, e);
    if e in span {
      SpanEdgesJoin(plan, id, lb.subnetTier, e);
    } else if e in secured {
      SecuredEdgesJoin(plan, id, lb.securityGroup, e);
    } else {
      FrontEdgesJoin(plan, id, lb.targets, e);
    }
  }

  lemma BalancerEdgesJoin(plan: MigrationPlan, e: Edge)
    requires e in BalancerEdges(plan)
    ensures Joins(plan, e) && e.source.BalancerId?
  {
    InFlatten(BalancerParts(plan.network, plan.compute), |plan.network.loadBalancers|, e);
    var k :| 0 <= k < |plan.network.loadBalancers|
      && e in BalancerEdgesAt(plan.network, plan.compute, plan.network.loadBalancers[k]);
    BalancerEdgesAtJoin(plan, plan.network.loadBalancers[k], e);
  }

  /** Referential integrity, for every plan whatever: both ends of every edge are nodes. */
  lemma EdgesJoinNodes(plan: MigrationPlan, e: Edge)
    requires e in Edges(plan)
    ensures HasNode(Nodes(plan), e.source) && HasNode(Nodes(plan), e.target)
  {
    var net := plan.network;
    var contains := ContainsEdges(net.subnets);
    var instances := InstanceEdges(plan);
    var balancers := BalancerEdges(plan);
    InConcat(instances, balancers, e);
    InConcat(contains, instances + balancers, e);
    if e in contains {
      var k :| 0 <= k < |contains| && contains[k] == e;
      assert net.subnets[k].resourceName == e.target.name;
    } else if e in instances {
      InstanceEdgesJoin(plan, e);
    } else {
      BalancerEdgesJoin(plan, e);
    }
    NodesExact(plan, e.source);
    NodesExact(plan, e.target);
  }

  // ---------- one placement and one security edge per instance ----------

  /** `out_edges`. */
  function OutEdges(edges: seq<Edge>, source: NodeId, kind: EdgeKind): seq<Edge> {
    if edges == [] then []
    else
      var last := edges[|edges| - 1];
      OutEdges(edges[..|edges| - 1], source, kind) + if last.source == source && last.kind == kind then [last] else []
  }

  lemma {:induction false} OutConcat(a: seq<Edge>, b: seq<Edge>, source: NodeId, kind: EdgeKind)
    ensures OutEdges(a + b, source, kind) == OutEdges(a, source, kind) + OutEdges(b, source, kind)
  {
    if b == [] {
      assert a + b == a;
    } else {
      assert (a + b)[..|a + b| - 1] == a + b[..|b| - 1];
      OutConcat(a, b[..|b| - 1], source, kind);
    }
  }

  lemma {:induction false} OutNone(edges: seq<Edge>, source: NodeId, kind: EdgeKind)
    requires forall k :: 0 <= k < |edges| ==> edges[k].source != source
    ensures OutEdges(edges, source, kind) == []
  {
    if edges != [] {
      OutNone(edges[..|edges| - 1], source, kind);
    }
  }

  ghost predicate DistinctLabels(compute: seq<ComputePlan>) {
    forall i, j :: 0 <= i < j < |compute| ==> compute[i].resourceName != compute[j].resourceName
  }

  ghost predicate DistinctNames(compute: seq<ComputePlan>) {
    forall i, j :: 0 <= i < j < |compute| ==> compute[i].vmName != compute[j].vmName
  }

  ghost predicate AllFrom(edges: seq<Edge>, source: NodeId) {
    forall k :: 0 <= k < |edges| ==> edges[k].source == source
  }

  lemma {:induction false} OutOfPart(parts: seq<seq<Edge>>, sources: seq<NodeId>, n: nat, i: nat, kind: EdgeKind)
    requires i < |parts| == |sources| && n <= |parts|
    requires forall k :: 0 <= k < |parts| ==> AllFrom(parts[k], sources[k])
    requires forall k :: 0 <= k < |parts| && k != i ==> sources[k] != sources[i]
    ensures OutEdges(Flatten(parts, n), sources[i], kind) == if i < n then OutEdges(parts[i], sources[i], kind) else []
  {
    if n > 0 {
      var front, part := Flatten(parts, n - 1), parts[n - 1];
      OutOfPart(parts, sources, n - 1, i, kind);
      assert Flatten(parts, n) == front + part;
      if i == n - 1 {
        OutOfLast(front, part, sources[i], kind);
      } else {
        OutOfOther(part, sources[n - 1], sources[i], kind);
        OutOfFirst(front, part, sources[i], kind);
      }
    }
  }

  lemma OutOfLast(front: seq<Edge>, part: seq<Edge>, source: NodeId, kind: EdgeKind)
    requires OutEdges(front, source, kind) == []
    ensures OutEdges(front + part, source, kind) == OutEdges(part, source, kind)
  {
    OutConcat(front, part, source, kind);
  }

  lemma OutOfFirst(front: seq<Edge>, part: seq<Edge>, source: NodeId, kind: EdgeKind)
    requires OutEdges(part, source, kind) == []
    ensures OutEdges(front + part, source, kind) == OutEdges(front, source, kind)
  {
    OutConcat(front, part, source, kind);
  }

  lemma OutOfOther(edges: seq<Edge>, mine: NodeId, source: NodeId, kind: EdgeKind)
    requires AllFrom(edges, mine) && mine != source
    ensures OutEdges(edges, source, kind) == []
  {
    OutNone(edges, source, kind);
  }

  lemma OutOfInstance(
    compute: seq<ComputePlan>, mapping: map<string, string>, groups: seq<SecurityGroup>, i: nat, kind: EdgeKind)
    requires i < |compute| && DistinctLabels(compute)
    ensures var id := InstanceId(compute[i].resourceName);
      OutEdges(Flatten(InstanceParts(compute, mapping, groups), |compute|), id, kind) ==
        OutEdges(OwnEdges(compute[i], mapping, groups), id, kind)
  {
    var parts := InstanceParts(compute, mapping, groups);
    var sources := seq(|compute|, k requires 0 <= k < |compute| => InstanceId(compute[k].resourceName));
    forall k | 0 <= k < |parts| ensures AllFrom(parts[k], sources[k]) {
      assert parts[k] == OwnEdges(compute[k], mapping, groups);
    }
    OutOfPart(parts, sources, |compute|, i, kind);
  }

  /** Only its own edges leave an instance. */
  lemma OutOfPlan(plan: MigrationPlan, i: nat, kind: EdgeKind)
    requires i < |plan.compute| && DistinctLabels(plan.compute)
    ensures var source := InstanceId(plan.compute[i].resourceName);
      var mapping := Placement(plan.network.subnets, plan.compute, |plan.compute|);
      OutEdges(Edges(plan), source, kind) ==
        OutEdges(OwnEdges(plan.compute[i], mapping, plan.network.securityGroups), source, kind)
  {
    var net, compute := plan.network, plan.compute;
    var source := InstanceId(compute[i].resourceName);
    var mapping := Placement(net.subnets, compute, |compute|);
    var contains := ContainsEdges(net.subnets);
    var instances := InstanceEdges(plan);
    var balancers := BalancerEdges(plan);
    OutConcat(instances, balancers, source, kind);
    OutConcat(contains, instances + balancers, source, kind);
    OutNone(contains, source, kind);
    forall k | 0 <= k < |balancers| ensures balancers[k].source != source {
      BalancerEdgesJoin(plan, balancers[k]);
    }
    OutNone(balancers, source, kind);
    OutOfInstance(compute, mapping, net.securityGroups, i, kind);
  }

  lemma {:induction false} PlacementAt(subnets: seq<Subnet>, compute: seq<ComputePlan>, n: nat, i: nat)
    requires i < n <= |compute| && DistinctNames(compute) && subnets != []
    ensures compute[i].vmName in Placement(subnets, compute, n)
    ensures Placement(subnets, compute, n)[compute[i].vmName] == Slot(subnets, compute, i)
  {
    PlacementNext(subnets, compute, n - 1);
    if i < n - 1 {
      PlacementAt(subnets, compute, n - 1, i);
      assert compute[i].vmName != compute[n - 1].vmName;
    }
  }

  lemma PlacementNext(subnets: seq<Subnet>, compute: seq<ComputePlan>, n: nat)
    requires n < |compute| && subnets != []
    ensures Placement(subnets, compute, n + 1) == Placement(subnets, compute, n)[compute[n].vmName := Slot(subnets, compute, n)]
  {
  }

  lemma NoDuplicateMeansDistinct(plan: MigrationPlan, target: Target)
    requires forall x :: !Defect(plan, target, x)
    ensures DistinctLabels(plan.compute)
  {
    var labels := ComputeLabels(plan.compute);
    forall i, j | 0 <= i < j < |plan.compute| ensures plan.compute[i].resourceName != plan.compute[j].resourceName {
      var first := FirstIndex(labels, labels[j], j);
      if first.Some? {
        assert Defect(plan, target, DuplicateName(first.value, j));
      }
      assert labels[i] != labels[j];
    }
  }

  /** A subnet of that label and tier. */
  ghost predicate SubnetOfTier(subnets: seq<Subnet>, name: string, tier: SubnetTier) {
    exists k :: 0 <= k < |subnets| && subnets[k].resourceName == name && subnets[k].tier == tier
  }

  lemma TierCovered(plan: MigrationPlan, target: Target, i: nat)
    requires i < |plan.compute| && forall x :: !Defect(plan, target, x)
    ensures plan.network.subnets != [] && Pool(plan.network.subnets, plan.compute[i].subnetTier) != []
  {
    var subnets, tier := plan.network.subnets, plan.compute[i].subnetTier;
    assert !Defect(plan, target, NoSubnetOfTier(i));
    var k :| 0 <= k < |subnets| && subnets[k].tier == tier;
    PoolExact(subnets, tier, subnets[k].resourceName);
  }

  /** Where tier coverage holds, the slot of an instance is a subnet of its own tier. */
  lemma SlotOfTier(plan: MigrationPlan, target: Target, i: nat)
    requires i < |plan.compute| && forall x :: !Defect(plan, target, x)
    ensures plan.network.subnets != []
    ensures SubnetOfTier(plan.network.subnets, Slot(plan.network.subnets, plan.compute, i), plan.compute[i].subnetTier)
  {
    var subnets, tier := plan.network.subnets, plan.compute[i].subnetTier;
    TierCovered(plan, target, i);
    PoolExact(subnets, tier, Slot(subnets, plan.compute, i));
  }

  lemma OutOne(a: seq<Edge>, b: seq<Edge>, e: Edge, f: Edge)
    requires a == [e] && b == [f] && e.kind == PlacedIn && f.kind == SecuredBy && e.source == f.source
    ensures OutEdges(a + b, e.source, PlacedIn) == [e] && OutEdges(a + b, e.source, SecuredBy) == [f]
  {
    assert (a + b)[..1] == [e] && [e][..0] == [];
    assert OutEdges([e], e.source, PlacedIn) == [e];
    assert OutEdges([e], e.source, SecuredBy) == [];
  }

  /**
   In the graph of a plan the validator accepts, every instance has one placement edge, to a
   subnet of its own tier, and one security edge, to its own group.
   */
  lemma OnePlacementOneGroup(plan: MigrationPlan, target: Target, i: nat)
    returns (subnet: string, group: SecurityGroup)
    requires i < |plan.compute| && forall x :: !Defect(plan, target, x)
    requires DistinctNames(plan.compute)
    requires forall k :: 0 <= k < |plan.network.subnets| ==> plan.network.subnets[k].resourceName != ""
    ensures SubnetOfTier(plan.network.subnets, subnet, plan.compute[i].subnetTier)
    ensures subnet == Slot(plan.network.subnets, plan.compute, i)
    ensures group in plan.network.securityGroups && group.name == plan.compute[i].securityGroup
    ensures var id := InstanceId(plan.compute[i].resourceName);
      && OutEdges(Edges(plan), id, PlacedIn) == [Edge(id, SubnetId(subnet), PlacedIn)]
      && OutEdges(Edges(plan), id, SecuredBy) == [Edge(id, GroupId(group.resourceName), SecuredBy)]
  {
    var net, c := plan.network, plan.compute[i];
    var id := InstanceId(c.resourceName);
    NoDuplicateMeansDistinct(plan, target);
    SlotOfTier(plan, target, i);
    PlacementAt(net.subnets, plan.compute, |plan.compute|, i);
    subnet := Slot(net.subnets, plan.compute, i);
    GroupNamedIsNode(net.securityGroups, c.securityGroup);
    assert !Defect(plan, target, UndefinedGroup(i));
    group := Network.GroupNamed(net.securityGroups, c.securityGroup).value;
    OutOfPlan(plan, i, PlacedIn);
    OutOfPlan(plan, i, SecuredBy);
    var mapping := Placement(net.subnets, plan.compute, |plan.compute|);
    OutOne(PlacedEdges(c, mapping), SecuredEdges(id, net.securityGroups, c.securityGroup),
      Edge(id, SubnetId(subnet), PlacedIn), Edge(id, GroupId(group.resourceName), SecuredBy));
  }

  // ---------- the same number of instances per subnet ----------

  function CountTrue(hits: seq<bool>, n: nat): nat
    requires n <= |hits|
  {
    if n == 0 then 0 else CountTrue(hits, n - 1) + if hits[n - 1] then 1 else 0
  }

  /** Which instances the round robin gives the subnet of that label. */
  ghost function Turns(subnets: seq<Subnet>, compute: seq<ComputePlan>, name: string): (hits: seq<bool>)
    requires subnets != []
    ensures |hits| == |compute|
  {
    seq(|compute|, i requires 0 <= i < |compute| => Slot(subnets, compute, i) == name)
  }

  /** ... and how many. */
  ghost function Placed(subnets: seq<Subnet>, compute: seq<ComputePlan>, name: string): nat
    requires subnets != []
  {
    CountTrue(Turns(subnets, compute, name), |compute|)
  }

  lemma {:induction false} CountIsLoad(hits: seq<bool>, compute: seq<ComputePlan>, tier: SubnetTier, m: nat, k: nat, n: nat)
    requires n <= |compute| == |hits| && m > 0
    requires forall i :: 0 <= i < |compute| ==> (hits[i] <==> compute[i].subnetTier == tier && Rank(compute, tier, i) % m == k)
    ensures CountTrue(hits, n) == Load(compute, tier, m, k, n)
  {
    if n > 0 {
      CountIsLoad(hits, compute, tier, m, k, n - 1);
    }
  }

  lemma PlacedIsLoad(subnets: seq<Subnet>, compute: seq<ComputePlan>, tier: SubnetTier, k: nat)
    requires DistinctSubnets(subnets) && k < |Pool(subnets, tier)|
    requires forall i :: 0 <= i < |compute| ==> Pool(subnets, compute[i].subnetTier) != []
    ensures subnets != []
    ensures Placed(subnets, compute, Pool(subnets, tier)[k]) == Load(compute, tier, |Pool(subnets, tier)|, k, |compute|)
  {
    PoolExact(subnets, tier, Pool(subnets, tier)[k]);
    var hits := Turns(subnets, compute, Pool(subnets, tier)[k]);
    forall i | 0 <= i < |compute|
      ensures hits[i] <==> compute[i].subnetTier == tier && Rank(compute, tier, i) % |Pool(subnets, tier)| == k
    {
      SlotIsPoolEntry(subnets, compute, tier, k, i);
    }
    CountIsLoad(hits, compute, tier, |Pool(subnets, tier)|, k, |compute|);
  }

  /** A machine's slot is entry k of a tier's pool exactly when it is of that tier and k is its turn. */
  lemma SlotIsPoolEntry(subnets: seq<Subnet>, compute: seq<ComputePlan>, tier: SubnetTier, k: nat, i: nat)
    requires i < |compute| && DistinctSubnets(subnets) && k < |Pool(subnets, tier)|
    requires subnets != [] && Pool(subnets, compute[i].subnetTier) != []
    ensures Slot(subnets, compute, i) == Pool(subnets, tier)[k] <==>
      compute[i].subnetTier == tier && Rank(compute, tier, i) % |Pool(subnets, tier)| == k
  {
    PoolDistinct(subnets, tier);
    if compute[i].subnetTier != tier && Slot(subnets, compute, i) == Pool(subnets, tier)[k] {
      PoolsDisjoint(subnets, Pool(subnets, tier)[k], compute[i].subnetTier, tier);
      assert false;
    }
  }

  ghost predicate DistinctSubnets(subnets: seq<Subnet>) {
    forall k, l :: 0 <= k < l < |subnets| ==> subnets[k].resourceName != subnets[l].resourceName
  }

  lemma {:induction false} PoolDistinct(subnets: seq<Subnet>, tier: SubnetTier)
    requires DistinctSubnets(subnets)
    ensures forall k, l :: 0 <= k < l < |Pool(subnets, tier)| ==> Pool(subnets, tier)[k] != Pool(subnets, tier)[l]
  {
    if subnets != [] {
      var rest, last := subnets[..|subnets| - 1], subnets[|subnets| - 1];
      PoolDistinct(rest, tier);
      PoolExact(rest, tier, last.resourceName);
      assert last.resourceName !in Pool(rest, tier);
    }
  }

  lemma PoolsDisjoint(subnets: seq<Subnet>, name: string, tier: SubnetTier, other: SubnetTier)
    requires DistinctSubnets(subnets) && name in Pool(subnets, tier) && name in Pool(subnets, other)
    ensures tier == other
  {
    PoolExact(subnets, tier, name);
    PoolExact(subnets, other, name);
  }

  lemma DistinctFromNoDefect(plan: MigrationPlan, target: Target)
    requires forall x :: !Defect(plan, target, x)
    ensures DistinctSubnets(plan.network.subnets)
  {
    var subnets := plan.network.subnets;
    forall k, l | 0 <= k < l < |subnets| ensures subnets[k].resourceName != subnets[l].resourceName {
      var labels := SubnetLabels(subnets);
      assert !Defect(plan, target, DuplicateSubnetLabel(l));
      assert labels[..l][k] == labels[k];
    }
  }

  // ---------- the same number of placement edges per subnet ----------

  /** The edge places an instance in the subnet of that label. */
  predicate Hosts(e: Edge, name: string) {
    e.kind == PlacedIn && e.target == SubnetId(name) && e.source.InstanceId?
  }

  /** How many instances the edges place in a subnet. */
  ghost function Hosted(edges: seq<Edge>, name: string): nat {
    if edges == [] then 0
    else Hosted(edges[..|edges| - 1], name) + if Hosts(edges[|edges| - 1], name) then 1 else 0
  }

  lemma {:induction false} HostedConcat(a: seq<Edge>, b: seq<Edge>, name: string)
    ensures Hosted(a + b, name) == Hosted(a, name) + Hosted(b, name)
  {
    if b == [] {
      assert a + b == a;
    } else {
      assert (a + b)[..|a + b| - 1] == a + b[..|b| - 1];
      HostedConcat(a, b[..|b| - 1], name);
    }
  }

  lemma {:induction false} HostedNone(edges: seq<Edge>, name: string)
    requires forall k :: 0 <= k < |edges| ==> !Hosts(edges[k], name)
    ensures Hosted(edges, name) == 0
  {
    if edges != [] {
      HostedNone(edges[..|edges| - 1], name);
    }
  }

  lemma HostedOwn(plan: MigrationPlan, i: nat, name: string)
    requires i < |plan.compute| && DistinctNames(plan.compute) && plan.network.subnets != [] && name != ""
    ensures var mapping := Placement(plan.network.subnets, plan.compute, |plan.compute|);
      Hosted(OwnEdges(plan.compute[i], mapping, plan.network.securityGroups), name) ==
        if Slot(plan.network.subnets, plan.compute, i) == name then 1 else 0
  {
    var c, groups := plan.compute[i], plan.network.securityGroups;
    var mapping := Placement(plan.network.subnets, plan.compute, |plan.compute|);
    PlacementAt(plan.network.subnets, plan.compute, |plan.compute|, i);
    var placed, secured := PlacedEdges(c, mapping), SecuredEdges(InstanceId(c.resourceName), groups, c.securityGroup);
    HostedConcat(placed, secured, name);
    HostedNone(secured, name);
    if placed != [] {
      assert placed[..0] == [] && Hosted(placed[..0], name) == 0;
    }
  }

  lemma {:induction false} HostedBelow(parts: seq<seq<Edge>>, hits: seq<bool>, name: string, n: nat)
    requires n <= |parts| == |hits|
    requires forall i :: 0 <= i < |parts| ==> Hosted(parts[i], name) == if hits[i] then 1 else 0
    ensures Hosted(Flatten(parts, n), name) == CountTrue(hits, n)
  {
    if n > 0 {
      HostedBelow(parts, hits, name, n - 1);
      HostedConcat(Flatten(parts, n - 1), parts[n - 1], name);
    }
  }

  /** The graph's placement edges into a subnet are its turns of the round robin. */
  lemma HostedIsPlaced(plan: MigrationPlan, name: string)
    requires DistinctNames(plan.compute) && plan.network.subnets != [] && name != ""
    ensures Hosted(Edges(plan), name) == Placed(plan.network.subnets, plan.compute, name)
  {
    var contains, instances, balancers := ContainsEdges(plan.network.subnets), InstanceEdges(plan), BalancerEdges(plan);
    HostedConcat(instances, balancers, name);
    HostedConcat(contains, instances + balancers, name);
    HostedNone(contains, name);
    forall k | 0 <= k < |balancers| ensures !Hosts(balancers[k], name) {
      BalancerEdgesJoin(plan, balancers[k]);
    }
    HostedNone(balancers, name);
    HostedInstances(plan, name);
  }

  lemma HostedInstances(plan: MigrationPlan, name: string)
    requires DistinctNames(plan.compute) && plan.network.subnets != [] && name != ""
    ensures Hosted(InstanceEdges(plan), name) == Placed(plan.network.subnets, plan.compute, name)
  {
    var mapping := Placement(plan.network.subnets, plan.compute, |plan.compute|);
    var parts := InstanceParts(plan.compute, mapping, plan.network.securityGroups);
    var hits := Turns(plan.network.subnets, plan.compute, name);
    forall i | 0 <= i < |parts| ensures Hosted(parts[i], name) == if hits[i] then 1 else 0 {
      HostedOwn(plan, i, name);
    }
    HostedBelow(parts, hits, name, |plan.compute|);
  }

  /** In the graph of a plan the validator accepts, two subnets of a tier host the same number
      of instances, give or take one. */
  lemma SubnetsBalanced(plan: MigrationPlan, target: Target, k: nat, l: nat)
    requires (forall x :: !Defect(plan, target, x)) && DistinctNames(plan.compute)
    requires k < |plan.network.subnets| && l < |plan.network.subnets|
    requires plan.network.subnets[k].tier == plan.network.subnets[l].tier
    requires plan.network.subnets[k].resourceName != "" && plan.network.subnets[l].resourceName != ""
    ensures Hosted(Edges(plan), plan.network.subnets[k].resourceName)
      <= Hosted(Edges(plan), plan.network.subnets[l].resourceName) + 1
  {
    HostedIsPlaced(plan, plan.network.subnets[k].resourceName);
    HostedIsPlaced(plan, plan.network.subnets[l].resourceName);
    TurnsBalanced(plan, target, k, l);
  }

  lemma TurnsBalanced(plan: MigrationPlan, target: Target, k: nat, l: nat)
    requires forall x :: !Defect(plan, target, x)
    requires k < |plan.network.subnets| && l < |plan.network.subnets|
    requires plan.network.subnets[k].tier == plan.network.subnets[l].tier
    ensures var subnets := plan.network.subnets;
      Placed(subnets, plan.compute, subnets[k].resourceName)
        <= Placed(subnets, plan.compute, subnets[l].resourceName) + 1
  {
    var subnets, compute := plan.network.subnets, plan.compute;
    var tier := subnets[k].tier;
    var pool := Pool(subnets, tier);
    DistinctFromNoDefect(plan, target);
    forall i | 0 <= i < |compute| ensures Pool(subnets, compute[i].subnetTier) != [] {
      TierCovered(plan, target, i);
    }
    PoolExact(subnets, tier, subnets[k].resourceName);
    PoolExact(subnets, tier, subnets[l].resourceName);
    var a :| 0 <= a < |pool| && pool[a] == subnets[k].resourceName;
    var b :| 0 <= b < |pool| && pool[b] == subnets[l].resourceName;
    PlacedIsLoad(subnets, compute, tier, a);
    PlacedIsLoad(subnets, compute, tier, b);
    PlacementBalanced(compute, tier, |pool|, a, b);
  }
}
