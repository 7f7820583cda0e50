/** The network a compute plan needs (`agents/network.py`). */
module Network {
  import opened Options
  import opened Text
  import opened Lists
  import opened Naming
  import opened PlanModel
  import LandingZone

  const AZ_COUNT: nat := 2

  // ---------- load balancers ----------

  /** What a load balancer fronts: the plans of one tier, environment and subnet tier. */
  datatype Key = Key(tier: Tier, environment: Environment, subnetTier: SubnetTier)

  function KeyOf(c: ComputePlan): Key {
    Key(c.tier, c.environment, c.subnetTier)
  }

  const TIERS: seq<Tier> := [App, Cache, Database, Other, Web]
  const ENVIRONMENTS: seq<Environment> := [Development, Production, Staging, Testing, Unknown]
  const SUBNET_TIERS: seq<SubnetTier> := [Private, Public]

  /** The i-th key in the order of the printed values. */
  function KeyAt(i: nat): Key
    requires i < 50
  {
    Key(TIERS[i / 10], ENVIRONMENTS[i / 2 % 5], SUBNET_TIERS[i % 2])
  }

  function RankOf(key: Key): (i: nat)
    ensures i < 50 && KeyAt(i) == key
  {
    PlacesSplit(TierPlace(key.tier), EnvironmentPlace(key.environment), if key.subnetTier.Private? then 0 else 1);
    10 * TierPlace(key.tier) + 2 * EnvironmentPlace(key.environment) + if key.subnetTier.Private? then 0 else 1
  }

  function TierPlace(t: Tier): (i: nat)
    ensures i < 5 && TIERS[i] == t
  {
    match t case App => 0 case Cache => 1 case Database => 2 case Other => 3 case Web => 4
  }

  function EnvironmentPlace(e: Environment): (i: nat)
    ensures i < 5 && ENVIRONMENTS[i] == e
  {
    match e case Development => 0 case Production => 1 case Staging => 2 case Testing => 3 case Unknown => 4
  }

  lemma PlacesSplit(t: nat, e: nat, s: nat)
    requires t < 5 && e < 5 && s < 2
    ensures var i := 10 * t + 2 * e + s; i / 10 == t && i / 2 % 5 == e && i % 2 == s
  {
  }

  lemma KeysDistinct(i: nat, j: nat)
    requires i < 50 && j < 50 && KeyAt(i) == KeyAt(j)
    ensures i == j
  {
    TierUnique(i / 10, j / 10);
    EnvironmentUnique(i / 2 % 5, j / 2 % 5);
    assert SUBNET_TIERS[i % 2] == SUBNET_TIERS[j % 2];
    SamePlaces(i, j);
  }

  lemma SamePlaces(i: nat, j: nat)
    requires i / 10 == j / 10 && i / 2 % 5 == j / 2 % 5 && i % 2 == j % 2
    ensures i == j
  {
  }

  lemma TierUnique(i: nat, j: nat)
    requires i < 5 && j < 5 && TIERS[i] == TIERS[j]
    ensures i == j
  {
  }

  lemma EnvironmentUnique(i: nat, j: nat)
    requires i < 5 && j < 5 && ENVIRONMENTS[i] == ENVIRONMENTS[j]
    ensures i == j
  {
  }

  /** The plans of a key, in plan order. */
  function Members(compute: seq<ComputePlan>, key: Key): seq<ComputePlan> {
    if compute == [] then []
    else
      Members(compute[..|compute| - 1], key) +
      if KeyOf(compute[|compute| - 1]) == key then [compute[|compute| - 1]] else []
  }

  function VmNames(plans: seq<ComputePlan>): seq<string> {
    seq(|plans|, i requires 0 <= i < |plans| => plans[i].vmName)
  }

  /** `sg_by_name.get`: a later group of the same name replaces an earlier one. */
  function GroupNamed(groups: seq<SecurityGroup>, name: string): Option<SecurityGroup> {
    if groups == [] then None
    else if groups[|groups| - 1].name == name then Some(groups[|groups| - 1])
    else GroupNamed(groups[..|groups| - 1], name)
  }

  function Ports(groups: seq<SecurityGroup>, name: string): set<int> {
    var sg := GroupNamed(groups, name);
    if sg.None? then {} else set r | r in sg.value.ingress :: r.fromPort
  }

  /** The load balancer of a key: only for two or more plans, and only with a port to serve. */
  function BalancerFor(members: seq<ComputePlan>, groups: seq<SecurityGroup>, key: Key): (lb: Option<LoadBalancer>)
    ensures lb.Some? ==> BalancerKey(lb.value) == key && |lb.value.targets| == |members| >= 2
  {
    if |members| < 2 || Ports(groups, members[0].securityGroup) == {} then None
    else
      Some(LoadBalancer(key.tier, key.environment, key.subnetTier, members[0].securityGroup,
        Ports(groups, members[0].securityGroup), VmNames(members)))
  }

  function BalancerKey(lb: LoadBalancer): Key {
    Key(lb.tier, lb.environment, lb.subnetTier)
  }

  function BalancerName(lb: LoadBalancer): string {
    EnvironmentText(lb.environment) + "-" + TierText(lb.tier) + "-lb"
  }

  function BalancerLabel(lb: LoadBalancer): string {
    TerraformSafeName(BalancerName(lb))
  }

  function TierText(t: Tier): string {
    match t
    case Web => "web" case App => "app" case Database => "database" case Cache => "cache" case Other => "other"
  }

  function EnvironmentText(e: Environment): string {
    match e
    case Production => "production" case Staging => "staging" case Development => "development"
    case Testing => "test" case Unknown => "unknown"
  }

  method GroupByKey(compute: seq<ComputePlan>) returns (members: map<Key, seq<ComputePlan>>)
    ensures forall key :: MembersOf(members, key) == Members(compute, key)
  {
    members := map[];
    for n := 0 to |compute|
      invariant forall key :: MembersOf(members, key) == Members(compute[..n], key)
    {
      var c := compute[n];
      assert compute[..n + 1][..n] == compute[..n];
      members := members[KeyOf(c) := MembersOf(members, KeyOf(c)) + [c]];
    }
    assert compute[..|compute|] == compute;
  }

  /** The load balancers of the first n keys, in order. */
  function Balancers(compute: seq<ComputePlan>, groups: seq<SecurityGroup>, n: nat): seq<LoadBalancer>
    requires n <= 50
  {
    if n == 0 then []
    else
      var lb := BalancerFor(Members(compute, KeyAt(n - 1)), groups, KeyAt(n - 1));
      Balancers(compute, groups, n - 1) + if lb.Some? then [lb.value] else []
  }

  function MembersOf(members: map<Key, seq<ComputePlan>>, key: Key): seq<ComputePlan> {
    if key in members then members[key] else []
  }

  lemma BalancersGrow(compute: seq<ComputePlan>, groups: seq<SecurityGroup>, n: nat)
    requires n < 50
    ensures var lb := BalancerFor(Members(compute, KeyAt(n)), groups, KeyAt(n));
      Balancers(compute, groups, n + 1) == Balancers(compute, groups, n) + if lb.Some? then [lb.value] else []
  {
  }

  /** `_plan_load_balancers`. */
  method PlanLoadBalancers(compute: seq<ComputePlan>, groups: seq<SecurityGroup>) returns (lbs: seq<LoadBalancer>)
    ensures AllServed(lbs, compute, groups)
  {
    var members := GroupByKey(compute);
    lbs := [];
    var n := 0;
    while n < 50
      invariant n <= 50
      invariant lbs == Balancers(compute, groups, n)
    {
      BalancersGrow(compute, groups, n);
      var key := KeyAt(n);
      var lb := BalancerFor(MembersOf(members, key), groups, key);
      if lb.Some? {
        lbs := lbs + [lb.value];
      }
      n := n + 1;
    }
    BalancersServeAll(compute, groups, lbs);
  }

  lemma RankUnique(n: nat)
    requires n < 50
    ensures RankOf(KeyAt(n)) == n
  {
    KeysDistinct(n, RankOf(KeyAt(n)));
  }

  lemma {:induction false} BalancersBelow(compute: seq<ComputePlan>, groups: seq<SecurityGroup>, n: nat, lb: LoadBalancer)
    requires n <= 50
    ensures lb in Balancers(compute, groups, n) <==>
      RankOf(BalancerKey(lb)) < n && BalancerFor(Members(compute, BalancerKey(lb)), groups, BalancerKey(lb)) == Some(lb)
  {
    if n > 0 {
      BalancersBelow(compute, groups, n - 1, lb);
      BalancersGrow(compute, groups, n - 1);
      InOptional(Balancers(compute, groups, n - 1), BalancerFor(Members(compute, KeyAt(n - 1)), groups, KeyAt(n - 1)), lb);
      BalancerAt(compute, groups, n - 1, lb);
    }
  }

  lemma InOptional<T>(earlier: seq<T>, one: Option<T>, x: T)
    ensures x in earlier + (if one.Some? then [one.value] else []) <==> x in earlier || one == Some(x)
  {
  }

  /** The n-th key adds its own balancer, if it has one. */
  lemma BalancerAt(compute: seq<ComputePlan>, groups: seq<SecurityGroup>, n: nat, lb: LoadBalancer)
    requires n < 50
    ensures BalancerFor(Members(compute, KeyAt(n)), groups, KeyAt(n)) == Some(lb) <==>
      RankOf(BalancerKey(lb)) == n && BalancerFor(Members(compute, BalancerKey(lb)), groups, BalancerKey(lb)) == Some(lb)
  {
    RankUnique(n);
    assert KeyAt(RankOf(BalancerKey(lb))) == BalancerKey(lb);
  }

  /** A key has a balancer exactly when two or more plans share it behind an open port,
      and then the balancer fronts exactly those plans. */
  lemma BalancerExact(compute: seq<ComputePlan>, groups: seq<SecurityGroup>, lb: LoadBalancer)
    ensures lb in Balancers(compute, groups, 50) <==>
      BalancerFor(Members(compute, BalancerKey(lb)), groups, BalancerKey(lb)) == Some(lb)
  {
    BalancersBelow(compute, groups, 50, lb);
  }

  /** No two balancers serve the same key, so no plan is fronted twice. */
  lemma {:induction false} BalancersHaveDistinctKeys(compute: seq<ComputePlan>, groups: seq<SecurityGroup>, n: nat)
    requires n <= 50
    ensures var lbs := Balancers(compute, groups, n);
      forall i, j :: 0 <= i < j < |lbs| ==> BalancerKey(lbs[i]) != BalancerKey(lbs[j])
  {
    if n > 0 {
      BalancersHaveDistinctKeys(compute, groups, n - 1);
      RankUnique(n - 1);
      forall lb | lb in Balancers(compute, groups, n - 1) ensures BalancerKey(lb) != KeyAt(n - 1) {
        BalancersBelow(compute, groups, n - 1, lb);
      }
      var earlier, lbs := Balancers(compute, groups, n - 1), Balancers(compute, groups, n);
      forall i, j | 0 <= i < j < |lbs| ensures BalancerKey(lbs[i]) != BalancerKey(lbs[j]) {
        assert lbs[i] == earlier[i] && earlier[i] in Balancers(compute, groups, n - 1);
        assert j < |earlier| ==> lbs[j] == earlier[j];
      }
    }
  }

  /** A group's members are the plans of its key and no others. */
  lemma {:induction false} MembersExact(compute: seq<ComputePlan>, key: Key, c: ComputePlan)
    ensures c in Members(compute, key) <==> c in compute && KeyOf(c) == key
  {
    if compute != [] {
      assert compute == compute[..|compute| - 1] + [compute[|compute| - 1]];
      MembersExact(compute[..|compute| - 1], key, c);
    }
  }

  // ---------- what the balancers serve ----------

  /** The plans of one tier, environment and subnet tier. */
  ghost predicate Sharers(at: seq<nat>, compute: seq<ComputePlan>, tier: Tier, environment: Environment, subnetTier: SubnetTier) {
    && Increasing(at)
    && forall i: nat :: i in at <==>
         i < |compute| && compute[i].tier == tier && compute[i].environment == environment && compute[i].subnetTier == subnetTier
  }

  /** The last group of that name. */
  ghost predicate LastNamed(groups: seq<SecurityGroup>, g: nat, name: string) {
    g < |groups| && groups[g].name == name && forall h :: g < h < |groups| ==> groups[h].name != name
  }

  /** The ports the last group of that name opens; none if there is no such group. */
  ghost predicate Opens(groups: seq<SecurityGroup>, name: string, ports: set<int>) {
    forall p :: p in ports <==>
      exists g: nat, r :: LastNamed(groups, g, name) && r in groups[g].ingress && r.fromPort == p
  }

  /**
   The balancer sends traffic to exactly the plans of its key, in plan order, two or more of
   them, on the ports that the first one's group opens.
   */
  ghost predicate Serves(lb: LoadBalancer, compute: seq<ComputePlan>, groups: seq<SecurityGroup>, at: seq<nat>) {
    && Sharers(at, compute, lb.tier, lb.environment, lb.subnetTier)
    && (forall k :: 0 <= k < |at| ==> at[k] < |compute|)
    && |lb.targets| == |at| >= 2 && (forall k :: 0 <= k < |at| ==> lb.targets[k] == compute[at[k]].vmName)
    && lb.securityGroup == compute[at[0]].securityGroup
    && Opens(groups, lb.securityGroup, lb.listeners) && lb.listeners != {}
  }

  /** By the printed tier, then environment, then subnet tier. */
  predicate PrintedBefore(a: LoadBalancer, b: LoadBalancer) {
    if a.tier != b.tier then LexLeq(TierText(a.tier), TierText(b.tier))
    else if a.environment != b.environment then LexLeq(EnvironmentText(a.environment), EnvironmentText(b.environment))
    else a.subnetTier == Private && b.subnetTier == Public
  }

  /** Two or more plans share a key, and the group of the first of them opens a port. */
  ghost predicate NeedsBalancer(
    compute: seq<ComputePlan>, groups: seq<SecurityGroup>, at: seq<nat>,
    tier: Tier, environment: Environment, subnetTier: SubnetTier)
  {
    && Sharers(at, compute, tier, environment, subnetTier) && |at| >= 2 && at[0] < |compute|
    && exists g: nat :: LastNamed(groups, g, compute[at[0]].securityGroup) && groups[g].ingress != []
  }

  /** One balancer for each key that needs one, in printed order. */
  ghost predicate AllServed(lbs: seq<LoadBalancer>, compute: seq<ComputePlan>, groups: seq<SecurityGroup>) {
    && (forall k :: 0 <= k < |lbs| ==> ServesSome(lbs[k], compute, groups))
    && NeedsMet(lbs, compute, groups)
    && forall j, k :: 0 <= j < k < |lbs| ==> PrintedBefore(lbs[j], lbs[k])
  }

  ghost predicate ServesSome(lb: LoadBalancer, compute: seq<ComputePlan>, groups: seq<SecurityGroup>) {
    exists at: seq<nat> :: Serves(lb, compute, groups, at)
  }

  ghost predicate NeedsMet(lbs: seq<LoadBalancer>, compute: seq<ComputePlan>, groups: seq<SecurityGroup>) {
    forall tier, environment, subnetTier, at: seq<nat> ::
      NeedsBalancer(compute, groups, at, tier, environment, subnetTier) ==> HasBalancer(lbs, tier, environment, subnetTier)
  }

  ghost predicate HasBalancer(lbs: seq<LoadBalancer>, tier: Tier, environment: Environment, subnetTier: SubnetTier) {
    exists k :: 0 <= k < |lbs| && lbs[k].tier == tier && lbs[k].environment == environment && lbs[k].subnetTier == subnetTier
  }

  /** Where a key's members stand in the plan. */
  ghost predicate MembersStand(at: seq<nat>, compute: seq<ComputePlan>, key: Key) {
    && Sharers(at, compute, key.tier, key.environment, key.subnetTier)
    && |at| == |Members(compute, key)|
    && forall k :: 0 <= k < |at| ==> at[k] < |compute| && compute[at[k]] == Members(compute, key)[k]
  }

  lemma {:induction false} MembersAt(compute: seq<ComputePlan>, key: Key) returns (at: seq<nat>)
    ensures MembersStand(at, compute, key)
  {
    if compute == [] {
      at := [];
    } else {
      var rest := compute[..|compute| - 1];
      var before := MembersAt(rest, key);
      assert compute == rest + [compute[|rest|]];
      MembersStep(rest, compute[|rest|], before, key);
      at := if KeyOf(compute[|rest|]) == key then before + [|rest|] else before;
    }
  }

  lemma MembersStep(compute: seq<ComputePlan>, c: ComputePlan, at: seq<nat>, key: Key)
    requires MembersStand(at, compute, key)
    ensures MembersStand(if KeyOf(c) == key then at + [|compute|] else at, compute + [c], key)
  {
    var more := compute + [c];
    assert more[..|more| - 1] == compute;
    IncreasingStep(at, |compute|);
    forall i: nat | i < |compute| ensures more[i] == compute[i] {
    }
  }

  lemma {:induction false} NamedIsLast(groups: seq<SecurityGroup>, name: string)
    ensures GroupNamed(groups, name).None? ==> forall g :: 0 <= g < |groups| ==> groups[g].name != name
    ensures GroupNamed(groups, name).Some? ==>
      exists g: nat :: LastNamed(groups, g, name) && groups[g] == GroupNamed(groups, name).value
  {
    if groups != [] {
      var rest, last := groups[..|groups| - 1], |groups| - 1;
      NamedIsLast(rest, name);
      if groups[last].name == name {
        assert LastNamed(groups, last, name);
      } else if g: nat :| LastNamed(rest, g, name) && rest[g] == GroupNamed(rest, name).value {
        assert LastNamed(groups, g, name) && groups[g] == rest[g];
      }
    }
  }

  lemma PortsOpen(groups: seq<SecurityGroup>, name: string)
    ensures Opens(groups, name, Ports(groups, name))
    ensures Ports(groups, name) != {} <==> exists g: nat :: LastNamed(groups, g, name) && groups[g].ingress != []
  {
    NamedIsLast(groups, name);
    var sg := GroupNamed(groups, name);
    if sg.Some? {
      var g: nat :| LastNamed(groups, g, name) && groups[g] == sg.value;
      assert forall h: nat :: LastNamed(groups, h, name) ==> h == g;
      if groups[g].ingress != [] {
        assert groups[g].ingress[0].fromPort in Ports(groups, name);
      }
    }
  }

  lemma BalancerServes(compute: seq<ComputePlan>, groups: seq<SecurityGroup>, lb: LoadBalancer) returns (at: seq<nat>)
    requires lb in Balancers(compute, groups, 50)
    ensures Serves(lb, compute, groups, at)
  {
    BalancerExact(compute, groups, lb);
    at := MembersAt(compute, BalancerKey(lb));
    PortsOpen(groups, lb.securityGroup);
  }

  lemma NeededIsThere(
    compute: seq<ComputePlan>, groups: seq<SecurityGroup>, at: seq<nat>,
    tier: Tier, environment: Environment, subnetTier: SubnetTier)
    requires NeedsBalancer(compute, groups, at, tier, environment, subnetTier)
    ensures HasBalancer(Balancers(compute, groups, 50), tier, environment, subnetTier)
  {
    var key := Key(tier, environment, subnetTier);
    var stand := MembersAt(compute, key);
    IncreasingUnique(at, stand);
    PortsOpen(groups, compute[at[0]].securityGroup);
    var lb := BalancerFor(Members(compute, key), groups, key).value;
    BalancerExact(compute, groups, lb);
    var lbs := Balancers(compute, groups, 50);
    var k :| 0 <= k < |lbs| && lbs[k] == lb;
    assert BalancerKey(lb) == key;
  }

  lemma PlacesPrinted(s: Tier, t: Tier, e: Environment, f: Environment)
    ensures TierPlace(s) < TierPlace(t) ==> LexLeq(TierText(s), TierText(t))
    ensures EnvironmentPlace(e) < EnvironmentPlace(f) ==> LexLeq(EnvironmentText(e), EnvironmentText(f))
  {
    if TierPlace(s) < TierPlace(t) {
      assert TierText(s)[0] < TierText(t)[0];
    }
    if EnvironmentPlace(e) < EnvironmentPlace(f) {
      assert EnvironmentText(e)[0] < EnvironmentText(f)[0];
    }
  }

  lemma RanksPrinted(a: LoadBalancer, b: LoadBalancer)
    requires RankOf(BalancerKey(a)) < RankOf(BalancerKey(b))
    ensures PrintedBefore(a, b)
  {
    PlacesPrinted(a.tier, b.tier, a.environment, b.environment);
  }

  lemma {:induction false} BalancersRanked(compute: seq<ComputePlan>, groups: seq<SecurityGroup>, n: nat)
    requires n <= 50
    ensures var lbs := Balancers(compute, groups, n);
      forall j, k :: 0 <= j < k < |lbs| ==> RankOf(BalancerKey(lbs[j])) < RankOf(BalancerKey(lbs[k]))
  {
    if n > 0 {
      BalancersRanked(compute, groups, n - 1);
      RankUnique(n - 1);
      BalancersGrow(compute, groups, n - 1);
      var earlier, lbs := Balancers(compute, groups, n - 1), Balancers(compute, groups, n);
      forall j, k | 0 <= j < k < |lbs| ensures RankOf(BalancerKey(lbs[j])) < RankOf(BalancerKey(lbs[k])) {
        if k == |earlier| {
          assert lbs[j] == earlier[j];
          BalancersBelow(compute, groups, n - 1, earlier[j]);
        } else {
          assert lbs[j] == earlier[j] && lbs[k] == earlier[k];
        }
      }
    }
  }

  lemma AllNeedsMet(compute: seq<ComputePlan>, groups: seq<SecurityGroup>, lbs: seq<LoadBalancer>)
    requires lbs == Balancers(compute, groups, 50)
    ensures NeedsMet(lbs, compute, groups)
  {
    forall tier, environment, subnetTier, at: seq<nat> | NeedsBalancer(compute, groups, at, tier, environment, subnetTier)
      ensures HasBalancer(lbs, tier, environment, subnetTier)
    {
      NeededIsThere(compute, groups, at, tier, environment, subnetTier);
    }
  }

  lemma BalancersServeAll(compute: seq<ComputePlan>, groups: seq<SecurityGroup>, lbs: seq<LoadBalancer>)
    requires lbs == Balancers(compute, groups, 50)
    ensures AllServed(lbs, compute, groups)
  {
    BalancersRanked(compute, groups, 50);
    forall k | 0 <= k < |lbs| ensures ServesSome(lbs[k], compute, groups) {
      var at := BalancerServes(compute, groups, lbs[k]);
    }
    AllNeedsMet(compute, groups, lbs);
    forall j, k | 0 <= j < k < |lbs| ensures PrintedBefore(lbs[j], lbs[k]) {
      RanksPrinted(lbs[j], lbs[k]);
    }
  }

  // ---------- the network ----------

  /** Rules sourced from the target's default range are pointed at the actual one. */
  function RetargetIngress(rules: seq<IngressRule>, defaultCidr: string, actualCidr: string): seq<IngressRule> {
    if actualCidr == defaultCidr then rules
    else
      seq(|rules|, i requires 0 <= i < |rules| =>
        rules[i].(cidrBlocks := Redirected(rules[i].cidrBlocks, defaultCidr, actualCidr)))
  }

  function Redirected(blocks: seq<string>, from: string, to: string): seq<string> {
    seq(|blocks|, i requires 0 <= i < |blocks| => if blocks[i] == from then to else blocks[i])
  }

  function IngressFor(target: Target, name: string): seq<IngressRule> {
    if name in target.defaultIngress then target.defaultIngress[name]
    else if "app-sg" in target.defaultIngress then target.defaultIngress["app-sg"] else []
  }

  function GroupFor(target: Target, vpcCidr: string, name: string): (g: SecurityGroup)
    ensures g.name == name && IsGroup(g, target, vpcCidr)
  {
    Retargeted(IngressFor(target, name), target.vpcCidr, vpcCidr);
    SecurityGroup(name, TerraformSafeName(name), RetargetIngress(IngressFor(target, name), target.vpcCidr, vpcCidr))
  }

  function PublicSubnet(az: nat, cidr: string): Subnet {
    Subnet("public-" + Decimal(az), "public_" + Decimal(az), cidr, Public, az)
  }

  function PrivateSubnet(az: nat, cidr: string): Subnet {
    Subnet("private-" + Decimal(az), "private_" + Decimal(az), cidr, Private, az)
  }

  /** The same rules, with the cloud's own range replaced by the actual one wherever it is a source. */
  ghost predicate PointAt(after: seq<IngressRule>, rules: seq<IngressRule>, own: string, actual: string) {
    && |after| == |rules|
    && forall i :: 0 <= i < |rules| ==>
         && after[i].fromPort == rules[i].fromPort && after[i].toPort == rules[i].toPort
         && |after[i].cidrBlocks| == |rules[i].cidrBlocks|
         && forall b :: 0 <= b < |rules[i].cidrBlocks| ==>
              after[i].cidrBlocks[b] == if rules[i].cidrBlocks[b] == own then actual else rules[i].cidrBlocks[b]
  }

  /** A group has the rules the cloud keeps for its name, or those of its application group, or none. */
  ghost predicate IsGroup(g: SecurityGroup, target: Target, vpcCidr: string) {
    && g.resourceName == TerraformSafeName(g.name)
    && (g.name in target.defaultIngress ==> PointAt(g.ingress, target.defaultIngress[g.name], target.vpcCidr, vpcCidr))
    && (g.name !in target.defaultIngress && "app-sg" in target.defaultIngress ==>
          PointAt(g.ingress, target.defaultIngress["app-sg"], target.vpcCidr, vpcCidr))
    && (g.name !in target.defaultIngress && "app-sg" !in target.defaultIngress ==> g.ingress == [])
  }

  lemma Retargeted(rules: seq<IngressRule>, own: string, actual: string)
    ensures PointAt(RetargetIngress(rules, own, actual), rules, own, actual)
  {
  }

  predicate IsSubnet(s: Subnet, kind: string, tier: SubnetTier, az: nat, cidr: string) {
    && s.name == kind + "-" + Decimal(az) && s.resourceName == kind + "_" + Decimal(az)
    && s.cidr == cidr && s.tier == tier && s.zone == az
  }

  /** A zone's public subnet, and its private one after it. */
  ghost predicate ZonePair(subnets: seq<Subnet>, az: nat, publicCidr: string, privateCidr: string) {
    && 2 * az + 1 < |subnets|
    && IsSubnet(subnets[2 * az], "public", Public, az, publicCidr)
    && IsSubnet(subnets[2 * az + 1], "private", Private, az, privateCidr)
  }

  ghost predicate GroupsFor(compute: seq<ComputePlan>, target: Target, vpcCidr: string, groups: seq<SecurityGroup>) {
    && GroupNames(groups) == UsedGroups(compute)
    && (forall k :: 0 <= k < |groups| ==> IsGroup(groups[k], target, vpcCidr))
    && (forall j, k :: 0 <= j < k < |groups| ==> groups[j].name != groups[k].name && LexLeq(groups[j].name, groups[k].name))
  }

  /** One security group for each one the compute plan refers to, in name order. */
  method PlanGroups(compute: seq<ComputePlan>, target: Target, vpcCidr: string) returns (groups: seq<SecurityGroup>)
    ensures GroupsFor(compute, target, vpcCidr, groups)
  {
    var used := Sorted(UsedGroups(compute));
    groups := MakeGroups(used, target, vpcCidr);
    NamesOfGroups(groups, used);
  }

  lemma NamesOfGroups(groups: seq<SecurityGroup>, names: seq<string>)
    requires |groups| == |names| && forall k :: 0 <= k < |groups| ==> groups[k].name == names[k]
    ensures forall name :: name in GroupNames(groups) <==> name in names
  {
    forall name | name in names ensures name in GroupNames(groups) {
      var k :| 0 <= k < |names| && names[k] == name;
      assert groups[k].name == name;
    }
  }

  function MakeGroups(names: seq<string>, target: Target, vpcCidr: string): (groups: seq<SecurityGroup>)
    ensures |groups| == |names|
    ensures forall k :: 0 <= k < |names| ==> groups[k].name == names[k] && IsGroup(groups[k], target, vpcCidr)
  {
    seq(|names|, k requires 0 <= k < |names| => GroupFor(target, vpcCidr, names[k]))
  }

  ghost predicate NetworkFor(compute: seq<ComputePlan>, target: Target, vpcCidr: string, net: NetworkPlan) {
    var carved := LandingZone.CarveSubnets(vpcCidr, AZ_COUNT);
    && carved.Ok? && |carved.value.0| == |carved.value.1| == AZ_COUNT
    && net.vpcCidr == vpcCidr
    && |net.subnets| == 2 * AZ_COUNT
    && (forall az :: 0 <= az < AZ_COUNT ==> ZonePair(net.subnets, az, carved.value.0[az], carved.value.1[az]))
    && GroupsFor(compute, target, vpcCidr, net.securityGroups)
    && AllServed(net.loadBalancers, compute, net.securityGroups)
    && (net.natGateway <==> exists i :: 0 <= i < |compute| && compute[i].subnetTier == Private)
  }

  lemma PairsAdded(subnets: seq<Subnet>, az: nat, publicCidrs: seq<string>, privateCidrs: seq<string>)
    requires |subnets| == 2 * az && az < |publicCidrs| == |privateCidrs|
    requires forall z :: 0 <= z < az ==> ZonePair(subnets, z, publicCidrs[z], privateCidrs[z])
    ensures var more := subnets + [PublicSubnet(az, publicCidrs[az]), PrivateSubnet(az, privateCidrs[az])];
      forall z :: 0 <= z <= az ==> ZonePair(more, z, publicCidrs[z], privateCidrs[z])
  {
    var more := subnets + [PublicSubnet(az, publicCidrs[az]), PrivateSubnet(az, privateCidrs[az])];
    assert more[2 * az] == PublicSubnet(az, publicCidrs[az]) && more[2 * az + 1] == PrivateSubnet(az, privateCidrs[az]);
    forall z | 0 <= z < az ensures ZonePair(more, z, publicCidrs[z], privateCidrs[z]) {
      assert more[2 * z] == subnets[2 * z] && more[2 * z + 1] == subnets[2 * z + 1];
    }
  }

  method PlanSubnets(publicCidrs: seq<string>, privateCidrs: seq<string>) returns (subnets: seq<Subnet>)
    requires |publicCidrs| == |privateCidrs| == AZ_COUNT
    ensures |subnets| == 2 * AZ_COUNT
    ensures forall az :: 0 <= az < AZ_COUNT ==> ZonePair(subnets, az, publicCidrs[az], privateCidrs[az])
  {
    subnets := [];
    for az := 0 to AZ_COUNT
      invariant |subnets| == 2 * az
      invariant forall z :: 0 <= z < az ==> ZonePair(subnets, z, publicCidrs[z], privateCidrs[z])
    {
      PairsAdded(subnets, az, publicCidrs, privateCidrs);
      subnets := subnets + [PublicSubnet(az, publicCidrs[az]), PrivateSubnet(az, privateCidrs[az])];
    }
  }

  /** `plan_network`, for a landing zone's range or the target's own. */
  method PlanNetwork(compute: seq<ComputePlan>, target: Target, zone: Option<string>)
    returns (r: LandingZone.Result<NetworkPlan>)
    ensures var vpcCidr := if zone.Some? then zone.value else target.vpcCidr;
      && (r.Ok? <==> LandingZone.CarveSubnets(vpcCidr, AZ_COUNT).Ok?)
      && (r.Ok? ==> NetworkFor(compute, target, vpcCidr, r.value))
      && (r.Err? ==> LandingZone.CarveSubnets(vpcCidr, AZ_COUNT) == LandingZone.Err(r.error))
  {
    var vpcCidr := if zone.Some? then zone.value else target.vpcCidr;
    var carved := LandingZone.CarveSubnets(vpcCidr, AZ_COUNT);
    if carved.Err? {
      return LandingZone.Err(carved.error);
    }
    LandingZone.CarvedTexts(vpcCidr, AZ_COUNT);
    var subnets := PlanSubnets(carved.value.0, carved.value.1);
    var groups := PlanGroups(compute, target, vpcCidr);
    var balancers := PlanLoadBalancers(compute, groups);
    var needsPrivate := exists i :: 0 <= i < |compute| && compute[i].subnetTier == Private;
    r := LandingZone.Ok(NetworkPlan(vpcCidr, subnets, groups, balancers, needsPrivate));
  }
}
