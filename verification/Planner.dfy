/**
 Planner against validator: whatever instance types the model suggests, the plan the
 agents assemble (`agents/__init__.py`) passes the validator run after it.
 */
module Planner {
  import opened Options
  import opened Text
  import opened Naming
  import opened Inventory
  import opened Ipv4
  import opened PlanModel
  import opened Rightsizing
  import opened Validators
  import LandingZone
  import Network

  /** Two machines are in security groups of different names and the same label. */
  ghost predicate LabelsClash(compute: seq<ComputePlan>) {
    exists i, j :: 0 <= i < |compute| && 0 <= j < |compute| && Clash(compute[i].securityGroup, compute[j].securityGroup)
  }

  predicate Clash(a: string, b: string) {
    a != b && TerraformSafeName(a) == TerraformSafeName(b)
  }

  /** The compute half of a plan, as `BuildComputePlans` promises it. */
  ghost predicate ComputeFor(vms: seq<NormalizedVM>, advice: Advice, compute: seq<ComputePlan>)
    requires advice.Usable()
  {
    && |compute| == |vms|
    && (forall i :: 0 <= i < |vms| ==> PlanOf(compute[i], vms[i], advice))
    && (forall i :: 0 <= i < |vms| ==> LabelledAfter(compute, i, TerraformSafeName(vms[i].vmName)))
    && (forall i :: 0 <= i < |compute| ==> IsIdentifier(compute[i].resourceName))
    && (forall i, j :: 0 <= i < j < |compute| ==> compute[i].resourceName != compute[j].resourceName)
  }

  lemma NoComputeDefect(vms: seq<NormalizedVM>, advice: Advice, compute: seq<ComputePlan>, x: Issue)
    requires advice.Usable() && ComputeFor(vms, advice, compute)
    ensures !ComputeDefect(compute, advice.target, x)
  {
    if x.DuplicateName? && x.i < |compute| && x.first < x.i {
      assert compute[x.first].resourceName != compute[x.i].resourceName;
    } else if IsComputeIssue(x) && x.i < |compute| {
      assert PlanOf(compute[x.i], vms[x.i], advice);
    }
  }

  /** The four carved ranges, in subnet order: public and private of each zone. */
  function BlockOf(k: nat): nat {
    if k == 0 then 0 else if k == 1 then 2 else if k == 2 then 1 else 3
  }

  ghost predicate FourBlocks(subnets: seq<Subnet>, vpc: Net) {
    |subnets| == 4 && forall k :: 0 <= k < 4 ==> subnets[k].cidr == Format(LandingZone.Block(vpc, BlockOf(k)))
  }

  /** The four subnets as the network stage lists them. */
  lemma PlannedSubnets(compute: seq<ComputePlan>, target: Target, vpcCidr: string, net: PlanModel.NetworkPlan)
    returns (public: seq<string>, private: seq<string>)
    requires Network.NetworkFor(compute, target, vpcCidr, net)
    ensures |public| == 2 && |private| == 2 && LandingZone.CarveSubnets(vpcCidr, 2) == LandingZone.Ok((public, private))
    ensures |net.subnets| == 4
    ensures Network.ZonePair(net.subnets, 0, public[0], private[0])
    ensures Network.ZonePair(net.subnets, 1, public[1], private[1])
  {
    var carved := LandingZone.CarveSubnets(vpcCidr, 2).value;
    public, private := carved.0, carved.1;
  }

  lemma FourCidrs(subnets: seq<Subnet>, public: seq<string>, private: seq<string>, vpc: Net)
    requires |public| == 2 && |private| == 2 && |subnets| == 4
    requires Network.ZonePair(subnets, 0, public[0], private[0]) && Network.ZonePair(subnets, 1, public[1], private[1])
    requires forall i :: 0 <= i < 2 ==> public[i] == Format(LandingZone.Block(vpc, i))
    requires forall i :: 0 <= i < 2 ==> private[i] == Format(LandingZone.Block(vpc, 2 + i))
    ensures FourBlocks(subnets, vpc)
  {
    assert subnets[0].cidr == public[0] && subnets[1].cidr == private[0];
    assert subnets[2].cidr == public[1] && subnets[3].cidr == private[1];
  }

  lemma PlannedRanges(compute: seq<ComputePlan>, target: Target, vpcCidr: string, net: PlanModel.NetworkPlan)
    requires Network.NetworkFor(compute, target, vpcCidr, net)
    ensures ParseNetwork(vpcCidr, true).Some?
    ensures var vpc := ParseNetwork(vpcCidr, true).value;
      && vpc.Valid() && vpc.prefix <= LandingZone.SUBNET_PREFIX
      && 4 <= Pow2(LandingZone.SUBNET_PREFIX - vpc.prefix)
      && Validators.Network(vpcCidr) == Some(vpc)
      && FourBlocks(net.subnets, vpc)
  {
    var public, private := PlannedSubnets(compute, target, vpcCidr, net);
    LandingZone.CarvedTexts(vpcCidr, 2);
    ParsedIsValid(vpcCidr, true);
    FourCidrs(net.subnets, public, private, ParseNetwork(vpcCidr, true).value);
  }

  lemma RangesParse(compute: seq<ComputePlan>, target: Target, vpcCidr: string, net: PlanModel.NetworkPlan, vpc: Net, k: nat)
    requires Network.NetworkFor(compute, target, vpcCidr, net) && k < 4 && ParseNetwork(vpcCidr, true) == Some(vpc)
    ensures |net.subnets| == 4 && vpc.prefix <= 32
    ensures Networks(net.subnets)[k] == Some(LandingZone.Block(vpc, BlockOf(k)))
    ensures LandingZone.Block(vpc, BlockOf(k)).SubnetOf(vpc)
  {
    PlannedRanges(compute, target, vpcCidr, net);
    LandingZone.BlockReadsBack(vpc, BlockOf(k));
  }

  ghost predicate FourInside(nets: seq<Range>, vpc: Net) {
    vpc.Valid() && |nets| == 4 && forall k :: 0 <= k < 4 ==>
      nets[k] == Some(LandingZone.Block(vpc, BlockOf(k))) && LandingZone.Block(vpc, BlockOf(k)).SubnetOf(vpc)
  }

  lemma FourAreSound(nets: seq<Range>, vpc: Net, x: Issue)
    requires FourInside(nets, vpc)
    ensures !SubnetDefect(nets, Some(vpc), x)
  {
    if x.SubnetOverlap? && x.k < x.l < 4 {
      LandingZone.BlocksDisjoint(vpc, BlockOf(x.k), BlockOf(x.l));
    }
  }

  lemma NoSubnetDefect(compute: seq<ComputePlan>, target: Target, vpcCidr: string, net: PlanModel.NetworkPlan, x: Issue)
    requires Network.NetworkFor(compute, target, vpcCidr, net)
    ensures !SubnetDefect(Networks(net.subnets), Validators.Network(net.vpcCidr), x)
  {
    PlannedRanges(compute, target, vpcCidr, net);
    var vpc := ParseNetwork(vpcCidr, true).value;
    forall k | 0 <= k < 4
      ensures Networks(net.subnets)[k] == Some(LandingZone.Block(vpc, BlockOf(k)))
      ensures LandingZone.Block(vpc, BlockOf(k)).SubnetOf(vpc)
    {
      RangesParse(compute, target, vpcCidr, net, vpc, k);
    }
    FourAreSound(Networks(net.subnets), vpc, x);
  }

  lemma NoReferenceDefect(compute: seq<ComputePlan>, target: Target, vpcCidr: string, net: PlanModel.NetworkPlan, x: Issue)
    requires Network.NetworkFor(compute, target, vpcCidr, net)
    ensures !ReferenceDefect(compute, GroupNames(net.securityGroups), SubnetTiers(net.subnets), x)
  {
    var public, private := PlannedSubnets(compute, target, vpcCidr, net);
    assert net.subnets[0].tier in SubnetTiers(net.subnets) && net.subnets[1].tier in SubnetTiers(net.subnets);
    if x.UndefinedGroup? && x.i < |compute| {
      assert compute[x.i].securityGroup in UsedGroups(compute);
    }
  }

  /** A group label repeats exactly when two machines' groups clash. */
  lemma GroupLabelsRepeatIff(compute: seq<ComputePlan>, target: Target, vpcCidr: string, groups: seq<SecurityGroup>)
    requires Network.GroupsFor(compute, target, vpcCidr, groups)
    ensures (exists k: nat :: Repeats(GroupLabels(groups), k)) <==> LabelsClash(compute)
  {
    if k: nat :| Repeats(GroupLabels(groups), k) {
      RepeatIsClash(compute, target, vpcCidr, groups, k);
    }
    if i, j :| 0 <= i < |compute| && 0 <= j < |compute| && Clash(compute[i].securityGroup, compute[j].securityGroup) {
      var k := ClashRepeats(compute, target, vpcCidr, groups, i, j);
    }
  }

  lemma RepeatIsClash(compute: seq<ComputePlan>, target: Target, vpcCidr: string, groups: seq<SecurityGroup>, k: nat)
    requires Network.GroupsFor(compute, target, vpcCidr, groups) && Repeats(GroupLabels(groups), k)
    ensures LabelsClash(compute)
  {
    var labels := GroupLabels(groups);
    var j :| 0 <= j < k && labels[..k][j] == labels[k];
    var a := UserOf(compute, groups, j);
    var b := UserOf(compute, groups, k);
    assert Clash(compute[a].securityGroup, compute[b].securityGroup);
  }

  lemma ClashRepeats(
    compute: seq<ComputePlan>, target: Target, vpcCidr: string, groups: seq<SecurityGroup>, i: nat, j: nat)
    returns (k: nat)
    requires Network.GroupsFor(compute, target, vpcCidr, groups) && i < |compute| && j < |compute|
    requires Clash(compute[i].securityGroup, compute[j].securityGroup)
    ensures Repeats(GroupLabels(groups), k)
  {
    var labels := GroupLabels(groups);
    var a := GroupOf(compute, groups, i);
    var b := GroupOf(compute, groups, j);
    var first := if a < b then a else b;
    k := if a < b then b else a;
    assert labels[..k][first] == labels[k];
  }

  /** A machine in the k-th group. */
  lemma UserOf(compute: seq<ComputePlan>, groups: seq<SecurityGroup>, k: nat) returns (i: nat)
    requires GroupNames(groups) == UsedGroups(compute) && k < |groups|
    ensures i < |compute| && compute[i].securityGroup == groups[k].name
  {
    assert groups[k].name in GroupNames(groups);
    i :| 0 <= i < |compute| && compute[i].securityGroup == groups[k].name;
  }

  /** The group of the i-th machine. */
  lemma GroupOf(compute: seq<ComputePlan>, groups: seq<SecurityGroup>, i: nat) returns (k: nat)
    requires GroupNames(groups) == UsedGroups(compute) && i < |compute|
    ensures k < |groups| && groups[k].name == compute[i].securityGroup
  {
    assert compute[i].securityGroup in UsedGroups(compute);
    k :| 0 <= k < |groups| && groups[k].name == compute[i].securityGroup;
  }

  lemma SubnetsLabelled(compute: seq<ComputePlan>, target: Target, vpcCidr: string, net: PlanModel.NetworkPlan)
    requires Network.NetworkFor(compute, target, vpcCidr, net)
    ensures forall k: nat :: !Repeats(SubnetLabels(net.subnets), k)
  {
    var public, private := PlannedSubnets(compute, target, vpcCidr, net);
    DistinctFour(net.subnets, public, private);
  }

  lemma DistinctFour(subnets: seq<Subnet>, public: seq<string>, private: seq<string>)
    requires |public| == 2 && |private| == 2 && |subnets| == 4
    requires Network.ZonePair(subnets, 0, public[0], private[0]) && Network.ZonePair(subnets, 1, public[1], private[1])
    ensures forall k: nat :: !Repeats(SubnetLabels(subnets), k)
  {
    var labels := SubnetLabels(subnets);
    FourLabels();
    assert labels[0] == "public_0" && labels[1] == "private_0" && labels[2] == "public_1" && labels[3] == "private_1";
    NoRepeats(labels);
  }

  lemma FourLabels()
    ensures "public" + "_" + Decimal(0) == "public_0" && "private" + "_" + Decimal(0) == "private_0"
    ensures "public" + "_" + Decimal(1) == "public_1" && "private" + "_" + Decimal(1) == "private_1"
    ensures "public_0" != "public_1" && "private_0" != "private_1"
    ensures "public_0" != "private_0" && "public_0" != "private_1" && "public_1" != "private_0" && "public_1" != "private_1"
  {
    assert "public_0"[7] != "public_1"[7] && "private_0"[8] != "private_1"[8];
    assert Decimal(0) == "0" && Decimal(1) == "1";
  }

  lemma NoRepeats(labels: seq<string>)
    requires forall j, k :: 0 <= j < k < |labels| ==> labels[j] != labels[k]
    ensures forall k: nat :: !Repeats(labels, k)
  {
  }

  /** An assembled plan can be defective in two ways only: nothing to plan, or a repeated
      group label. */
  lemma PlanDefects(vms: seq<NormalizedVM>, advice: Advice, plan: MigrationPlan, vpcCidr: string, x: Issue)
    requires advice.Usable() && ComputeFor(vms, advice, plan.compute)
    requires Network.NetworkFor(plan.compute, advice.target, vpcCidr, plan.network)
    ensures Defect(plan, advice.target, x) <==>
      (x == NoCompute && vms == [])
      || (x.DuplicateGroupLabel? && Repeats(GroupLabels(plan.network.securityGroups), x.k))
  {
    NoComputeDefect(vms, advice, plan.compute, x);
    NoSubnetDefect(plan.compute, advice.target, vpcCidr, plan.network, x);
    NoReferenceDefect(plan.compute, advice.target, vpcCidr, plan.network, x);
    SubnetsLabelled(plan.compute, advice.target, vpcCidr, plan.network);
  }

  /** The range a plan is carved from: the landing zone's, or the cloud's own. */
  function RangeFor(target: Target, zone: Option<string>): string {
    if zone.Some? then zone.value else target.vpcCidr
  }

  /**
   The plan and validate stages. Planning succeeds exactly in a range of /22 or wider; then,
   whatever instance types are suggested, the validator finds nothing wrong exactly when
   there is something to plan and no two machines' security groups clash.
   */
  method PlanAndValidate(vms: seq<NormalizedVM>, advice: Advice, projectName: string, zone: Option<string>)
    returns (r: LandingZone.Result<(MigrationPlan, seq<Issue>)>)
    requires advice.Usable()
    ensures r.Ok? <==> LandingZone.Readable(RangeFor(advice.target, zone), 22)
    ensures r.Err? && zone.Some? && LandingZone.CheckZone(zone.value).Err? ==>
      r.error == LandingZone.CheckZone(zone.value).error
    ensures r.Err? && !(zone.Some? && LandingZone.CheckZone(zone.value).Err?) ==>
      LandingZone.CarveSubnets(RangeFor(advice.target, zone), 2) == LandingZone.Err(r.error)
    ensures r.Ok? ==> r.value.0.projectName == projectName && ComputeFor(vms, advice, r.value.0.compute)
    ensures r.Ok? ==> Network.NetworkFor(r.value.0.compute, advice.target, RangeFor(advice.target, zone), r.value.0.network)
    ensures r.Ok? ==> (r.value.1 == [] <==> vms != [] && !LabelsClash(r.value.0.compute))
    ensures r.Ok? ==> forall x :: x in r.value.1 ==> x == NoCompute || x.DuplicateGroupLabel?
  {
    var cidr := RangeFor(advice.target, zone);
    LandingZone.CarvableIff(cidr);
    if zone.Some? && LandingZone.CheckZone(zone.value).Err? {
      return LandingZone.Err(LandingZone.CheckZone(zone.value).error);
    }
    var compute := BuildComputePlans(vms, advice);
    var network := Network.PlanNetwork(compute, advice.target, zone);
    if network.Err? {
      return LandingZone.Err(network.error);
    }
    var plan := MigrationPlan(projectName, network.value, compute);
    var issues := ValidatePlan(plan, advice.target);
    SoundIff(vms, advice, plan, cidr, issues);
    r := LandingZone.Ok((plan, issues));
  }

  lemma SoundIff(vms: seq<NormalizedVM>, advice: Advice, plan: MigrationPlan, vpcCidr: string, issues: seq<Issue>)
    requires advice.Usable() && ComputeFor(vms, advice, plan.compute)
    requires Network.NetworkFor(plan.compute, advice.target, vpcCidr, plan.network)
    requires forall x :: x in issues <==> Defect(plan, advice.target, x)
    ensures issues == [] <==> vms != [] && !LabelsClash(plan.compute)
    ensures forall x :: x in issues ==> x == NoCompute || x.DuplicateGroupLabel?
  {
    var groups := plan.network.securityGroups;
    GroupLabelsRepeatIff(plan.compute, advice.target, vpcCidr, groups);
    forall x | x in issues ensures x == NoCompute || x.DuplicateGroupLabel? {
      PlanDefects(vms, advice, plan, vpcCidr, x);
    }
    if vms == [] {
      PlanDefects(vms, advice, plan, vpcCidr, NoCompute);
      assert NoCompute in issues;
    }
    if k: nat :| Repeats(GroupLabels(groups), k) {
      PlanDefects(vms, advice, plan, vpcCidr, DuplicateGroupLabel(k));
      assert DuplicateGroupLabel(k) in issues;
    }
    if issues != [] {
      var x := issues[0];
      assert x in issues;
      PlanDefects(vms, advice, plan, vpcCidr, x);
    }
  }

  /** Where a cloud's group names have distinct labels, no machines clash. */
  lemma DistinctGroupsNeverClash(vms: seq<NormalizedVM>, advice: Advice, compute: seq<ComputePlan>)
    requires advice.Usable() && ComputeFor(vms, advice, compute)
    requires forall a: Tier, b: Tier :: !Clash(advice.target.sgForTier(a), advice.target.sgForTier(b))
    ensures !LabelsClash(compute)
  {
    forall i, j | 0 <= i < |compute| && 0 <= j < |compute|
      ensures !Clash(compute[i].securityGroup, compute[j].securityGroup)
    {
      assert compute[i].securityGroup == advice.target.sgForTier(compute[i].tier);
      assert compute[j].securityGroup == advice.target.sgForTier(compute[j].tier);
    }
  }

  /** The groups "a-b" and "a_b" clash. */
  lemma DashMeetsUnderscore()
    ensures Clash("a-b", "a_b")
  {
    DashIsUnderscored();
    SafeNameFixesExactlyLabels("a_b");
    assert "a-b"[1] != "a_b"[1];
  }

  lemma DashIsUnderscored()
    ensures TerraformSafeName("a-b") == "a_b"
  {
    assert Lower("a-b") == "a-b" by {
      assert "a-b"[1..] == "-b" && "-b"[1..] == "b" && "b"[1..] == "";
    }
    assert Underscored("a-b") == "a_b" by {
      assert "a-b"[1..] == "-b" && "-b"[1..] == "b" && "b"[1..] == "";
    }
    TrimKept("a_b", IsUnderscore);
  }
}
