/** The plan every stage shares (`models.py`) and the cloud it is made for (`targets/base.py`). */
module PlanModel {
  import opened Options

  datatype Tier = Web | App | Database | Cache | Other
  datatype Environment = Production | Staging | Development | Testing | Unknown
  datatype SubnetTier = Public | Private

  datatype ComputePlan = ComputePlan(
    vmName: string, resourceName: string, instanceType: string, rootVolumeGib: int, extraVolumesGib: seq<int>,
    subnetTier: SubnetTier, securityGroup: string, tier: Tier, environment: Environment)

  datatype IngressRule = IngressRule(fromPort: int, toPort: int, cidrBlocks: seq<string>)

  datatype SecurityGroup = SecurityGroup(name: string, resourceName: string, ingress: seq<IngressRule>)

  datatype Subnet = Subnet(name: string, resourceName: string, cidr: string, tier: SubnetTier, zone: nat)

  /** `listeners` are ports; the protocol follows from the port. */
  datatype LoadBalancer = LoadBalancer(
    tier: Tier, environment: Environment, subnetTier: SubnetTier, securityGroup: string, listeners: set<int>, targets: seq<string>)

  datatype NetworkPlan = NetworkPlan(
    vpcCidr: string, subnets: seq<Subnet>, securityGroups: seq<SecurityGroup>,
    loadBalancers: seq<LoadBalancer>, natGateway: bool)

  datatype MigrationPlan = MigrationPlan(projectName: string, network: NetworkPlan, compute: seq<ComputePlan>)

  datatype InstanceSpec = InstanceSpec(name: string, vcpu: int, memoryGib: real, family: string, usdPerHour: real)

  /** What a cloud supplies: a catalog, its default range and ingress, and total tier maps. */
  datatype Target = Target(
    catalog: seq<InstanceSpec>, vpcCidr: string, defaultIngress: map<string, seq<IngressRule>>,
    familyForTier: Tier -> Option<string>, subnetTierForTier: Tier -> SubnetTier, sgForTier: Tier -> string)
  {
    predicate InstanceExists(name: string) {
      exists k :: 0 <= k < |catalog| && catalog[k].name == name
    }
  }

  function GroupNames(groups: seq<SecurityGroup>): set<string> {
    set k | 0 <= k < |groups| :: groups[k].name
  }

  function SubnetTiers(subnets: seq<Subnet>): set<SubnetTier> {
    set k | 0 <= k < |subnets| :: subnets[k].tier
  }

  /** The security groups a compute plan refers to. */
  function UsedGroups(compute: seq<ComputePlan>): set<string> {
    set i | 0 <= i < |compute| :: compute[i].securityGroup
  }
}
