/**
 The plan validator (`validation/validators.py`), proved to report exactly the defects a
 plan has. An issue names plan entries by position where the original prints them.
 */
module Validators {
  import opened Options
  import opened Naming
  import opened Ipv4
  import opened PlanModel
  import opened Lists

  datatype Issue =
    | NoCompute
    | UnknownInstance(i: nat)
    | BadName(i: nat)
    | DuplicateName(first: nat, i: nat)
    | SmallRoot(i: nat)
    | BadVpcCidr
    | BadSubnetCidr(k: nat)
    | OutsideVpc(k: nat)
    | SubnetOverlap(k: nat, l: nat)
    | UndefinedGroup(i: nat)
    | NoSubnetOfTier(i: nat)
    | DuplicateGroupLabel(k: nat)
    | DuplicateSubnetLabel(k: nat)

  function When(condition: bool, x: Issue): seq<Issue> {
    if condition then [x] else []
  }

  // ---------- compute ----------

  /** ^[a-zA-Z_][a-zA-Z0-9_-]*$ under `re.match`, whose `$` also matches before a final newline. */
  predicate MatchesTfName(s: string) {
    IsIdentifier(s) || (s != "" && s[|s| - 1] == '\n' && IsIdentifier(s[..|s| - 1]))
  }

  predicate FirstHolder(labels: seq<string>, first: nat, name: string) {
    first < |labels| && labels[first] == name && forall j :: 0 <= j < first ==> labels[j] != name
  }

  /** What an issue about compute plan x.i means. */
  ghost predicate ComputeDefect(compute: seq<ComputePlan>, target: Target, x: Issue) {
    match x
    case UnknownInstance(i) => i < |compute| && !target.InstanceExists(compute[i].instanceType)
    case BadName(i) => i < |compute| && !MatchesTfName(compute[i].resourceName)
    case DuplicateName(first, i) =>
      i < |compute| && first < i && FirstHolder(ComputeLabels(compute), first, compute[i].resourceName)
    case SmallRoot(i) => i < |compute| && compute[i].rootVolumeGib < 8
    case _ => false
  }

  function ComputeLabels(compute: seq<ComputePlan>): seq<string> {
    seq(|compute|, k requires 0 <= k < |compute| => compute[k].resourceName)
  }

  /** The first of the first n labels equal to this one: what `seen_names` remembers. */
  function FirstIndex(labels: seq<string>, name: string, n: nat): (first: Option<nat>)
    requires n <= |labels|
    ensures first.Some? ==> first.value < n && FirstHolder(labels, first.value, name)
    ensures first.None? ==> forall j :: 0 <= j < n ==> labels[j] != name
  {
    if n == 0 then None
    else
      var earlier := FirstIndex(labels, name, n - 1);
      if earlier.Some? then earlier
      else if labels[n - 1] == name then Some(n - 1) else None
  }

  predicate IsComputeIssue(x: Issue) {
    x.UnknownInstance? || x.BadName? || x.DuplicateName? || x.SmallRoot?
  }

  /** The defects of the first n plans. */
  ghost predicate ComputeDefectBelow(compute: seq<ComputePlan>, target: Target, n: nat, x: Issue) {
    IsComputeIssue(x) && x.i < n && ComputeDefect(compute, target, x)
  }

  /** The issues of one plan, given the earlier holder of its label. */
  method CheckOne(compute: seq<ComputePlan>, target: Target, i: nat, holder: Option<nat>) returns (issues: seq<Issue>)
    requires i < |compute| && holder == FirstIndex(ComputeLabels(compute), compute[i].resourceName, i)
    ensures forall x :: x in issues <==> IsComputeIssue(x) && x.i == i && ComputeDefect(compute, target, x)
  {
    var c := compute[i];
    issues := [];
    if !target.InstanceExists(c.instanceType) {
      issues := issues + [UnknownInstance(i)];
    }
    if !MatchesTfName(c.resourceName) {
      issues := issues + [BadName(i)];
    }
    if holder.Some? {
      issues := issues + [DuplicateName(holder.value, i)];
    }
    if c.rootVolumeGib < 8 {
      issues := issues + [SmallRoot(i)];
    }
  }

  ghost predicate Remembers(seen: map<string, nat>, labels: seq<string>, n: nat)
    requires n <= |labels|
  {
    forall name :: FirstIndex(labels, name, n) == (if name in seen then Some(seen[name]) else None)
  }

  lemma RememberStep(seen: map<string, nat>, labels: seq<string>, n: nat)
    requires n < |labels| && Remembers(seen, labels, n)
    ensures Remembers(if labels[n] in seen then seen else seen[labels[n] := n], labels, n + 1)
  {
  }

  method CheckCompute(compute: seq<ComputePlan>, target: Target) returns (issues: seq<Issue>)
    ensures forall x :: x in issues <==> ComputeDefect(compute, target, x)
  {
    issues := [];
    var seen: map<string, nat> := map[];
    var labels := ComputeLabels(compute);
    for i := 0 to |compute|
      invariant forall x :: x in issues <==> ComputeDefectBelow(compute, target, i, x)
      invariant Remembers(seen, labels, i)
    {
      var holder := if labels[i] in seen then Some(seen[labels[i]]) else None;
      assert FirstIndex(labels, labels[i], i) == holder;
      var found := CheckOne(compute, target, i, holder);
      issues := issues + found;
      RememberStep(seen, labels, i);
      seen := if labels[i] in seen then seen else seen[labels[i] := i];
    }
  }

  // ---------- subnets ----------

  /** A parsed range, or None where the text is not one. */
  type Range = n: Option<Net> | n.Some? ==> n.value.prefix <= 32 witness None

  function Network(cidr: string): Range {
    ParseNetwork(cidr, false)
  }

  function Networks(subnets: seq<Subnet>): (nets: seq<Range>)
    ensures |nets| == |subnets|
    ensures forall k :: 0 <= k < |subnets| ==> nets[k] == Network(subnets[k].cidr)
  {
    seq(|subnets|, k requires 0 <= k < |subnets| => Network(subnets[k].cidr))
  }

  ghost predicate SubnetDefect(nets: seq<Range>, vpc: Range, x: Issue) {
    match x
    case BadVpcCidr => vpc.None?
    case BadSubnetCidr(k) => k < |nets| && nets[k].None?
    case OutsideVpc(k) => k < |nets| && nets[k].Some? && vpc.Some? && !nets[k].value.SubnetOf(vpc.value)
    case SubnetOverlap(k, l) => k < l < |nets| && Meet(nets[k], nets[l])
    case _ => false
  }

  predicate Meet(a: Range, b: Range) {
    a.Some? && b.Some? && a.value.Overlaps(b.value)
  }

  function SubnetIssuesAt(net: Range, vpc: Range, k: nat): seq<Issue> {
    if net.None? then [BadSubnetCidr(k)]
    else When(vpc.Some? && !net.value.SubnetOf(vpc.value), OutsideVpc(k))
  }

  function SubnetIssues(nets: seq<Range>, vpc: Range, n: nat): seq<Issue>
    requires n <= |nets|
  {
    if n == 0 then When(vpc.None?, BadVpcCidr)
    else SubnetIssues(nets, vpc, n - 1) + SubnetIssuesAt(nets[n - 1], vpc, n - 1)
  }

  lemma {:induction false} SubnetIssuesExact(nets: seq<Range>, vpc: Range, n: nat, x: Issue)
    requires n <= |nets|
    ensures x in SubnetIssues(nets, vpc, n) <==>
      SubnetDefect(nets, vpc, x) && (x.BadVpcCidr? || ((x.BadSubnetCidr? || x.OutsideVpc?) && x.k < n))
  {
    if n > 0 {
      SubnetIssuesExact(nets, vpc, n - 1, x);
      InConcat(SubnetIssues(nets, vpc, n - 1), SubnetIssuesAt(nets[n - 1], vpc, n - 1), x);
    }
  }

  /** The positions below n that parse, in order. */
  function Parsed(nets: seq<Range>, n: nat): seq<nat>
    requires n <= |nets|
  {
    if n == 0 then []
    else if nets[n - 1].Some? then Parsed(nets, n - 1) + [n - 1]
    else Parsed(nets, n - 1)
  }

  lemma {:induction false} ParsedExact(nets: seq<Range>, n: nat)
    requires n <= |nets|
    ensures Below(Parsed(nets, n), n)
    ensures forall a, b :: 0 <= a < b < |Parsed(nets, n)| ==> Parsed(nets, n)[a] < Parsed(nets, n)[b]
    ensures forall k: nat :: k in Parsed(nets, n) <==> k < n && nets[k].Some?
  {
    if n > 0 {
      ParsedExact(nets, n - 1);
    }
  }

  predicate Below(positions: seq<nat>, n: nat) {
    forall a :: 0 <= a < |positions| ==> positions[a] < n
  }

  /** Overlaps of the subnet at k with those listed in `later`. */
  function OverlapRow(nets: seq<Range>, k: nat, later: seq<nat>): seq<Issue>
    requires k < |nets| && Below(later, |nets|)
  {
    if later == [] then []
    else
      var l := later[|later| - 1];
      OverlapRow(nets, k, later[..|later| - 1]) + When(Meet(nets[k], nets[l]), SubnetOverlap(k, l))
  }

  function OverlapRows(nets: seq<Range>, parsed: seq<nat>, n: nat): seq<Issue>
    requires n <= |parsed| && Below(parsed, |nets|)
  {
    if n == 0 then []
    else OverlapRows(nets, parsed, n - 1) + OverlapRow(nets, parsed[n - 1], parsed[n..])
  }

  lemma {:induction false} OverlapRowExact(nets: seq<Range>, k: nat, later: seq<nat>, x: Issue)
    requires k < |nets| && Below(later, |nets|)
    ensures x in OverlapRow(nets, k, later) <==> x.SubnetOverlap? && x.k == k && x.l in later && Meet(nets[k], nets[x.l])
  {
    if later != [] {
      var rest, l := later[..|later| - 1], later[|later| - 1];
      assert later == rest + [l];
      OverlapRowExact(nets, k, rest, x);
      InConcat(OverlapRow(nets, k, rest), When(Meet(nets[k], nets[l]), SubnetOverlap(k, l)), x);
    }
  }

  lemma {:induction false} OverlapRowsExact(nets: seq<Range>, parsed: seq<nat>, n: nat, x: Issue)
    requires n <= |parsed| && Below(parsed, |nets|)
    requires forall a, b :: 0 <= a < b < |parsed| ==> parsed[a] < parsed[b]
    ensures x in OverlapRows(nets, parsed, n) <==>
      x.SubnetOverlap? && x.k in parsed[..n] && x.l in parsed && x.k < x.l && Meet(nets[x.k], nets[x.l])
  {
    if n > 0 {
      var k := parsed[n - 1];
      OverlapRowsExact(nets, parsed, n - 1, x);
      OverlapRowExact(nets, k, parsed[n..], x);
      InConcat(OverlapRows(nets, parsed, n - 1), OverlapRow(nets, k, parsed[n..]), x);
      assert parsed[..n] == parsed[..n - 1] + [k];
      LaterIffGreater(parsed, n - 1);
    }
  }

  lemma LaterIffGreater(parsed: seq<nat>, a: nat)
    requires a < |parsed| && forall i, j :: 0 <= i < j < |parsed| ==> parsed[i] < parsed[j]
    ensures forall l :: l in parsed[a + 1..] <==> l in parsed && parsed[a] < l
    ensures parsed[a] !in parsed[..a]
  {
    forall l | l in parsed && parsed[a] < l ensures l in parsed[a + 1..] {
      var b :| 0 <= b < |parsed| && parsed[b] == l;
      assert b > a && parsed[a + 1..][b - a - 1] == l;
    }
  }

  function SubnetReport(nets: seq<Range>, vpc: Range): seq<Issue> {
    ParsedExact(nets, |nets|);
    SubnetIssues(nets, vpc, |nets|) + OverlapRows(nets, Parsed(nets, |nets|), |Parsed(nets, |nets|)|)
  }

  lemma SubnetReportExact(nets: seq<Range>, vpc: Range, x: Issue)
    ensures x in SubnetReport(nets, vpc) <==> SubnetDefect(nets, vpc, x)
  {
    var parsed := Parsed(nets, |nets|);
    ParsedExact(nets, |nets|);
    SubnetIssuesExact(nets, vpc, |nets|, x);
    OverlapRowsExact(nets, parsed, |parsed|, x);
    assert parsed[..|parsed|] == parsed;
    InConcat(SubnetIssues(nets, vpc, |nets|), OverlapRows(nets, parsed, |parsed|), x);
  }

  method CheckSubnets(nets: seq<Range>, vpc: Range) returns (issues: seq<Issue>)
    ensures issues == SubnetReport(nets, vpc)
  {
    var parsed;
    issues, parsed := CheckRanges(nets, vpc);
    ParsedExact(nets, |nets|);
    var overlaps := CheckOverlaps(nets, parsed);
    issues := issues + overlaps;
  }

  /** Each range on its own; the positions of those that parse are kept for the pairs. */
  method CheckRanges(nets: seq<Range>, vpc: Range) returns (issues: seq<Issue>, parsed: seq<nat>)
    ensures issues == SubnetIssues(nets, vpc, |nets|) && parsed == Parsed(nets, |nets|)
  {
    issues, parsed := if vpc.None? then [BadVpcCidr] else [], [];
    for k := 0 to |nets|
      invariant issues == SubnetIssues(nets, vpc, k) && parsed == Parsed(nets, k)
    {
      var found := CheckRange(nets[k], vpc, k);
      issues := issues + found;
      if nets[k].Some? {
        parsed := parsed + [k];
      }
    }
  }

  method CheckRange(net: Range, vpc: Range, k: nat) returns (found: seq<Issue>)
    ensures found == SubnetIssuesAt(net, vpc, k)
  {
    if net.None? {
      return [BadSubnetCidr(k)];
    }
    if vpc.Some? && !net.value.SubnetOf(vpc.value) {
      return [OutsideVpc(k)];
    }
    return [];
  }

  /** All pairs of positions i < j in `parsed`. */
  method CheckOverlaps(nets: seq<Range>, parsed: seq<nat>) returns (issues: seq<Issue>)
    requires Below(parsed, |nets|)
    ensures issues == OverlapRows(nets, parsed, |parsed|)
  {
    issues := [];
    for i := 0 to |parsed|
      invariant issues == OverlapRows(nets, parsed, i)
    {
      var row := CheckRow(nets, parsed[i], parsed[i + 1..]);
      issues := issues + row;
    }
  }

  method CheckRow(nets: seq<Range>, k: nat, later: seq<nat>) returns (row: seq<Issue>)
    requires k < |nets| && Below(later, |nets|)
    ensures row == OverlapRow(nets, k, later)
  {
    row := [];
    for j := 0 to |later|
      invariant row == OverlapRow(nets, k, later[..j])
    {
      assert later[..j + 1][..j] == later[..j];
      if Meet(nets[k], nets[later[j]]) {
        row := row + [SubnetOverlap(k, later[j])];
      }
    }
    assert later[..|later|] == later;
  }

  // ---------- references ----------

  ghost predicate ReferenceDefect(compute: seq<ComputePlan>, groups: set<string>, tiers: set<SubnetTier>, x: Issue) {
    || (x.UndefinedGroup? && x.i < |compute| && compute[x.i].securityGroup !in groups)
    || (x.NoSubnetOfTier? && x.i < |compute| && compute[x.i].subnetTier !in tiers)
  }

  function ReferenceIssuesAt(compute: seq<ComputePlan>, groups: set<string>, tiers: set<SubnetTier>, i: nat): seq<Issue>
    requires i < |compute|
  {
    When(compute[i].securityGroup !in groups, UndefinedGroup(i)) + When(compute[i].subnetTier !in tiers, NoSubnetOfTier(i))
  }

  function ReferenceIssues(compute: seq<ComputePlan>, groups: set<string>, tiers: set<SubnetTier>, n: nat): seq<Issue>
    requires n <= |compute|
  {
    if n == 0 then []
    else ReferenceIssues(compute, groups, tiers, n - 1) + ReferenceIssuesAt(compute, groups, tiers, n - 1)
  }

  lemma ReferenceIssuesAtExact(compute: seq<ComputePlan>, groups: set<string>, tiers: set<SubnetTier>, i: nat, x: Issue)
    requires i < |compute|
    ensures x in ReferenceIssuesAt(compute, groups, tiers, i) <==>
      (x.UndefinedGroup? || x.NoSubnetOfTier?) && x.i == i && ReferenceDefect(compute, groups, tiers, x)
  {
    InConcat(When(compute[i].securityGroup !in groups, UndefinedGroup(i)),
      When(compute[i].subnetTier !in tiers, NoSubnetOfTier(i)), x);
  }

  lemma ReferenceIssuesExact(compute: seq<ComputePlan>, groups: set<string>, tiers: set<SubnetTier>, x: Issue)
    ensures x in ReferenceIssues(compute, groups, tiers, |compute|) <==> ReferenceDefect(compute, groups, tiers, x)
  {
    var parts := seq(|compute|, i requires 0 <= i < |compute| => ReferenceIssuesAt(compute, groups, tiers, i));
    ReferencesFlatten(compute, groups, tiers, parts, |compute|);
    InFlatten(parts, |compute|, x);
    if i :| 0 <= i < |compute| && x in parts[i] {
      ReferenceIssuesAtExact(compute, groups, tiers, i, x);
    }
    if ReferenceDefect(compute, groups, tiers, x) {
      ReferenceIssuesAtExact(compute, groups, tiers, x.i, x);
      assert x in parts[x.i];
    }
  }

  lemma {:induction false} ReferencesFlatten(
    compute: seq<ComputePlan>, groups: set<string>, tiers: set<SubnetTier>, parts: seq<seq<Issue>>, n: nat)
    requires n <= |compute| == |parts|
    requires forall i :: 0 <= i < |compute| ==> parts[i] == ReferenceIssuesAt(compute, groups, tiers, i)
    ensures ReferenceIssues(compute, groups, tiers, n) == Flatten(parts, n)
  {
    if n > 0 {
      ReferencesFlatten(compute, groups, tiers, parts, n - 1);
    }
  }

  method CheckReferences(compute: seq<ComputePlan>, groups: set<string>, tiers: set<SubnetTier>)
    returns (issues: seq<Issue>)
    ensures issues == ReferenceIssues(compute, groups, tiers, |compute|)
  {
    issues := [];
    for i := 0 to |compute|
      invariant issues == ReferenceIssues(compute, groups, tiers, i)
    {
      var found := CheckReference(compute, groups, tiers, i);
      issues := issues + found;
    }
  }

  method CheckReference(compute: seq<ComputePlan>, groups: set<string>, tiers: set<SubnetTier>, i: nat)
    returns (found: seq<Issue>)
    requires i < |compute|
    ensures found == ReferenceIssuesAt(compute, groups, tiers, i)
  {
    found := [];
    if compute[i].securityGroup !in groups {
      found := found + [UndefinedGroup(i)];
    }
    if compute[i].subnetTier !in tiers {
      found := found + [NoSubnetOfTier(i)];
    }
  }

  // ---------- duplicate labels ----------

  predicate Repeats(labels: seq<string>, k: nat) {
    k < |labels| && labels[k] in labels[..k]
  }

  /** The positions whose label occurred before. */
  method FindRepeats(labels: seq<string>) returns (found: seq<nat>)
    ensures forall k: nat :: k in found <==> Repeats(labels, k)
  {
    found := [];
    var seen: set<string> := {};
    for k := 0 to |labels|
      invariant forall j: nat :: j in found <==> j < k && Repeats(labels, j)
      invariant forall x :: x in seen <==> x in labels[..k]
    {
      if labels[k] in seen {
        found := found + [k];
      }
      seen := seen + {labels[k]};
    }
  }

  function GroupLabels(groups: seq<SecurityGroup>): seq<string> {
    seq(|groups|, k requires 0 <= k < |groups| => groups[k].resourceName)
  }

  function SubnetLabels(subnets: seq<Subnet>): seq<string> {
    seq(|subnets|, k requires 0 <= k < |subnets| => subnets[k].resourceName)
  }

  ghost predicate LabelDefect(groups: seq<string>, subnets: seq<string>, x: Issue) {
    (x.DuplicateGroupLabel? && Repeats(groups, x.k)) || (x.DuplicateSubnetLabel? && Repeats(subnets, x.k))
  }

  method CheckLabels(groups: seq<string>, subnets: seq<string>) returns (issues: seq<Issue>)
    ensures forall x :: x in issues <==> LabelDefect(groups, subnets, x)
  {
    var inGroups := FindRepeats(groups);
    var inSubnets := FindRepeats(subnets);
    var a := seq(|inGroups|, k requires 0 <= k < |inGroups| => DuplicateGroupLabel(inGroups[k]));
    var b := seq(|inSubnets|, k requires 0 <= k < |inSubnets| => DuplicateSubnetLabel(inSubnets[k]));
    issues := a + b;
    forall x ensures x in issues <==> LabelDefect(groups, subnets, x) {
      InConcat(a, b, x);
      if x.DuplicateGroupLabel? && x.k in inGroups {
        var j :| 0 <= j < |inGroups| && inGroups[j] == x.k;
        assert a[j] == x;
      }
      if x.DuplicateSubnetLabel? && x.k in inSubnets {
        var j :| 0 <= j < |inSubnets| && inSubnets[j] == x.k;
        assert b[j] == x;
      }
    }
  }

  // ---------- the whole check ----------

  /** What is wrong with a plan. */
  ghost predicate Defect(plan: MigrationPlan, target: Target, x: Issue) {
    var net := plan.network;
    || (x == NoCompute && plan.compute == [])
    || ComputeDefect(plan.compute, target, x)
    || SubnetDefect(Networks(net.subnets), Network(net.vpcCidr), x)
    || ReferenceDefect(plan.compute, GroupNames(net.securityGroups), SubnetTiers(net.subnets), x)
    || LabelDefect(GroupLabels(net.securityGroups), SubnetLabels(net.subnets), x)
  }

  /** `validate_plan` reports an issue exactly when the plan has it. */
  method ValidatePlan(plan: MigrationPlan, target: Target) returns (issues: seq<Issue>)
    ensures forall x :: x in issues <==> Defect(plan, target, x)
  {
    var net := plan.network;
    var nets, vpc := Networks(net.subnets), Network(net.vpcCidr);
    var groups, tiers := GroupNames(net.securityGroups), SubnetTiers(net.subnets);
    var empty := if plan.compute == [] then [NoCompute] else [];
    var compute := CheckCompute(plan.compute, target);
    var subnets := CheckSubnets(nets, vpc);
    var references := CheckReferences(plan.compute, groups, tiers);
    var labels := CheckLabels(GroupLabels(net.securityGroups), SubnetLabels(net.subnets));
    issues := empty + (compute + (subnets + (references + labels)));
    forall x ensures x in issues <==> Defect(plan, target, x) {
      SubnetReportExact(nets, vpc, x);
      ReferenceIssuesExact(plan.compute, groups, tiers, x);
      InFive(empty, compute, subnets, references, labels, x);
    }
  }

  lemma InFive<T>(a: seq<T>, b: seq<T>, c: seq<T>, d: seq<T>, e: seq<T>, x: T)
    ensures x in a + (b + (c + (d + e))) <==> x in a || x in b || x in c || x in d || x in e
  {
    InConcat(d, e, x);
    InConcat(c, d + e, x);
    InConcat(b, c + (d + e), x);
    InConcat(a, b + (c + (d + e)), x);
  }
}
