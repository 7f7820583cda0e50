/**
 Networks that stay behind (`hybrid.py`): private addresses outside the inventory, summarised
 to /24 blocks, and which of those collide with the planned VPC.
 */
module Hybrid {
  import opened Options
  import opened Text
  import opened Sorting
  import opened Tagged
  import opened Ipv4
  import opened Dependencies

  const SUMMARY_PREFIX: nat := 24

  datatype OnPremNetwork = OnPremNetwork(
    cidr: string, addresses: set<string>, ports: set<int>, connections: int, workloads: set<string>, overlapsVpc: bool)

  /** `_summarize`. */
  function Summarize(address: string): Option<string> {
    var net := ParseNetwork(address + "/24", false);
    if net.None? then None else Some(Format(net.value))
  }

  /** `_overlaps`: both texts must parse strictly. */
  predicate Overlap(cidr: string, vpcCidr: string) {
    var a, b := Parsed(cidr), Parsed(vpcCidr);
    a.Some? && b.Some? && a.value.Overlaps(b.value)
  }

  type Range = n: Option<Net> | n.Some? ==> n.value.prefix <= 32 witness None

  function Parsed(cidr: string): Range {
    ParseNetwork(cidr, true)
  }

  // ---------- grouping ----------

  /** The block an external dependency is booked under; public and unreadable ones have none. */
  function BlockOf(e: ExternalDependency): Option<string> {
    if e.isPrivate then Summarize(e.address) else None
  }

  function Blocks(external: seq<ExternalDependency>): seq<Option<string>> {
    seq(|external|, i requires 0 <= i < |external| => BlockOf(external[i]))
  }

  function Amounts(external: seq<ExternalDependency>): seq<int> {
    seq(|external|, i requires 0 <= i < |external| => external[i].connections)
  }

  datatype Site = Site(addresses: set<string>, ports: set<int>, connections: int, workloads: set<string>)

  const EMPTY: Site := Site({}, {}, 0, {})

  function Entry(grouped: map<string, Site>, cidr: string): Site {
    if cidr in grouped then grouped[cidr] else EMPTY
  }

  function Join(s: Site, e: ExternalDependency): Site {
    Site(s.addresses + {e.address}, s.ports + e.ports, s.connections + e.connections, s.workloads + {e.source})
  }

  /** What the first n dependencies say about a block. */
  function SiteOf(external: seq<ExternalDependency>, blocks: seq<Option<string>>, cidr: string, n: nat): Site
    requires n <= |external| == |blocks|
  {
    if n == 0 then EMPTY
    else if blocks[n - 1] == Some(cidr) then Join(SiteOf(external, blocks, cidr, n - 1), external[n - 1])
    else SiteOf(external, blocks, cidr, n - 1)
  }

  /** One of the first n dependencies lies in the block. */
  ghost predicate Observed(blocks: seq<Option<string>>, cidr: string, n: nat)
    requires n <= |blocks|
  {
    exists i :: 0 <= i < n && blocks[i] == Some(cidr)
  }

  ghost predicate GroupedAt(
    grouped: map<string, Site>, external: seq<ExternalDependency>, blocks: seq<Option<string>>, cidr: string, n: nat)
    requires n <= |external| == |blocks|
  {
    && (cidr in grouped <==> Observed(blocks, cidr, n))
    && Entry(grouped, cidr) == SiteOf(external, blocks, cidr, n)
  }

  ghost predicate Grouped(
    grouped: map<string, Site>, external: seq<ExternalDependency>, blocks: seq<Option<string>>, n: nat)
    requires n <= |external| == |blocks|
  {
    forall cidr :: GroupedAt(grouped, external, blocks, cidr, n)
  }

  function Book(grouped: map<string, Site>, block: Option<string>, e: ExternalDependency): map<string, Site> {
    if block.None? then grouped else grouped[block.value := Join(Entry(grouped, block.value), e)]
  }

  lemma GroupStep(grouped: map<string, Site>, external: seq<ExternalDependency>, blocks: seq<Option<string>>, n: nat)
    requires n < |external| == |blocks| && Grouped(grouped, external, blocks, n)
    ensures Grouped(Book(grouped, blocks[n], external[n]), external, blocks, n + 1)
  {
    var after, next := Book(grouped, blocks[n], external[n]), n + 1;
    forall cidr ensures GroupedAt(after, external, blocks, cidr, next) {
      assert GroupedAt(grouped, external, blocks, cidr, n);
      if blocks[n] == Some(cidr) {
        assert Observed(blocks, cidr, next);
      } else if Observed(blocks, cidr, next) {
        var i :| 0 <= i < next && blocks[i] == Some(cidr);
        assert i < n;
      }
    }
  }

  method GroupBlocks(external: seq<ExternalDependency>) returns (grouped: map<string, Site>)
    ensures Grouped(grouped, external, Blocks(external), |external|)
  {
    grouped := map[];
    ghost var blocks := Blocks(external);
    for n := 0 to |external|
      invariant Grouped(grouped, external, blocks, n)
    {
      GroupStep(grouped, external, blocks, n);
      if external[n].isPrivate {
        var cidr := Summarize(external[n].address);
        if cidr.Some? {
          grouped := grouped[cidr.value := Join(Entry(grouped, cidr.value), external[n])];
        }
      }
    }
  }

  /** One of the first n declared ranges reads as this block. */
  ghost predicate Declared(declared: seq<string>, cidr: string, n: nat)
    requires n <= |declared|
  {
    exists i :: 0 <= i < n && Parsed(declared[i]).Some? && Format(Parsed(declared[i]).value) == cidr
  }

  /** Declared ranges come in as they are; one already observed keeps what was seen. */
  method AddDeclared(observed: map<string, Site>, declared: seq<string>) returns (grouped: map<string, Site>)
    ensures forall cidr :: cidr in grouped <==> cidr in observed || Declared(declared, cidr, |declared|)
    ensures forall cidr :: Entry(grouped, cidr) == Entry(observed, cidr)
  {
    grouped := observed;
    for n := 0 to |declared|
      invariant forall cidr :: cidr in grouped <==> cidr in observed || Declared(declared, cidr, n)
      invariant forall cidr :: Entry(grouped, cidr) == Entry(observed, cidr)
    {
      var next := n + 1;
      var net := Parsed(declared[n]);
      forall cidr ensures Declared(declared, cidr, next) <==>
        Declared(declared, cidr, n) || (net.Some? && Format(net.value) == cidr)
      {
        DeclaredStep(declared, cidr, n);
      }
      if net.Some? && Format(net.value) !in grouped {
        grouped := grouped[Format(net.value) := EMPTY];
      }
    }
  }

  lemma DeclaredStep(declared: seq<string>, cidr: string, n: nat)
    requires n < |declared|
    ensures Declared(declared, cidr, n + 1) <==>
      Declared(declared, cidr, n) || (Parsed(declared[n]).Some? && Format(Parsed(declared[n]).value) == cidr)
  {
    if Declared(declared, cidr, n + 1) && !Declared(declared, cidr, n) {
      var i :| 0 <= i < n + 1 && Parsed(declared[i]).Some? && Format(Parsed(declared[i]).value) == cidr;
      assert i == n;
    }
  }

  // ---------- the plan ----------

  function NetworkFor(cidr: string, s: Site, vpcCidr: string): OnPremNetwork {
    OnPremNetwork(cidr, s.addresses, s.ports, s.connections, s.workloads, Overlap(cidr, vpcCidr))
  }

  /** Most connections first, then by text. */
  predicate BusierLeq(a: OnPremNetwork, b: OnPremNetwork) {
    a.connections > b.connections || (a.connections == b.connections && LexLeq(a.cidr, b.cidr))
  }

  lemma BusierOrder()
    ensures TotalOrder(BusierLeq)
  {
    forall a: OnPremNetwork, b: OnPremNetwork ensures BusierLeq(a, b) || BusierLeq(b, a) {
      LexTotal(a.cidr, b.cidr);
    }
    forall a: OnPremNetwork, b: OnPremNetwork, c: OnPremNetwork | BusierLeq(a, b) && BusierLeq(b, c)
      ensures BusierLeq(a, c)
    {
      if a.connections == b.connections == c.connections {
        LexTransitive(a.cidr, b.cidr, c.cidr);
      }
    }
  }

  function Cidrs(networks: seq<OnPremNetwork>): seq<string> {
    seq(|networks|, k requires 0 <= k < |networks| => networks[k].cidr)
  }

  /** Each observed or declared block once, with all that was seen in it. */
  ghost predicate Networks(
    networks: seq<OnPremNetwork>, external: seq<ExternalDependency>, blocks: seq<Option<string>>, declared: seq<string>,
    vpcCidr: string)
    requires |blocks| == |external|
  {
    && NoDuplicates(Cidrs(networks))
    && (forall cidr :: cidr in Cidrs(networks) <==> Listed(blocks, declared, cidr))
    && (forall k :: 0 <= k < |networks| ==> HoldsAll(networks[k], external, blocks, vpcCidr))
  }

  ghost predicate Listed(blocks: seq<Option<string>>, declared: seq<string>, cidr: string) {
    Observed(blocks, cidr, |blocks|) || Declared(declared, cidr, |declared|)
  }

  ghost predicate HoldsAll(
    n: OnPremNetwork, external: seq<ExternalDependency>, blocks: seq<Option<string>>, vpcCidr: string)
    requires |blocks| == |external|
  {
    n == NetworkFor(n.cidr, SiteOf(external, blocks, n.cidr, |external|), vpcCidr)
  }

  method MakeNetworks(grouped: map<string, Site>, vpcCidr: string) returns (networks: seq<OnPremNetwork>)
    ensures NoDuplicates(Cidrs(networks)) && forall cidr :: cidr in Cidrs(networks) <==> cidr in grouped
    ensures forall k :: 0 <= k < |networks| ==>
      networks[k] == NetworkFor(networks[k].cidr, Entry(grouped, networks[k].cidr), vpcCidr)
    ensures Ordered(networks, BusierLeq)
  {
    var cidrs := Enumerate(grouped.Keys);
    var unsorted := seq(|cidrs|, k requires 0 <= k < |cidrs| => NetworkFor(cidrs[k], Entry(grouped, cidrs[k]), vpcCidr));
    networks := SortBy(unsorted, BusierLeq);
    BusierOrder();
    SortSorts(unsorted, BusierLeq);
    assert Cidrs(unsorted) == cidrs;
    SameNetworks(unsorted, networks);
    PermutedMembers(unsorted, networks);
    forall k | 0 <= k < |networks|
      ensures networks[k] == NetworkFor(networks[k].cidr, Entry(grouped, networks[k].cidr), vpcCidr)
    {
      assert networks[k] in unsorted;
    }
  }

  /** `plan_hybrid`. */
  method PlanHybrid(external: seq<ExternalDependency>, vpcCidr: string, declared: seq<string>)
    returns (networks: seq<OnPremNetwork>)
    ensures Networks(networks, external, Blocks(external), declared, vpcCidr)
    ensures forall k :: 0 <= k < |networks| ==> Gathers(networks[k], external, vpcCidr)
    ensures Ordered(networks, BusierLeq)
  {
    var observed := GroupBlocks(external);
    var grouped := AddDeclared(observed, declared);
    networks := MakeNetworks(grouped, vpcCidr);
    GroupingExact(networks, observed, grouped, external, Blocks(external), declared, vpcCidr);
    forall k | 0 <= k < |networks| ensures Gathers(networks[k], external, vpcCidr) {
      NetworkGathers(networks[k], external, vpcCidr);
    }
  }

  lemma GroupingExact(
    networks: seq<OnPremNetwork>, observed: map<string, Site>, grouped: map<string, Site>,
    external: seq<ExternalDependency>, blocks: seq<Option<string>>, declared: seq<string>, vpcCidr: string)
    requires |blocks| == |external| && Grouped(observed, external, blocks, |external|)
    requires forall cidr :: cidr in grouped <==> cidr in observed || Declared(declared, cidr, |declared|)
    requires forall cidr :: Entry(grouped, cidr) == Entry(observed, cidr)
    requires NoDuplicates(Cidrs(networks)) && forall cidr :: cidr in Cidrs(networks) <==> cidr in grouped
    requires forall k :: 0 <= k < |networks| ==>
      networks[k] == NetworkFor(networks[k].cidr, Entry(grouped, networks[k].cidr), vpcCidr)
    ensures Networks(networks, external, blocks, declared, vpcCidr)
  {
    forall cidr ensures cidr in Cidrs(networks) <==> Listed(blocks, declared, cidr) {
      assert GroupedAt(observed, external, blocks, cidr, |external|);
    }
    forall k | 0 <= k < |networks| ensures HoldsAll(networks[k], external, blocks, vpcCidr) {
      assert GroupedAt(observed, external, blocks, networks[k].cidr, |external|);
    }
  }

  /** Rearranging networks keeps which blocks they are for, each once. */
  lemma SameNetworks(a: seq<OnPremNetwork>, b: seq<OnPremNetwork>)
    requires multiset(a) == multiset(b) && NoDuplicates(Cidrs(a))
    ensures NoDuplicates(Cidrs(b)) && forall cidr :: cidr in Cidrs(b) <==> cidr in Cidrs(a)
  {
    PermutedMembers(a, b);
    assert NoDuplicates(a) by {
      forall i, j | 0 <= i < j < |a| ensures a[i] != a[j] {
        assert Cidrs(a)[i] != Cidrs(a)[j];
      }
    }
    PermutedDistinct(a, b);
    forall i, j | 0 <= i < j < |b| ensures Cidrs(b)[i] != Cidrs(b)[j] {
      assert b[i] in a && b[j] in a && b[i] != b[j];
      var k :| 0 <= k < |a| && a[k] == b[i];
      var l :| 0 <= l < |a| && a[l] == b[j];
      assert Cidrs(a)[k] != Cidrs(a)[l];
    }
    forall cidr ensures cidr in Cidrs(b) <==> cidr in Cidrs(a) {
      SameCidr(a, b, cidr);
      SameCidr(b, a, cidr);
    }
  }

  lemma SameCidr(a: seq<OnPremNetwork>, b: seq<OnPremNetwork>, cidr: string)
    requires forall x :: x in a ==> x in b
    ensures cidr in Cidrs(a) ==> cidr in Cidrs(b)
  {
    if cidr in Cidrs(a) {
      var k :| 0 <= k < |a| && Cidrs(a)[k] == cidr;
      assert a[k] in b;
      var l :| 0 <= l < |b| && b[l] == a[k];
      assert Cidrs(b)[l] == cidr;
    }
  }

  // ---------- what a network has seen ----------

  /** A private address that reads as one of this block. */
  predicate InBlock(e: ExternalDependency, cidr: string) {
    e.isPrivate && Summarize(e.address) == Some(cidr)
  }

  ghost function ConnectionsInto(external: seq<ExternalDependency>, such: ExternalDependency -> bool, n: nat): int
    requires n <= |external|
  {
    if n == 0 then 0
    else ConnectionsInto(external, such, n - 1) + if such(external[n - 1]) then external[n - 1].connections else 0
  }

  ghost predicate AddressSeen(external: seq<ExternalDependency>, such: ExternalDependency -> bool, address: string, n: nat)
    requires n <= |external|
  {
    exists i :: 0 <= i < n && such(external[i]) && external[i].address == address
  }

  ghost predicate PortSeen(external: seq<ExternalDependency>, such: ExternalDependency -> bool, port: int, n: nat)
    requires n <= |external|
  {
    exists i :: 0 <= i < n && such(external[i]) && port in external[i].ports
  }

  ghost predicate CallerSeen(external: seq<ExternalDependency>, such: ExternalDependency -> bool, caller: string, n: nat)
    requires n <= |external|
  {
    exists i :: 0 <= i < n && such(external[i]) && external[i].source == caller
  }

  /** Of such dependencies among the first n: every address, port and caller, and the connections. */
  ghost predicate Gathered(s: Site, external: seq<ExternalDependency>, such: ExternalDependency -> bool, n: nat)
    requires n <= |external|
  {
    && (forall a :: a in s.addresses <==> AddressSeen(external, such, a, n))
    && (forall p :: p in s.ports <==> PortSeen(external, such, p, n))
    && (forall w :: w in s.workloads <==> CallerSeen(external, such, w, n))
    && s.connections == ConnectionsInto(external, such, n)
  }

  /** Both texts are ranges without host bits, and some address is in both. */
  ghost predicate Collide(cidr: string, vpcCidr: string) {
    exists x: nat :: InRange(cidr, x) && InRange(vpcCidr, x)
  }

  predicate InRange(cidr: string, x: nat) {
    ParseNetwork(cidr, true).Some? && ParseNetwork(cidr, true).value.Contains(x)
  }

  /** All that was seen in its block, and whether the block and the VPC collide. */
  ghost predicate Gathers(n: OnPremNetwork, external: seq<ExternalDependency>, vpcCidr: string) {
    && Gathered(Site(n.addresses, n.ports, n.connections, n.workloads), external, e => InBlock(e, n.cidr), |external|)
    && (n.overlapsVpc <==> Collide(n.cidr, vpcCidr))
  }

  lemma AddressStep(external: seq<ExternalDependency>, such: ExternalDependency -> bool, address: string, n: nat)
    requires n < |external|
    ensures AddressSeen(external, such, address, n + 1) <==>
      AddressSeen(external, such, address, n) || (such(external[n]) && external[n].address == address)
  {
    if i :| 0 <= i < n + 1 && such(external[i]) && external[i].address == address {
      assert i < n ==> AddressSeen(external, such, address, n);
    }
    if such(external[n]) && external[n].address == address {
      assert AddressSeen(external, such, address, n + 1);
    }
  }

  lemma PortStep(external: seq<ExternalDependency>, such: ExternalDependency -> bool, port: int, n: nat)
    requires n < |external|
    ensures PortSeen(external, such, port, n + 1) <==>
      PortSeen(external, such, port, n) || (such(external[n]) && port in external[n].ports)
  {
    if i :| 0 <= i < n + 1 && such(external[i]) && port in external[i].ports {
      assert i < n ==> PortSeen(external, such, port, n);
    }
    if such(external[n]) && port in external[n].ports {
      assert PortSeen(external, such, port, n + 1);
    }
  }

  lemma CallerStep(external: seq<ExternalDependency>, such: ExternalDependency -> bool, caller: string, n: nat)
    requires n < |external|
    ensures CallerSeen(external, such, caller, n + 1) <==>
      CallerSeen(external, such, caller, n) || (such(external[n]) && external[n].source == caller)
  {
    if i :| 0 <= i < n + 1 && such(external[i]) && external[i].source == caller {
      assert i < n ==> CallerSeen(external, such, caller, n);
    }
    if such(external[n]) && external[n].source == caller {
      assert CallerSeen(external, such, caller, n + 1);
    }
  }

  lemma JoinGathers(s: Site, external: seq<ExternalDependency>, such: ExternalDependency -> bool, n: nat)
    requires n < |external| && Gathered(s, external, such, n)
    ensures Gathered(if such(external[n]) then Join(s, external[n]) else s, external, such, n + 1)
  {
    var joined, next := if such(external[n]) then Join(s, external[n]) else s, n + 1;
    forall a ensures a in joined.addresses <==> AddressSeen(external, such, a, next) {
      AddressStep(external, such, a, n);
    }
    forall p ensures p in joined.ports <==> PortSeen(external, such, p, next) {
      PortStep(external, such, p, n);
    }
    forall w ensures w in joined.workloads <==> CallerSeen(external, such, w, next) {
      CallerStep(external, such, w, n);
    }
  }

  lemma {:induction false} SiteGathers(
    external: seq<ExternalDependency>, blocks: seq<Option<string>>, cidr: string, such: ExternalDependency -> bool, n: nat)
    requires n <= |external| == |blocks|
    requires forall i :: 0 <= i < |external| ==> (such(external[i]) <==> blocks[i] == Some(cidr))
    ensures Gathered(SiteOf(external, blocks, cidr, n), external, such, n)
  {
    if n > 0 {
      SiteGathers(external, blocks, cidr, such, n - 1);
      JoinGathers(SiteOf(external, blocks, cidr, n - 1), external, such, n - 1);
    }
  }

  lemma CollideIff(cidr: string, vpcCidr: string)
    ensures Overlap(cidr, vpcCidr) <==> Collide(cidr, vpcCidr)
  {
    if Parsed(cidr).Some? && Parsed(vpcCidr).Some? {
      var a, b := Parsed(cidr).value, Parsed(vpcCidr).value;
      OverlapsIffShared(a, b);
      assert forall x: nat :: InRange(cidr, x) && InRange(vpcCidr, x) <==> a.Contains(x) && b.Contains(x);
    }
  }

  lemma NetworkGathers(n: OnPremNetwork, external: seq<ExternalDependency>, vpcCidr: string)
    requires HoldsAll(n, external, Blocks(external), vpcCidr)
    ensures Gathers(n, external, vpcCidr)
  {
    SiteGathers(external, Blocks(external), n.cidr, e => InBlock(e, n.cidr), |external|);
    CollideIff(n.cidr, vpcCidr);
  }

  // ---------- nothing is lost ----------

  lemma {:induction false} SiteAddresses(
    external: seq<ExternalDependency>, blocks: seq<Option<string>>, cidr: string, n: nat, address: string)
    requires n <= |external| == |blocks|
    ensures address in SiteOf(external, blocks, cidr, n).addresses <==>
      exists i :: 0 <= i < n && blocks[i] == Some(cidr) && external[i].address == address
  {
    if n > 0 {
      SiteAddresses(external, blocks, cidr, n - 1, address);
    }
  }

  lemma {:induction false} SiteConnections(
    external: seq<ExternalDependency>, blocks: seq<Option<string>>, cidr: string, n: nat)
    requires n <= |external| == |blocks|
    ensures SiteOf(external, blocks, cidr, n).connections == SumOf(blocks, Amounts(external), cidr, n)
  {
    if n > 0 {
      SiteConnections(external, blocks, cidr, n - 1);
    }
  }

  /** The k-th network, and no other, holds the address. */
  ghost predicate OnlyIn(networks: seq<OnPremNetwork>, address: string, k: nat) {
    k < |networks| && forall l :: 0 <= l < |networks| ==> (address in networks[l].addresses <==> l == k)
  }

  /** Every private, readable address is in one network of the plan and no other. */
  lemma AllInOneNetwork(
    networks: seq<OnPremNetwork>, external: seq<ExternalDependency>, declared: seq<string>, vpcCidr: string)
    requires Networks(networks, external, Blocks(external), declared, vpcCidr)
    ensures forall i :: 0 <= i < |external| && BlockOf(external[i]).Some? ==>
      exists k: nat :: OnlyIn(networks, external[i].address, k)
  {
    forall i | 0 <= i < |external| && BlockOf(external[i]).Some?
      ensures exists k: nat :: OnlyIn(networks, external[i].address, k)
    {
      var k := InOneNetwork(networks, external, declared, vpcCidr, i);
      assert OnlyIn(networks, external[i].address, k);
    }
  }

  lemma InOneNetwork(
    networks: seq<OnPremNetwork>, external: seq<ExternalDependency>, declared: seq<string>, vpcCidr: string, i: nat)
    returns (k: nat)
    requires Networks(networks, external, Blocks(external), declared, vpcCidr)
    requires i < |external| && BlockOf(external[i]).Some?
    ensures k < |networks| && BlockOf(external[i]) == Some(networks[k].cidr)
    ensures forall l :: 0 <= l < |networks| ==> (external[i].address in networks[l].addresses <==> l == k)
  {
    var blocks := Blocks(external);
    assert blocks[i] == BlockOf(external[i]);
    assert Listed(blocks, declared, blocks[i].value);
    k :| 0 <= k < |networks| && Cidrs(networks)[k] == blocks[i].value;
    SameAddressSameBlock(external, external[i].address);
    forall l | 0 <= l < |networks| ensures external[i].address in networks[l].addresses <==> l == k {
      SiteAddresses(external, blocks, networks[l].cidr, |external|, external[i].address);
      assert HoldsAll(networks[l], external, blocks, vpcCidr);
      assert Cidrs(networks)[l] == networks[l].cidr;
      assert l < k ==> Cidrs(networks)[l] != Cidrs(networks)[k];
      assert k < l ==> Cidrs(networks)[k] != Cidrs(networks)[l];
    }
  }

  lemma SameAddressSameBlock(external: seq<ExternalDependency>, address: string)
    ensures forall i, j :: 0 <= i < |external| && 0 <= j < |external| ==>
      (external[i].address == address && external[j].address == address ==>
        (Blocks(external)[i].Some? && Blocks(external)[j].Some? ==> Blocks(external)[i] == Blocks(external)[j]))
  {
  }

  function TotalConnections(networks: seq<OnPremNetwork>): int {
    if networks == [] then 0
    else TotalConnections(networks[..|networks| - 1]) + networks[|networks| - 1].connections
  }

  lemma {:induction false} TotalByKeys(
    networks: seq<OnPremNetwork>, external: seq<ExternalDependency>, blocks: seq<Option<string>>)
    requires |blocks| == |external|
    requires forall k :: 0 <= k < |networks| ==>
      networks[k].connections == SiteOf(external, blocks, networks[k].cidr, |external|).connections
    ensures TotalConnections(networks) == SumKeys(Cidrs(networks), blocks, Amounts(external), |external|)
  {
    if networks != [] {
      var rest := networks[..|networks| - 1];
      TotalByKeys(rest, external, blocks);
      assert Cidrs(networks)[..|networks| - 1] == Cidrs(rest);
      SiteConnections(external, blocks, networks[|networks| - 1].cidr, |external|);
    }
  }

  /** The networks carry exactly the connections of the private, readable addresses. */
  lemma ConnectionsConserved(
    networks: seq<OnPremNetwork>, external: seq<ExternalDependency>, blocks: seq<Option<string>>, declared: seq<string>,
    vpcCidr: string)
    requires |blocks| == |external| && Networks(networks, external, blocks, declared, vpcCidr)
    ensures TotalConnections(networks) == SumAll(blocks, Amounts(external), |external|)
  {
    forall k | 0 <= k < |networks|
      ensures networks[k].connections == SiteOf(external, blocks, networks[k].cidr, |external|).connections
    {
      assert HoldsAll(networks[k], external, blocks, vpcCidr);
    }
    TotalByKeys(networks, external, blocks);
    forall i | 0 <= i < |external| && blocks[i].Some? ensures blocks[i].value in Cidrs(networks) {
      assert Listed(blocks, declared, blocks[i].value);
    }
    Conserved(Cidrs(networks), blocks, Amounts(external), |external|);
  }

  // ---------- conflicts ----------

  /** The block an address is summarised to. */
  function Block(address: nat): Net {
    Net(Masked(address, SUMMARY_PREFIX), SUMMARY_PREFIX)
  }

  lemma Octet()
    ensures Decimal(24) == "24" && ParsePrefix("24") == Some(24)
  {
    assert Decimal(24) == Decimal(2) + "4";
    DecimalRoundTrip(24);
  }

  /** The text is that address, in dotted decimal. */
  predicate Names(text: string, a: nat) {
    '/' !in text && ParseAddress(text) == Some(a)
  }

  predicate WideEnough(vpcCidr: string) {
    Parsed(vpcCidr).Some? && Parsed(vpcCidr).value.prefix <= SUMMARY_PREFIX
  }

  /** What the summary of an address reads back as. */
  lemma SummaryReadsBack(text: string, a: nat)
    requires Names(text, a)
    ensures Summarize(text) == Some(Format(Block(a)))
    ensures Block(a).Valid() && Block(a).Contains(a) && Parsed(Format(Block(a))) == Some(Block(a))
  {
    Octet();
    ParsedAddressRange(text);
    SplitFirst("24", '/', "");
    SplitFirst(text, '/', "24");
    assert text + "/24" == text + (['/'] + "24");
    NetworkRoundTrip(Block(a), true);
  }

  /** For a VPC no narrower than the summary, a block is flagged exactly when its addresses are in the VPC. */
  lemma FlaggedIffInside(text: string, a: nat, vpcCidr: string)
    requires Names(text, a) && WideEnough(vpcCidr)
    ensures Summarize(text).Some? && (Overlap(Summarize(text).value, vpcCidr) <==> Parsed(vpcCidr).value.Contains(a))
  {
    var v := Parsed(vpcCidr).value;
    SummaryReadsBack(text, a);
    ParsedIsValid(vpcCidr, true);
    NestedOrDisjoint(Block(a), v);
    OverlapsIffShared(Block(a), v);
    SubnetOfIffIncluded(Block(a), v);
  }

  /** In a narrower VPC some address of its own /24 lies outside it and is flagged all the same. */
  lemma NarrowVpcFlagsStrangers(v: Net) returns (a: nat)
    requires v.Valid() && v.prefix > SUMMARY_PREFIX
    ensures a < SPACE && !v.Contains(a) && Block(a).Overlaps(v)
  {
    var b := Block(v.base);
    Sizes(v.prefix);
    BlocksEnd(v.base);
    a := if b.base == v.base then b.base + 255 else b.base;
    SameBlock(v.base, a);
    OverlapsIffShared(Block(a), v);
    assert Block(a).Contains(v.base) && v.Contains(v.base);
  }

  lemma Sizes(prefix: nat)
    requires 24 < prefix <= 32
    ensures Size(24) == 256 && 0 < Size(prefix) <= 128
  {
    assert Pow2(1) == 2 && Pow2(2) == 4 && Pow2(3) == 8 && Pow2(4) == 16;
    assert Pow2(5) == 32 && Pow2(6) == 64 && Pow2(7) == 128 && Pow2(8) == 256;
    assert 32 - prefix in {0, 1, 2, 3, 4, 5, 6, 7};
  }

  lemma BlocksEnd(a: nat)
    requires a < SPACE && Size(24) == 256
    ensures Masked(a, 24) + 255 < SPACE
  {
    assert Masked(a, 24) % 256 == 0;
  }

  lemma SameBlock(a: nat, b: nat)
    requires Size(24) == 256 && Masked(a, 24) <= b < Masked(a, 24) + 256
    ensures Block(b) == Block(a)
  {
    assert Masked(a, 24) % 256 == 0 && Masked(b, 24) % 256 == 0;
  }

  /** The text a caller passes for a VPC is one the flag is right about, for every address. */
  ghost predicate FlagIsRight(vpcCidr: string, v: Net)
    requires v.prefix <= 32
  {
    forall a: nat :: a < SPACE ==> (Overlap(Format(Block(a)), vpcCidr) <==> v.Contains(a))
  }

  /**
   The flag is right for every address exactly when the VPC text has no host bits (else it
   never flags) and the VPC is no narrower than the summary (else it flags strangers).
   */
  lemma FlagIsRightIff(vpcCidr: string, v: Net)
    requires ParseNetwork(vpcCidr, false) == Some(v) && v.prefix <= 32
    ensures FlagIsRight(vpcCidr, v) <==> Parsed(vpcCidr).Some? && v.prefix <= SUMMARY_PREFIX
  {
    ParsedIsValid(vpcCidr, false);
    if Parsed(vpcCidr).None? {
      assert !Overlap(Format(Block(v.base)), vpcCidr) && v.Contains(v.base);
    } else if v.prefix > SUMMARY_PREFIX {
      var a := NarrowVpcFlagsStrangers(v);
      AddressRoundTrip(a);
      SummaryReadsBack(FormatAddress(a), a);
      assert Overlap(Format(Block(a)), vpcCidr);
    } else {
      forall a: nat | a < SPACE ensures Overlap(Format(Block(a)), vpcCidr) <==> v.Contains(a) {
        AddressRoundTrip(a);
        SummaryReadsBack(FormatAddress(a), a);
        FlaggedIffInside(FormatAddress(a), a, vpcCidr);
      }
    }
  }

  // ---------- the flags of a plan ----------

  /** Only a plain address is summarised. */
  lemma SummarizedIsAddress(text: string)
    requires Summarize(text).Some?
    ensures exists a :: Names(text, a)
  {
    assert text + "/24" == text + (['/'] + "24");
    if '/' in text {
      SplitMany(text, '/', "24");
    } else {
      SplitFirst(text, '/', "24");
      assert Names(text, ParseAddress(text).value);
    }
  }

  /** The flag of a network agrees with each address seen in it. */
  ghost predicate FlagsRight(networks: seq<OnPremNetwork>, v: Net)
    requires v.prefix <= 32
  {
    forall k, text :: 0 <= k < |networks| && text in networks[k].addresses ==> FlagRightAt(networks[k], text, v)
  }

  ghost predicate FlagRightAt(n: OnPremNetwork, text: string, v: Net)
    requires v.prefix <= 32
  {
    exists a :: Names(text, a) && (n.overlapsVpc <==> v.Contains(a))
  }

  /** Every network plan_hybrid returns is flagged exactly when its addresses lie in the VPC. */
  lemma PlanFlagsRight(
    networks: seq<OnPremNetwork>, external: seq<ExternalDependency>, declared: seq<string>, vpcCidr: string)
    requires Networks(networks, external, Blocks(external), declared, vpcCidr) && WideEnough(vpcCidr)
    ensures FlagsRight(networks, Parsed(vpcCidr).value)
  {
    forall k, text | 0 <= k < |networks| && text in networks[k].addresses
      ensures FlagRightAt(networks[k], text, Parsed(vpcCidr).value)
    {
      assert HoldsAll(networks[k], external, Blocks(external), vpcCidr);
      AddressFlag(networks[k], external, vpcCidr, text);
    }
  }

  lemma AddressFlag(n: OnPremNetwork, external: seq<ExternalDependency>, vpcCidr: string, text: string)
    requires HoldsAll(n, external, Blocks(external), vpcCidr) && WideEnough(vpcCidr) && text in n.addresses
    ensures FlagRightAt(n, text, Parsed(vpcCidr).value)
  {
    SiteAddresses(external, Blocks(external), n.cidr, |external|, text);
    var i :| 0 <= i < |external| && Blocks(external)[i] == Some(n.cidr) && external[i].address == text;
    assert Summarize(text) == Some(n.cidr);
    SummarizedIsAddress(text);
    var a :| Names(text, a);
    FlaggedIffInside(text, a, vpcCidr);
  }

  /** The plan for one private address. */
  function OneAddress(text: string): seq<ExternalDependency> {
    [ExternalDependency("w", text, {}, 0, true)]
  }

  lemma OneAddressPlan(text: string, a: nat, vpcCidr: string) returns (n: OnPremNetwork)
    requires Names(text, a)
    ensures Networks([n], OneAddress(text), Blocks(OneAddress(text)), [], vpcCidr)
    ensures text in n.addresses && (n.overlapsVpc <==> Overlap(Format(Block(a)), vpcCidr))
  {
    SummaryReadsBack(text, a);
    var external, cidr := OneAddress(text), Format(Block(a));
    var blocks := Blocks(external);
    assert blocks == [Some(cidr)];
    n := NetworkFor(cidr, SiteOf(external, blocks, cidr, 1), vpcCidr);
    SiteAddresses(external, blocks, cidr, 1, text);
    assert external[0].address == text && blocks[0] == Some(cidr);
    assert Cidrs([n]) == [cidr];
    forall c ensures c in Cidrs([n]) <==> Listed(blocks, [], c) {
      assert Observed(blocks, c, 1) <==> blocks[0] == Some(c);
    }
  }

  /** The plan is right about every estate. */
  ghost predicate AlwaysRight(vpcCidr: string, v: Net)
    requires v.prefix <= 32
  {
    forall networks, external, declared :: Networks(networks, external, Blocks(external), declared, vpcCidr) ==>
      FlagsRight(networks, v)
  }

  /** ... exactly when the VPC text has no host bits and the VPC is a /24 or wider. */
  lemma AlwaysRightIff(vpcCidr: string, v: Net)
    requires ParseNetwork(vpcCidr, false) == Some(v) && v.prefix <= 32
    ensures AlwaysRight(vpcCidr, v) <==> WideEnough(vpcCidr)
  {
    FlagIsRightIff(vpcCidr, v);
    if WideEnough(vpcCidr) {
      assert Parsed(vpcCidr).value == v;
      forall networks, external, declared | Networks(networks, external, Blocks(external), declared, vpcCidr)
        ensures FlagsRight(networks, v)
      {
        PlanFlagsRight(networks, external, declared, vpcCidr);
      }
    } else {
      var a: nat :| a < SPACE && (Overlap(Format(Block(a)), vpcCidr) != v.Contains(a));
      WrongSomewhere(vpcCidr, v, a);
    }
  }

  lemma WrongSomewhere(vpcCidr: string, v: Net, a: nat)
    requires a < SPACE && v.prefix <= 32 && Overlap(Format(Block(a)), vpcCidr) != v.Contains(a)
    ensures !AlwaysRight(vpcCidr, v)
  {
    AddressRoundTrip(a);
    var n := OneAddressPlan(FormatAddress(a), a, vpcCidr);
    assert [n][0] == n && !FlagRightAt(n, FormatAddress(a), v);
    assert !FlagsRight([n], v);
  }
}
