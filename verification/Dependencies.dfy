/**
 Dependencies read from observed flows (`dependencies.py`): who calls whom, which groups
 call each other in both directions, and what a wave order gets backwards.
 */
module Dependencies {
  import opened Options
  import opened Text
  import opened Sorting
  import opened Tagged
  import opened Inventory

  datatype Flow = Flow(srcIp: string, dstIp: string, dstPort: int, connections: int)

  const INFRASTRUCTURE_PORTS: set<int> := {53, 123, 67, 68, 161, 162, 514, 389, 636, 88, 464, 5353}
  const MIN_CONNECTIONS: int := 2

  // ---------- addresses ----------

  function Strip(s: string): string {
    Trim(s, IsSpace)
  }

  /** The first of the first n machines with that address, once stripped. */
  function OwnerBelow(vms: seq<NormalizedVM>, ip: string, n: nat): Option<string>
    requires n <= |vms|
  {
    if n == 0 then None
    else
      var earlier := OwnerBelow(vms, ip, n - 1);
      if earlier.Some? then earlier
      else if HasAddress(vms[n - 1], ip, |vms[n - 1].ipAddresses|) then Some(vms[n - 1].vmName)
      else None
  }

  predicate HasAddress(vm: NormalizedVM, ip: string, m: nat)
    requires m <= |vm.ipAddresses|
  {
    exists a :: 0 <= a < m && Strip(vm.ipAddresses[a]) == ip
  }

  predicate Lookup(index: map<string, string>, ip: string, owner: Option<string>) {
    if ip in index then owner == Some(index[ip]) else owner == None
  }

  ghost predicate Indexes(index: map<string, string>, vms: seq<NormalizedVM>, n: nat)
    requires n <= |vms|
  {
    forall ip :: Lookup(index, ip, OwnerBelow(vms, ip, n))
  }

  /** `_index_by_ip`: the first machine that lists an address owns it. */
  method IndexByIp(vms: seq<NormalizedVM>) returns (index: map<string, string>)
    ensures Indexes(index, vms, |vms|)
  {
    index := map[];
    for n := 0 to |vms|
      invariant Indexes(index, vms, n)
    {
      index := IndexOne(vms, n, index);
    }
  }

  method IndexOne(vms: seq<NormalizedVM>, n: nat, before: map<string, string>) returns (index: map<string, string>)
    requires n < |vms| && Indexes(before, vms, n)
    ensures Indexes(index, vms, n + 1)
  {
    var vm := vms[n];
    index := before;
    for m := 0 to |vm.ipAddresses|
      invariant forall ip :: Lookup(index, ip,
        if ip in before then Some(before[ip]) else if HasAddress(vm, ip, m) then Some(vm.vmName) else None)
    {
      var ip := Strip(vm.ipAddresses[m]);
      forall x ensures HasAddress(vm, x, m + 1) <==> HasAddress(vm, x, m) || x == ip {
        HasAddressStep(vm, x, m);
      }
      if ip !in index {
        index := index[ip := vm.vmName];
      }
    }
    var next := n + 1;
    forall ip ensures Lookup(index, ip, OwnerBelow(vms, ip, next)) {
      assert Lookup(before, ip, OwnerBelow(vms, ip, n));
    }
  }

  lemma HasAddressStep(vm: NormalizedVM, ip: string, m: nat)
    requires m < |vm.ipAddresses|
    ensures HasAddress(vm, ip, m + 1) <==> HasAddress(vm, ip, m) || Strip(vm.ipAddresses[m]) == ip
  {
    if HasAddress(vm, ip, m + 1) && !HasAddress(vm, ip, m) {
      var a :| 0 <= a < m + 1 && Strip(vm.ipAddresses[a]) == ip;
      assert a == m;
    }
  }

  /** An address is attributed exactly when somebody lists it, and then to the first who does. */
  lemma {:induction false} OwnerIsFirst(vms: seq<NormalizedVM>, ip: string, n: nat)
    requires n <= |vms|
    ensures OwnerBelow(vms, ip, n).None? <==> forall i :: 0 <= i < n ==> !Owns(vms, i, ip)
    ensures OwnerBelow(vms, ip, n).Some? ==>
      exists i :: 0 <= i < n && Owns(vms, i, ip) && OwnerBelow(vms, ip, n).value == vms[i].vmName
        && forall j :: 0 <= j < i ==> !Owns(vms, j, ip)
  {
    if n > 0 {
      OwnerIsFirst(vms, ip, n - 1);
      assert Owns(vms, n - 1, ip) <==> HasAddress(vms[n - 1], ip, |vms[n - 1].ipAddresses|);
    }
  }

  predicate Owns(vms: seq<NormalizedVM>, i: nat, ip: string)
    requires i < |vms|
  {
    HasAddress(vms[i], ip, |vms[i].ipAddresses|)
  }

  // ---------- attribution ----------

  /** What `analyze_dependencies` makes of one flow. */
  datatype Route = Filtered | Unmapped | Mapped(source: string, target: string, inside: bool)

  /** The address index and the noise filter. */
  datatype View = View(index: map<string, string>, ignore: set<int>, minConnections: int)

  function RouteOf(view: View, flow: Flow): Route {
    if flow.dstPort in view.ignore || flow.connections < view.minConnections then Filtered
    else if flow.srcIp !in view.index then Unmapped
    else
      var source := view.index[flow.srcIp];
      if flow.dstIp !in view.index then Mapped(source, flow.dstIp, false)
      else if view.index[flow.dstIp] == source then Filtered
      else Mapped(source, view.index[flow.dstIp], true)
  }

  ghost predicate Seen(flows: seq<Flow>, view: View, route: Route, n: nat)
    requires n <= |flows|
  {
    exists i :: 0 <= i < n && RouteOf(view, flows[i]) == route
  }

  ghost function PortsOf(flows: seq<Flow>, view: View, route: Route, n: nat): set<int>
    requires n <= |flows|
  {
    set i | 0 <= i < n && RouteOf(view, flows[i]) == route :: flows[i].dstPort
  }

  /** The pair each flow is booked under, if it is on that side. */
  function Pairs(flows: seq<Flow>, view: View, inside: bool): seq<Option<(string, string)>> {
    seq(|flows|, i requires 0 <= i < |flows| => PairOf(RouteOf(view, flows[i]), inside))
  }

  function PairOf(r: Route, inside: bool): Option<(string, string)> {
    if r.Mapped? && r.inside == inside then Some((r.source, r.target)) else None
  }

  function Amounts(flows: seq<Flow>): seq<int> {
    seq(|flows|, i requires 0 <= i < |flows| => flows[i].connections)
  }

  datatype Traffic = Traffic(ports: set<int>, connections: int)

  type Ledger = map<(string, string), Traffic>

  /** The entry `defaultdict` finds or makes. */
  function Entry(m: Ledger, key: (string, string)): Traffic {
    if key in m then m[key] else Traffic({}, 0)
  }

  function Post(m: Ledger, key: (string, string), flow: Flow): Ledger {
    m[key := Traffic(Entry(m, key).ports + {flow.dstPort}, Entry(m, key).connections + flow.connections)]
  }

  /** A ledger holds exactly the first n flows between its pairs. */
  ghost predicate Tallies(m: Ledger, flows: seq<Flow>, view: View, inside: bool, n: nat)
    requires n <= |flows|
  {
    forall s, t :: TalliesAt(m, flows, view, s, t, inside, n)
  }

  ghost predicate TalliesAt(m: Ledger, flows: seq<Flow>, view: View, s: string, t: string, inside: bool, n: nat)
    requires n <= |flows|
  {
    && ((s, t) in m <==> Seen(flows, view, Mapped(s, t, inside), n))
    && Entry(m, (s, t)).ports == PortsOf(flows, view, Mapped(s, t, inside), n)
    && Entry(m, (s, t)).connections == SumOf(Pairs(flows, view, inside), Amounts(flows), (s, t), n)
  }

  lemma SeenStep(flows: seq<Flow>, view: View, route: Route, n: nat)
    requires n < |flows|
    ensures Seen(flows, view, route, n + 1) <==> Seen(flows, view, route, n) || RouteOf(view, flows[n]) == route
    ensures PortsOf(flows, view, route, n + 1) == PortsOf(flows, view, route, n)
      + if RouteOf(view, flows[n]) == route then {flows[n].dstPort} else {}
  {
    if RouteOf(view, flows[n]) == route {
      assert Seen(flows, view, route, n + 1);
    } else if Seen(flows, view, route, n + 1) {
      var i :| 0 <= i < n + 1 && RouteOf(view, flows[i]) == route;
      assert i < n;
    }
  }

  lemma TallyStep(m: Ledger, m': Ledger, flows: seq<Flow>, view: View, inside: bool, n: nat)
    requires n < |flows| && Tallies(m, flows, view, inside, n)
    requires var r := RouteOf(view, flows[n]);
      m' == if r.Mapped? && r.inside == inside then Post(m, (r.source, r.target), flows[n]) else m
    ensures Tallies(m', flows, view, inside, n + 1)
  {
    var next := n + 1;
    forall s, t ensures TalliesAt(m', flows, view, s, t, inside, next) {
      SeenStep(flows, view, Mapped(s, t, inside), n);
      assert TalliesAt(m, flows, view, s, t, inside, n);
    }
  }

  /** How many of the first n flows were mapped, unmapped, filtered. */
  datatype Counts = Counts(mapped: nat, unmapped: nat, filtered: nat)

  function CountOne(c: Counts, r: Route): Counts {
    match r
    case Mapped(_, _, _) => c.(mapped := c.mapped + 1)
    case Unmapped => c.(unmapped := c.unmapped + 1)
    case Filtered => c.(filtered := c.filtered + 1)
  }

  function Counted(flows: seq<Flow>, view: View, n: nat): (c: Counts)
    requires n <= |flows|
    ensures c.mapped + c.unmapped + c.filtered == n
  {
    if n == 0 then Counts(0, 0, 0) else CountOne(Counted(flows, view, n - 1), RouteOf(view, flows[n - 1]))
  }

  method Tally(flows: seq<Flow>, view: View) returns (pairs: Ledger, externals: Ledger, counts: Counts)
    ensures Tallies(pairs, flows, view, true, |flows|) && Tallies(externals, flows, view, false, |flows|)
    ensures counts == Counted(flows, view, |flows|)
  {
    pairs, externals, counts := map[], map[], Counts(0, 0, 0);
    for n := 0 to |flows|
      invariant Tallies(pairs, flows, view, true, n) && Tallies(externals, flows, view, false, n)
      invariant counts == Counted(flows, view, n)
    {
      var flow := flows[n];
      ghost var before, outside := pairs, externals;
      if flow.dstPort in view.ignore || flow.connections < view.minConnections {
        counts := counts.(filtered := counts.filtered + 1);
      } else if flow.srcIp !in view.index {
        counts := counts.(unmapped := counts.unmapped + 1);
      } else {
        var source := view.index[flow.srcIp];
        if flow.dstIp !in view.index {
          externals := Post(externals, (source, flow.dstIp), flow);
          counts := counts.(mapped := counts.mapped + 1);
        } else if view.index[flow.dstIp] == source {
          counts := counts.(filtered := counts.filtered + 1);
        } else {
          pairs := Post(pairs, (source, view.index[flow.dstIp]), flow);
          counts := counts.(mapped := counts.mapped + 1);
        }
      }
      TallyStep(before, pairs, flows, view, true, n);
      TallyStep(outside, externals, flows, view, false, n);
    }
  }

  // ---------- the report ----------

  datatype Dependency = Dependency(source: string, target: string, ports: set<int>, connections: int)

  datatype ExternalDependency = ExternalDependency(
    source: string, address: string, ports: set<int>, connections: int, isPrivate: bool)

  /** Order on pairs of strings. */
  predicate PairLeq(a: (string, string), b: (string, string)) {
    if a.0 == b.0 then LexLeq(a.1, b.1) else LexLeq(a.0, b.0)
  }

  lemma PairOrder()
    ensures TotalOrder(PairLeq)
  {
    forall a: (string, string), b: (string, string) ensures PairLeq(a, b) || PairLeq(b, a) {
      LexTotal(a.0, b.0);
      LexTotal(a.1, b.1);
    }
    forall a: (string, string), b: (string, string), c: (string, string) | PairLeq(a, b) && PairLeq(b, c)
      ensures PairLeq(a, c)
    {
      PairTransitive(a, b, c);
    }
  }

  lemma PairTransitive(a: (string, string), b: (string, string), c: (string, string))
    requires PairLeq(a, b) && PairLeq(b, c)
    ensures PairLeq(a, c)
  {
    if a.0 == b.0 && b.0 == c.0 {
      LexTransitive(a.1, b.1, c.1);
    } else {
      LexTotal(a.0, b.0);
      LexTotal(b.0, c.0);
      LexTransitive(a.0, b.0, c.0);
      LexTotal(a.0, c.0);
    }
  }

  /** The ledger's entries in key order. */
  method Entries(m: Ledger) returns (keys: seq<(string, string)>)
    ensures NoDuplicates(keys) && Ordered(keys, PairLeq)
    ensures forall k :: k in keys <==> k in m
  {
    PairOrder();
    keys := SortSet(m.Keys, PairLeq);
  }

  /** The pairs flows were mapped to, each once and in order. */
  ghost predicate Lists(keys: seq<(string, string)>, flows: seq<Flow>, view: View, inside: bool) {
    && NoDuplicates(keys) && Ordered(keys, PairLeq)
    && forall s, t :: (s, t) in keys <==> Seen(flows, view, Mapped(s, t, inside), |flows|)
  }

  function DependencyKeys(deps: seq<Dependency>): seq<(string, string)> {
    seq(|deps|, i requires 0 <= i < |deps| => (deps[i].source, deps[i].target))
  }

  function ExternalKeys(external: seq<ExternalDependency>): seq<(string, string)> {
    seq(|external|, i requires 0 <= i < |external| => (external[i].source, external[i].address))
  }

  ghost predicate DependenciesOf(deps: seq<Dependency>, flows: seq<Flow>, view: View) {
    && Lists(DependencyKeys(deps), flows, view, true)
    && forall i :: 0 <= i < |deps| ==> IsDependency(deps[i], flows, view)
  }

  ghost predicate IsDependency(d: Dependency, flows: seq<Flow>, view: View) {
    && d.ports == PortsOf(flows, view, Mapped(d.source, d.target, true), |flows|)
    && d.connections == SumOf(Pairs(flows, view, true), Amounts(flows), (d.source, d.target), |flows|)
  }

  ghost predicate ExternalsOf(
    external: seq<ExternalDependency>, flows: seq<Flow>, view: View, isPrivate: string -> bool) {
    && Lists(ExternalKeys(external), flows, view, false)
    && forall i :: 0 <= i < |external| ==> IsExternal(external[i], flows, view, isPrivate)
  }

  ghost predicate IsExternal(e: ExternalDependency, flows: seq<Flow>, view: View, isPrivate: string -> bool) {
    && e.ports == PortsOf(flows, view, Mapped(e.source, e.address, false), |flows|)
    && e.connections == SumOf(Pairs(flows, view, false), Amounts(flows), (e.source, e.address), |flows|)
    && e.isPrivate == isPrivate(e.address)
  }

  method ListDependencies(pairs: Ledger, ghost flows: seq<Flow>, ghost view: View) returns (deps: seq<Dependency>)
    requires Tallies(pairs, flows, view, true, |flows|)
    ensures DependenciesOf(deps, flows, view)
  {
    var keys := Entries(pairs);
    deps := seq(|keys|, i requires 0 <= i < |keys| =>
      Dependency(keys[i].0, keys[i].1, Entry(pairs, keys[i]).ports, Entry(pairs, keys[i]).connections));
    assert keys == DependencyKeys(deps);
    forall s, t ensures (s, t) in keys <==> Seen(flows, view, Mapped(s, t, true), |flows|) {
      assert TalliesAt(pairs, flows, view, s, t, true, |flows|);
    }
    forall i | 0 <= i < |deps| ensures IsDependency(deps[i], flows, view) {
      assert TalliesAt(pairs, flows, view, deps[i].source, deps[i].target, true, |flows|);
    }
  }

  method ListExternals(externals: Ledger, isPrivate: string -> bool, ghost flows: seq<Flow>, ghost view: View)
    returns (external: seq<ExternalDependency>)
    requires Tallies(externals, flows, view, false, |flows|)
    ensures ExternalsOf(external, flows, view, isPrivate)
  {
    var keys := Entries(externals);
    external := seq(|keys|, i requires 0 <= i < |keys| => ExternalDependency(
      keys[i].0, keys[i].1, Entry(externals, keys[i]).ports, Entry(externals, keys[i]).connections, isPrivate(keys[i].1)));
    assert keys == ExternalKeys(external);
    forall s, t ensures (s, t) in keys <==> Seen(flows, view, Mapped(s, t, false), |flows|) {
      assert TalliesAt(externals, flows, view, s, t, false, |flows|);
    }
    forall i | 0 <= i < |external| ensures IsExternal(external[i], flows, view, isPrivate) {
      assert TalliesAt(externals, flows, view, external[i].source, external[i].address, false, |flows|);
    }
  }

  // ---------- nothing is lost ----------

  /** The listed pairs carry every connection of the mapped flows, once. */
  lemma TotalsConserved(keys: seq<(string, string)>, flows: seq<Flow>, view: View, inside: bool)
    requires Lists(keys, flows, view, inside)
    ensures SumKeys(keys, Pairs(flows, view, inside), Amounts(flows), |flows|)
      == SumAll(Pairs(flows, view, inside), Amounts(flows), |flows|)
  {
    forall i | 0 <= i < |flows| && Pairs(flows, view, inside)[i].Some?
      ensures Pairs(flows, view, inside)[i].value in keys
    {
      var r := RouteOf(view, flows[i]);
      assert Seen(flows, view, Mapped(r.source, r.target, inside), |flows|);
    }
    Conserved(keys, Pairs(flows, view, inside), Amounts(flows), |flows|);
  }

  /** No workload depends on itself. */
  lemma NoSelfDependency(deps: seq<Dependency>, flows: seq<Flow>, view: View, d: Dependency)
    requires DependenciesOf(deps, flows, view) && d in deps
    ensures d.source != d.target
  {
    var keys := DependencyKeys(deps);
    var i :| 0 <= i < |deps| && deps[i] == d;
    assert keys[i] == (d.source, d.target);
    assert Seen(flows, view, Mapped(d.source, d.target, true), |flows|);
  }
}
