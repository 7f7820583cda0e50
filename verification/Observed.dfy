/**
 What a dependency report says of the flows and the machines themselves: who called whom,
 read off a flow's two addresses, without the address index or the routing that found it.
 */
module Observed {
  import opened Options
  import opened Sorting
  import opened Tagged
  import opened Inventory
  import opened Dependencies

  // ---------- one flow ----------

  /** Too little to be a dependency: a port to ignore, or too few connections. */
  predicate Quiet(flow: Flow, ignore: set<int>, least: int) {
    flow.dstPort in ignore || flow.connections < least
  }

  /** The first machine that lists the address has that name. */
  ghost predicate OwnedBy(vms: seq<NormalizedVM>, ip: string, name: string) {
    exists i :: 0 <= i < |vms| && Owns(vms, i, ip) && vms[i].vmName == name && (forall j :: 0 <= j < i ==> !Owns(vms, j, ip))
  }

  ghost predicate Unowned(vms: seq<NormalizedVM>, ip: string) {
    forall i :: 0 <= i < |vms| ==> !Owns(vms, i, ip)
  }

  /** The flow is a call from machine s to another machine t. */
  ghost predicate Calls(vms: seq<NormalizedVM>, ignore: set<int>, least: int, flow: Flow, s: string, t: string) {
    !Quiet(flow, ignore, least) && OwnedBy(vms, flow.srcIp, s) && OwnedBy(vms, flow.dstIp, t) && s != t
  }

  /** The flow is a call from machine s to an address nobody lists. */
  ghost predicate Leaves(vms: seq<NormalizedVM>, ignore: set<int>, least: int, flow: Flow, s: string, address: string) {
    !Quiet(flow, ignore, least) && OwnedBy(vms, flow.srcIp, s) && Unowned(vms, flow.dstIp) && flow.dstIp == address
  }

  /** The flow comes from an address nobody lists. */
  ghost predicate Stray(vms: seq<NormalizedVM>, ignore: set<int>, least: int, flow: Flow) {
    !Quiet(flow, ignore, least) && Unowned(vms, flow.srcIp)
  }

  /** The flow is quiet, or a machine's with itself. */
  ghost predicate Idle(vms: seq<NormalizedVM>, ignore: set<int>, least: int, flow: Flow) {
    Quiet(flow, ignore, least) || exists s :: OwnedBy(vms, flow.srcIp, s) && OwnedBy(vms, flow.dstIp, s)
  }

  lemma OwnedIff(vms: seq<NormalizedVM>, index: map<string, string>, ip: string)
    requires Indexes(index, vms, |vms|)
    ensures Unowned(vms, ip) <==> ip !in index
    ensures forall name :: OwnedBy(vms, ip, name) <==> ip in index && index[ip] == name
  {
    assert Lookup(index, ip, OwnerBelow(vms, ip, |vms|));
    OwnerIsFirst(vms, ip, |vms|);
    forall name ensures OwnedBy(vms, ip, name) <==> ip in index && index[ip] == name {
      if OwnedBy(vms, ip, name) {
        FirstIsUnique(vms, ip, name, index[ip]);
      }
    }
  }

  lemma FirstIsUnique(vms: seq<NormalizedVM>, ip: string, name: string, other: string)
    requires OwnedBy(vms, ip, name) && OwnedBy(vms, ip, other)
    ensures name == other
  {
    var i :| 0 <= i < |vms| && Owns(vms, i, ip) && vms[i].vmName == name && (forall j :: 0 <= j < i ==> !Owns(vms, j, ip));
    var k :| 0 <= k < |vms| && Owns(vms, k, ip) && vms[k].vmName == other && (forall j :: 0 <= j < k ==> !Owns(vms, j, ip));
    assert i == k;
  }

  /** A flow is booked from the owner of its source address to the owner of its destination. */
  lemma RouteIff(flow: Flow, vms: seq<NormalizedVM>, view: View)
    requires Indexes(view.index, vms, |vms|)
    ensures forall s, t ::
      RouteOf(view, flow) == Mapped(s, t, true) <==> Calls(vms, view.ignore, view.minConnections, flow, s, t)
    ensures forall s, a ::
      RouteOf(view, flow) == Mapped(s, a, false) <==> Leaves(vms, view.ignore, view.minConnections, flow, s, a)
    ensures RouteOf(view, flow) == Unmapped <==> Stray(vms, view.ignore, view.minConnections, flow)
    ensures RouteOf(view, flow) == Filtered <==> Idle(vms, view.ignore, view.minConnections, flow)
  {
    OwnedIff(vms, view.index, flow.srcIp);
    OwnedIff(vms, view.index, flow.dstIp);
    if flow.srcIp in view.index {
      assert OwnedBy(vms, flow.srcIp, view.index[flow.srcIp]);
    }
  }

  // ---------- many flows ----------

  /** The connections of those of the first n flows. */
  ghost function Total(flows: seq<Flow>, such: Flow -> bool, n: nat): int
    requires n <= |flows|
  {
    if n == 0 then 0 else Total(flows, such, n - 1) + if such(flows[n - 1]) then flows[n - 1].connections else 0
  }

  /** How many of the first n flows. */
  ghost function Count(flows: seq<Flow>, such: Flow -> bool, n: nat): nat
    requires n <= |flows|
  {
    if n == 0 then 0 else Count(flows, such, n - 1) + if such(flows[n - 1]) then 1 else 0
  }

  ghost predicate AllPorts(ports: set<int>, flows: seq<Flow>, such: Flow -> bool) {
    forall p :: p in ports <==> exists i :: 0 <= i < |flows| && such(flows[i]) && flows[i].dstPort == p
  }

  ghost predicate Any(flows: seq<Flow>, such: Flow -> bool) {
    exists i :: 0 <= i < |flows| && such(flows[i])
  }

  /** Flows routed alike are the flows that satisfy the same test. */
  ghost predicate Agrees(flows: seq<Flow>, view: View, route: Route, such: Flow -> bool) {
    forall i :: 0 <= i < |flows| ==> (RouteOf(view, flows[i]) == route <==> such(flows[i]))
  }

  lemma {:induction false} TotalAgrees(
    flows: seq<Flow>, view: View, s: string, t: string, inside: bool, such: Flow -> bool, n: nat)
    requires n <= |flows| && Agrees(flows, view, Mapped(s, t, inside), such)
    ensures SumOf(Pairs(flows, view, inside), Amounts(flows), (s, t), n) == Total(flows, such, n)
  {
    if n > 0 {
      TotalAgrees(flows, view, s, t, inside, such, n - 1);
      assert Pairs(flows, view, inside)[n - 1] == Some((s, t)) <==> RouteOf(view, flows[n - 1]) == Mapped(s, t, inside);
    }
  }

  lemma PortsAgree(flows: seq<Flow>, view: View, route: Route, such: Flow -> bool)
    requires Agrees(flows, view, route, such)
    ensures AllPorts(PortsOf(flows, view, route, |flows|), flows, such)
    ensures Seen(flows, view, route, |flows|) <==> Any(flows, such)
  {
  }

  // ---------- the report ----------

  ghost function CallsFromTo(vms: seq<NormalizedVM>, ignore: set<int>, least: int, s: string, t: string): Flow -> bool {
    flow => Calls(vms, ignore, least, flow, s, t)
  }

  ghost function LeavesFor(vms: seq<NormalizedVM>, ignore: set<int>, least: int, s: string, a: string): Flow -> bool {
    flow => Leaves(vms, ignore, least, flow, s, a)
  }

  ghost predicate IsPair(deps: seq<Dependency>, s: string, t: string) {
    exists k :: 0 <= k < |deps| && deps[k].source == s && deps[k].target == t
  }

  ghost predicate IsExit(external: seq<ExternalDependency>, s: string, a: string) {
    exists k :: 0 <= k < |external| && external[k].source == s && external[k].address == a
  }

  /** A pair is listed exactly when the one called the other, with every such call. */
  ghost predicate CallsReported(
    deps: seq<Dependency>, flows: seq<Flow>, vms: seq<NormalizedVM>, ignore: set<int>, least: int)
  {
    && (forall s, t :: IsPair(deps, s, t) <==> Any(flows, CallsFromTo(vms, ignore, least, s, t)))
    && forall k :: 0 <= k < |deps| ==>
        var such := CallsFromTo(vms, ignore, least, deps[k].source, deps[k].target);
        AllPorts(deps[k].ports, flows, such) && deps[k].connections == Total(flows, such, |flows|)
  }

  /** An outside address is listed under a machine exactly when the machine called it, with every such call. */
  ghost predicate ExitsReported(
    external: seq<ExternalDependency>, flows: seq<Flow>, vms: seq<NormalizedVM>, ignore: set<int>, least: int)
  {
    && (forall s, a :: IsExit(external, s, a) <==> Any(flows, LeavesFor(vms, ignore, least, s, a)))
    && forall k :: 0 <= k < |external| ==>
        var such := LeavesFor(vms, ignore, least, external[k].source, external[k].address);
        AllPorts(external[k].ports, flows, such) && external[k].connections == Total(flows, such, |flows|)
  }

  /** Every flow is counted once: as idle, as stray, or else as booked. */
  ghost predicate FlowsCounted(counts: Counts, flows: seq<Flow>, vms: seq<NormalizedVM>, ignore: set<int>, least: int) {
    && counts.filtered == Count(flows, flow => Idle(vms, ignore, least, flow), |flows|)
    && counts.unmapped == Count(flows, flow => Stray(vms, ignore, least, flow), |flows|)
    && counts.mapped + counts.unmapped + counts.filtered == |flows|
  }

  lemma ReportedCalls(deps: seq<Dependency>, flows: seq<Flow>, vms: seq<NormalizedVM>, view: View)
    requires Indexes(view.index, vms, |vms|) && DependenciesOf(deps, flows, view)
    ensures CallsReported(deps, flows, vms, view.ignore, view.minConnections)
  {
    forall s, t ensures Agrees(flows, view, Mapped(s, t, true), CallsFromTo(vms, view.ignore, view.minConnections, s, t)) {
      RoutesCalls(flows, vms, view, s, t);
    }
    var keys := DependencyKeys(deps);
    forall s, t ensures IsPair(deps, s, t) <==> Any(flows, CallsFromTo(vms, view.ignore, view.minConnections, s, t)) {
      PortsAgree(flows, view, Mapped(s, t, true), CallsFromTo(vms, view.ignore, view.minConnections, s, t));
      assert (s, t) in keys <==> IsPair(deps, s, t) by {
        if (s, t) in keys {
          var k :| 0 <= k < |keys| && keys[k] == (s, t);
          assert deps[k].source == s && deps[k].target == t;
        }
        if k :| 0 <= k < |deps| && deps[k].source == s && deps[k].target == t {
          assert keys[k] == (s, t);
        }
      }
    }
    forall k | 0 <= k < |deps|
      ensures var such := CallsFromTo(vms, view.ignore, view.minConnections, deps[k].source, deps[k].target);
        AllPorts(deps[k].ports, flows, such) && deps[k].connections == Total(flows, such, |flows|)
    {
      var such := CallsFromTo(vms, view.ignore, view.minConnections, deps[k].source, deps[k].target);
      assert IsDependency(deps[k], flows, view);
      PortsAgree(flows, view, Mapped(deps[k].source, deps[k].target, true), such);
      TotalAgrees(flows, view, deps[k].source, deps[k].target, true, such, |flows|);
    }
  }

  lemma RoutesCalls(flows: seq<Flow>, vms: seq<NormalizedVM>, view: View, s: string, t: string)
    requires Indexes(view.index, vms, |vms|)
    ensures Agrees(flows, view, Mapped(s, t, true), CallsFromTo(vms, view.ignore, view.minConnections, s, t))
    ensures Agrees(flows, view, Mapped(s, t, false), LeavesFor(vms, view.ignore, view.minConnections, s, t))
  {
    forall i | 0 <= i < |flows|
      ensures RouteOf(view, flows[i]) == Mapped(s, t, true) <==> Calls(vms, view.ignore, view.minConnections, flows[i], s, t)
      ensures RouteOf(view, flows[i]) == Mapped(s, t, false) <==> Leaves(vms, view.ignore, view.minConnections, flows[i], s, t)
    {
      RouteIff(flows[i], vms, view);
    }
  }

  lemma ReportedExits(
    external: seq<ExternalDependency>, flows: seq<Flow>, vms: seq<NormalizedVM>, view: View, isPrivate: string -> bool)
    requires Indexes(view.index, vms, |vms|) && ExternalsOf(external, flows, view, isPrivate)
    ensures ExitsReported(external, flows, vms, view.ignore, view.minConnections)
  {
    forall s, t ensures Agrees(flows, view, Mapped(s, t, false), LeavesFor(vms, view.ignore, view.minConnections, s, t)) {
      RoutesCalls(flows, vms, view, s, t);
    }
    var keys := ExternalKeys(external);
    forall s, t ensures IsExit(external, s, t) <==> Any(flows, LeavesFor(vms, view.ignore, view.minConnections, s, t)) {
      PortsAgree(flows, view, Mapped(s, t, false), LeavesFor(vms, view.ignore, view.minConnections, s, t));
      assert (s, t) in keys <==> IsExit(external, s, t) by {
        if (s, t) in keys {
          var k :| 0 <= k < |keys| && keys[k] == (s, t);
          assert external[k].source == s && external[k].address == t;
        }
        if k :| 0 <= k < |external| && external[k].source == s && external[k].address == t {
          assert keys[k] == (s, t);
        }
      }
    }
    forall k | 0 <= k < |external|
      ensures var such := LeavesFor(vms, view.ignore, view.minConnections, external[k].source, external[k].address);
        AllPorts(external[k].ports, flows, such) && external[k].connections == Total(flows, such, |flows|)
    {
      var such := LeavesFor(vms, view.ignore, view.minConnections, external[k].source, external[k].address);
      assert IsExternal(external[k], flows, view, isPrivate);
      PortsAgree(flows, view, Mapped(external[k].source, external[k].address, false), such);
      TotalAgrees(flows, view, external[k].source, external[k].address, false, such, |flows|);
    }
  }

  lemma {:induction false} CountsAgree(flows: seq<Flow>, vms: seq<NormalizedVM>, view: View, n: nat)
    requires Indexes(view.index, vms, |vms|) && n <= |flows|
    ensures Counted(flows, view, n).filtered
      == Count(flows, flow => Idle(vms, view.ignore, view.minConnections, flow), n)
    ensures Counted(flows, view, n).unmapped
      == Count(flows, flow => Stray(vms, view.ignore, view.minConnections, flow), n)
  {
    if n > 0 {
      CountsAgree(flows, vms, view, n - 1);
      RouteIff(flows[n - 1], vms, view);
    }
  }
}
