/**
 The groups that must move together (`_mutual_groups`): an explicit-stack search over the
 calls that go both ways, proved to find exactly the chains of mutual calls.
 */
module MutualGroups {
  import opened Text
  import opened Sorting

  type Edges = set<(string, string)>

  /** The two call each other. */
  predicate Mutual(edges: Edges, a: string, b: string) {
    (a, b) in edges && (b, a) in edges
  }

  ghost predicate Chain(edges: Edges, path: seq<string>) {
    forall i :: 0 <= i < |path| - 1 ==> Mutual(edges, path[i], path[i + 1])
  }

  ghost predicate Connects(edges: Edges, path: seq<string>, a: string, b: string) {
    path != [] && path[0] == a && path[|path| - 1] == b && Chain(edges, path)
  }

  /** A chain of mutual calls leads from a to b. */
  ghost predicate Linked(edges: Edges, a: string, b: string) {
    exists path :: Connects(edges, path, a, b)
  }

  lemma LinkedRefl(edges: Edges, a: string)
    ensures Linked(edges, a, a)
  {
    assert Connects(edges, [a], a, a);
  }

  lemma LinkedStep(edges: Edges, a: string, b: string, c: string)
    requires Linked(edges, a, b) && Mutual(edges, b, c)
    ensures Linked(edges, a, c)
  {
    var path :| Connects(edges, path, a, b);
    assert Connects(edges, path + [c], a, c);
  }

  lemma {:induction false} LinkedTransPath(edges: Edges, a: string, path: seq<string>, b: string, c: string)
    requires Linked(edges, a, b) && Connects(edges, path, b, c)
    ensures Linked(edges, a, c)
  {
    if |path| > 1 {
      var tail := path[1..];
      LinkedStep(edges, a, b, path[1]);
      forall i | 0 <= i < |tail| - 1 ensures Mutual(edges, tail[i], tail[i + 1]) {
        assert Mutual(edges, path[i + 1], path[i + 1 + 1]);
      }
      LinkedTransPath(edges, a, tail, path[1], c);
    }
  }

  lemma LinkedTrans(edges: Edges, a: string, b: string, c: string)
    requires Linked(edges, a, b) && Linked(edges, b, c)
    ensures Linked(edges, a, c)
  {
    var path :| Connects(edges, path, b, c);
    LinkedTransPath(edges, a, path, b, c);
  }

  lemma {:induction false} LinkedSymPath(edges: Edges, path: seq<string>, a: string, b: string)
    requires Connects(edges, path, a, b)
    ensures Linked(edges, b, a)
  {
    if |path| == 1 {
      LinkedRefl(edges, a);
    } else {
      var init := path[..|path| - 1];
      var m := init[|init| - 1];
      LinkedSymPath(edges, init, a, m);
      LinkedRefl(edges, b);
      LinkedStep(edges, b, b, m);
      LinkedTrans(edges, b, m, a);
    }
  }

  lemma LinkedSym(edges: Edges, a: string, b: string)
    requires Linked(edges, a, b)
    ensures Linked(edges, b, a)
  {
    var path :| Connects(edges, path, a, b);
    LinkedSymPath(edges, path, a, b);
  }

  // ---------- the search ----------

  /** Who each caller exchanges calls with. */
  ghost predicate Partners(mutual: map<string, set<string>>, edges: Edges) {
    && (forall a, b :: a in mutual && b in mutual[a] ==> Mutual(edges, a, b))
    && (forall a, b :: Mutual(edges, a, b) ==> a in mutual && b in mutual[a])
  }

  function Add(mutual: map<string, set<string>>, a: string, b: string): map<string, set<string>> {
    mutual[a := (if a in mutual then mutual[a] else {}) + {b}]
  }

  method CollectPartners(edges: Edges) returns (mutual: map<string, set<string>>)
    ensures Partners(mutual, edges)
  {
    mutual := map[];
    var rest := edges;
    while rest != {}
      invariant rest <= edges
      invariant forall a, b :: a in mutual && b in mutual[a] ==> Mutual(edges, a, b)
      invariant forall a, b :: Mutual(edges, a, b) && (a, b) !in rest ==> a in mutual && b in mutual[a]
      decreases rest
    {
      var e: (string, string) :| e in rest;
      rest := rest - {e};
      if (e.1, e.0) in edges {
        mutual := Add(Add(mutual, e.0, e.1), e.1, e.0);
      }
    }
  }

  lemma {:induction false} ClosedHoldsLinked(edges: Edges, component: set<string>, path: seq<string>, a: string, b: string)
    requires Connects(edges, path, a, b) && a in component
    requires forall x, y :: x in component && Mutual(edges, x, y) ==> y in component
    ensures b in component
  {
    if |path| > 1 {
      var init := path[..|path| - 1];
      ClosedHoldsLinked(edges, component, init, a, init[|init| - 1]);
    }
  }

  /** A set with the root, only of what it is linked to, and closed under mutual calls, is its component. */
  lemma ClosedIsComponent(edges: Edges, component: set<string>, node: string)
    requires node in component && forall x :: x in component ==> Linked(edges, node, x)
    requires forall x, y :: x in component && Mutual(edges, x, y) ==> y in component
    ensures forall x :: x in component <==> Linked(edges, node, x)
  {
    forall x | Linked(edges, node, x) ensures x in component {
      var path :| Connects(edges, path, node, x);
      ClosedHoldsLinked(edges, component, path, node, x);
    }
  }

  /** Everything on the stack or found so far is linked to the root, and what was found has its
      partners found or waiting. */
  ghost predicate Search(
    mutual: map<string, set<string>>, edges: Edges, node: string, stack: seq<string>, component: set<string>) {
    && (forall i :: 0 <= i < |stack| ==> stack[i] in mutual && Linked(edges, node, stack[i]))
    && (forall x :: x in component ==> x in mutual && Linked(edges, node, x))
    && (node in component || node in stack)
    && (forall x, y :: x in component && Mutual(edges, x, y) ==> y in component || y in stack)
  }

  lemma SearchVisit(
    mutual: map<string, set<string>>, edges: Edges, node: string, stack: seq<string>, component: set<string>,
    current: string, more: seq<string>)
    requires Partners(mutual, edges) && Search(mutual, edges, node, stack + [current], component)
    requires current in mutual && forall x :: x in more <==> x in mutual[current] - (component + {current})
    ensures Search(mutual, edges, node, stack + more, component + {current})
  {
    assert (stack + [current])[|stack|] == current;
    forall i | 0 <= i < |stack + more|
      ensures (stack + more)[i] in mutual && Linked(edges, node, (stack + more)[i])
    {
      if i < |stack| {
        assert (stack + [current])[i] == stack[i];
      } else {
        var x := more[i - |stack|];
        assert x in more;
        assert Mutual(edges, current, x) && Mutual(edges, x, current);
        LinkedStep(edges, node, current, x);
      }
    }
  }

  /** Depth first, with a stack that may hold a name more than once. */
  method Component(mutual: map<string, set<string>>, ghost edges: Edges, node: string) returns (component: set<string>)
    requires Partners(mutual, edges) && node in mutual
    ensures forall x :: x in component <==> Linked(edges, node, x)
  {
    component := {};
    var stack := [node];
    LinkedRefl(edges, node);
    while stack != []
      invariant Search(mutual, edges, node, stack, component)
      decreases mutual.Keys - component, |stack|
    {
      var current := stack[|stack| - 1];
      ghost var before := stack;
      stack := stack[..|stack| - 1];
      assert before == stack + [current];
      if current !in component {
        assert current in mutual by {
          assert before[|stack|] == current;
        }
        var more := Enumerate(mutual[current] - (component + {current}));
        SearchVisit(mutual, edges, node, stack, component, current, more);
        component := component + {current};
        stack := stack + more;
      }
    }
    ClosedIsComponent(edges, component, node);
  }

  // ---------- the groups ----------

  /** A sorted list of at least two names: one of them and all it is linked to. */
  ghost predicate IsGroup(edges: Edges, g: seq<string>) {
    && |g| > 1 && StrictlySorted(g)
    && forall a, b :: a in g ==> (b in g <==> Linked(edges, a, b))
  }

  lemma ComponentIsGroup(edges: Edges, node: string, component: set<string>)
    requires forall x :: x in component <==> Linked(edges, node, x)
    requires |component| > 1
    ensures IsGroup(edges, Sorted(component))
  {
    forall a, b | a in component ensures b in component <==> Linked(edges, a, b) {
      if Linked(edges, a, b) {
        LinkedTrans(edges, node, a, b);
      }
      if b in component {
        LinkedSym(edges, node, a);
        LinkedTrans(edges, a, node, b);
      }
    }
  }

  ghost predicate Inside(g: seq<string>, s: set<string>) {
    forall a :: a in g ==> a in s
  }

  ghost predicate Disjoint(g: seq<string>, h: seq<string>) {
    forall a :: !(a in g && a in h)
  }

  ghost predicate InSome(groups: seq<seq<string>>, a: string) {
    exists k :: 0 <= k < |groups| && a in groups[k]
  }

  ghost predicate Closed(edges: Edges, seen: set<string>) {
    forall a, b :: a in seen && Linked(edges, a, b) ==> b in seen
  }

  ghost predicate AllGroups(edges: Edges, seen: set<string>, groups: seq<seq<string>>) {
    EachIsGroup(edges, groups) && AllInside(groups, seen) && PairwiseDisjoint(groups)
  }

  ghost predicate EachIsGroup(edges: Edges, groups: seq<seq<string>>) {
    forall k :: 0 <= k < |groups| ==> IsGroup(edges, groups[k])
  }

  ghost predicate AllInside(groups: seq<seq<string>>, s: set<string>) {
    forall k :: 0 <= k < |groups| ==> Inside(groups[k], s)
  }

  lemma GroupAppend(edges: Edges, groups: seq<seq<string>>, g: seq<string>)
    requires EachIsGroup(edges, groups) && IsGroup(edges, g)
    ensures EachIsGroup(edges, groups + [g])
  {
  }

  ghost predicate PairwiseDisjoint(groups: seq<seq<string>>) {
    forall k, l :: 0 <= k < l < |groups| ==> Disjoint(groups[k], groups[l])
  }

  lemma DisjointAppend(groups: seq<seq<string>>, g: seq<string>)
    requires PairwiseDisjoint(groups) && forall k :: 0 <= k < |groups| ==> Disjoint(groups[k], g)
    ensures PairwiseDisjoint(groups + [g])
  {
  }

  /** Whoever was seen and is linked to somebody else has a group. */
  ghost predicate Covered(edges: Edges, seen: set<string>, groups: seq<seq<string>>) {
    forall a, b :: a in seen && a != b && Linked(edges, a, b) ==> InSome(groups, a)
  }

  /** What is settled after the first n roots. */
  ghost predicate Settled(edges: Edges, roots: seq<string>, n: nat, seen: set<string>, groups: seq<seq<string>>)
    requires n <= |roots|
  {
    && (forall i :: 0 <= i < n ==> roots[i] in seen)
    && Closed(edges, seen) && AllGroups(edges, seen, groups) && Covered(edges, seen, groups)
  }

  function Extended(groups: seq<seq<string>>, component: set<string>): seq<seq<string>> {
    if |component| > 1 then groups + [Sorted(component)] else groups
  }

  lemma CloseMore(edges: Edges, seen: set<string>, node: string, component: set<string>)
    requires Closed(edges, seen) && node !in seen
    requires forall x :: x in component <==> Linked(edges, node, x)
    ensures Closed(edges, seen + component)
    ensures forall x :: x in component ==> x !in seen
  {
    forall a, b | a in component && Linked(edges, a, b) ensures b in component {
      LinkedTrans(edges, node, a, b);
    }
    forall a | a in component ensures a !in seen {
      LinkedSym(edges, node, a);
    }
  }

  lemma MoreGroups(edges: Edges, seen: set<string>, groups: seq<seq<string>>, node: string, component: set<string>)
    requires AllGroups(edges, seen, groups)
    requires forall x :: x in component <==> Linked(edges, node, x)
    requires forall x :: x in component ==> x !in seen
    ensures AllGroups(edges, seen + component, Extended(groups, component))
  {
    WidenInside(groups, seen, component);
    if |component| > 1 {
      var g := Sorted(component);
      ComponentIsGroup(edges, node, component);
      GroupAppend(edges, groups, g);
      assert Inside(g, seen + component);
      forall k | 0 <= k < |groups| ensures Disjoint(groups[k], g) {
        assert Inside(groups[k], seen);
      }
      DisjointAppend(groups, g);
    }
  }

  lemma WidenInside(groups: seq<seq<string>>, seen: set<string>, component: set<string>)
    requires AllInside(groups, seen)
    ensures AllInside(groups, seen + component)
  {
    forall k | 0 <= k < |groups| ensures Inside(groups[k], seen + component) {
      assert Inside(groups[k], seen);
    }
  }

  lemma CoverMore(edges: Edges, seen: set<string>, groups: seq<seq<string>>, node: string, component: set<string>)
    requires Covered(edges, seen, groups)
    requires forall x :: x in component <==> Linked(edges, node, x)
    ensures Covered(edges, seen + component, Extended(groups, component))
  {
    var more := Extended(groups, component);
    forall a, b | a in seen + component && a != b && Linked(edges, a, b) ensures InSome(more, a) {
      if a in seen {
        var k :| 0 <= k < |groups| && a in groups[k];
        assert a in more[k];
      } else {
        LinkedTrans(edges, node, a, b);
        TwoMembers(component, a, b);
        assert a in more[|groups|];
      }
    }
  }

  lemma SettleOne(
    edges: Edges, roots: seq<string>, n: nat, seen: set<string>, groups: seq<seq<string>>, component: set<string>)
    requires n < |roots| && Settled(edges, roots, n, seen, groups) && roots[n] !in seen
    requires forall x :: x in component <==> Linked(edges, roots[n], x)
    ensures Settled(edges, roots, n + 1, seen + component, Extended(groups, component))
  {
    LinkedRefl(edges, roots[n]);
    CloseMore(edges, seen, roots[n], component);
    MoreGroups(edges, seen, groups, roots[n], component);
    CoverMore(edges, seen, groups, roots[n], component);
  }

  lemma TwoMembers(s: set<string>, a: string, b: string)
    requires a in s && b in s && a != b
    ensures |s| > 1
  {
    assert s - {a} - {b} < s;
    assert |s| == |s - {a}| + 1 && |s - {a}| == |s - {a} - {b}| + 1;
  }

  /** Two names share a group. */
  ghost predicate Together(groups: seq<seq<string>>, a: string, b: string) {
    exists k :: 0 <= k < |groups| && a in groups[k] && b in groups[k]
  }

  ghost predicate StartsBelow(g: seq<string>, roots: seq<string>, n: nat)
    requires n <= |roots|
  {
    g != [] && exists i :: 0 <= i < n && roots[i] == g[0]
  }

  ghost predicate Before(g: seq<string>, h: seq<string>) {
    g != [] && h != [] && LexLeq(g[0], h[0])
  }

  /** Each group starts with one of the first n roots, in their order. */
  ghost predicate InRootOrder(groups: seq<seq<string>>, roots: seq<string>, n: nat)
    requires n <= |roots|
  {
    && (forall k :: 0 <= k < |groups| ==> StartsBelow(groups[k], roots, n))
    && (forall k, l :: 0 <= k < l < |groups| ==> Before(groups[k], groups[l]))
  }

  /** A root not seen before is the least of its component. */
  lemma LeastOfComponent(
    mutual: map<string, set<string>>, edges: Edges, roots: seq<string>, n: nat, seen: set<string>, component: set<string>)
    requires Partners(mutual, edges) && roots == Sorted(mutual.Keys) && n < |roots| && roots[n] !in seen
    requires (forall i :: 0 <= i < n ==> roots[i] in seen) && Closed(edges, seen)
    requires |component| > 1 && forall x :: x in component <==> Linked(edges, roots[n], x)
    ensures Sorted(component)[0] == roots[n]
  {
    CloseMore(edges, seen, roots[n], component);
    LinkedRefl(edges, roots[n]);
    var least := Sorted(component)[0];
    assert least in Sorted(component);
    if least != roots[n] {
      LinkedSym(edges, roots[n], least);
      var path :| Connects(edges, path, least, roots[n]);
      assert Mutual(edges, path[0], path[1]);
      assert least in roots;
      var j :| 0 <= j < |roots| && roots[j] == least;
      assert j > n;
      var i :| 0 <= i < |Sorted(component)| && Sorted(component)[i] == roots[n];
      LexTotal(least, roots[n]);
      assert false;
    }
  }

  lemma FirstIsRoot(
    mutual: map<string, set<string>>, edges: Edges, roots: seq<string>, n: nat, seen: set<string>,
    groups: seq<seq<string>>, component: set<string>)
    requires Partners(mutual, edges) && roots == Sorted(mutual.Keys) && n < |roots| && roots[n] !in seen
    requires (forall i :: 0 <= i < n ==> roots[i] in seen) && Closed(edges, seen) && InRootOrder(groups, roots, n)
    requires forall x :: x in component <==> Linked(edges, roots[n], x)
    ensures InRootOrder(Extended(groups, component), roots, n + 1)
  {
    OrderGrows(groups, roots, n);
    if |component| > 1 {
      LeastOfComponent(mutual, edges, roots, n, seen, component);
      OrderAppends(groups, Sorted(component), roots, n);
    }
  }

  lemma OrderGrows(groups: seq<seq<string>>, roots: seq<string>, n: nat)
    requires n < |roots| && InRootOrder(groups, roots, n)
    ensures InRootOrder(groups, roots, n + 1)
  {
    forall k | 0 <= k < |groups| ensures StartsBelow(groups[k], roots, n + 1) {
      assert StartsBelow(groups[k], roots, n);
    }
  }

  lemma OrderAppends(groups: seq<seq<string>>, g: seq<string>, roots: seq<string>, n: nat)
    requires n < |roots| && InRootOrder(groups, roots, n) && StrictlySorted(roots)
    requires g != [] && g[0] == roots[n]
    ensures InRootOrder(groups + [g], roots, n + 1)
  {
    OrderGrows(groups, roots, n);
    assert StartsBelow(g, roots, n + 1);
    forall k | 0 <= k < |groups| ensures Before(groups[k], g) {
      assert StartsBelow(groups[k], roots, n);
    }
  }

  lemma SkipSeen(edges: Edges, roots: seq<string>, n: nat, seen: set<string>, groups: seq<seq<string>>)
    requires n < |roots| && roots[n] in seen && Settled(edges, roots, n, seen, groups) && InRootOrder(groups, roots, n)
    ensures Settled(edges, roots, n + 1, seen, groups) && InRootOrder(groups, roots, n + 1)
  {
    OrderGrows(groups, roots, n);
  }

  /**
   `_mutual_groups`: two different workloads share a group exactly when a chain of mutual
   calls links them; the groups are disjoint, and listed by their first names.
   */
  method FindGroups(edges: Edges) returns (groups: seq<seq<string>>)
    ensures EachIsGroup(edges, groups)
    ensures forall k, l :: 0 <= k < l < |groups| ==> Before(groups[k], groups[l])
    ensures PairwiseDisjoint(groups)
    ensures forall a, b :: a != b ==> (Together(groups, a, b) <==> Linked(edges, a, b))
  {
    var mutual := CollectPartners(edges);
    var roots := Sorted(mutual.Keys);
    var seen: set<string> := {};
    groups := [];
    for n := 0 to |roots|
      invariant Settled(edges, roots, n, seen, groups) && InRootOrder(groups, roots, n)
    {
      seen, groups := VisitRoot(mutual, edges, roots, n, seen, groups);
    }
    SettledAnswers(mutual, edges, roots, seen, groups);
  }

  method VisitRoot(
    mutual: map<string, set<string>>, ghost edges: Edges, roots: seq<string>, n: nat, before: set<string>,
    found: seq<seq<string>>)
    returns (seen: set<string>, groups: seq<seq<string>>)
    requires Partners(mutual, edges) && roots == Sorted(mutual.Keys) && n < |roots|
    requires Settled(edges, roots, n, before, found) && InRootOrder(found, roots, n)
    ensures Settled(edges, roots, n + 1, seen, groups) && InRootOrder(groups, roots, n + 1)
  {
    if roots[n] in before {
      SkipSeen(edges, roots, n, before, found);
      return before, found;
    }
    assert roots[n] in roots;
    var component := Component(mutual, edges, roots[n]);
    SettleOne(edges, roots, n, before, found, component);
    FirstIsRoot(mutual, edges, roots, n, before, found, component);
    seen, groups := before + component, Extended(found, component);
  }

  lemma SettledAnswers(
    mutual: map<string, set<string>>, edges: Edges, roots: seq<string>, seen: set<string>, groups: seq<seq<string>>)
    requires Partners(mutual, edges) && roots == Sorted(mutual.Keys)
    requires Settled(edges, roots, |roots|, seen, groups)
    ensures forall a, b :: a != b ==> (Together(groups, a, b) <==> Linked(edges, a, b))
  {
    forall a, b | a != b && Linked(edges, a, b) ensures Together(groups, a, b) {
      var path :| Connects(edges, path, a, b);
      assert Mutual(edges, path[0], path[1]);
      assert a in roots;
      assert InSome(groups, a);
      var k :| 0 <= k < |groups| && a in groups[k];
      assert IsGroup(edges, groups[k]);
    }
    forall a, b | a != b && Together(groups, a, b) ensures Linked(edges, a, b) {
      var k :| 0 <= k < |groups| && a in groups[k] && b in groups[k];
      assert IsGroup(edges, groups[k]);
    }
  }
}
