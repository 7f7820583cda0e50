/** Python's stable `sorted` with a key, over any order; and a set's elements in some order. */
module Sorting {

  ghost predicate TotalOrder<T(!new)>(leq: (T, T) -> bool) {
    && (forall a, b :: leq(a, b) || leq(b, a))
    && (forall a, b, c :: leq(a, b) && leq(b, c) ==> leq(a, c))
  }

  ghost predicate Ordered<T>(s: seq<T>, leq: (T, T) -> bool) {
    forall i, j :: 0 <= i < j < |s| ==> leq(s[i], s[j])
  }

  ghost predicate NoDuplicates<T>(s: seq<T>) {
    forall i, j :: 0 <= i < j < |s| ==> s[i] != s[j]
  }

  /** After the last element not above it. */
  function Insert<T>(s: seq<T>, x: T, leq: (T, T) -> bool): (r: seq<T>) {
    if s == [] || leq(s[|s| - 1], x) then s + [x]
    else Insert(s[..|s| - 1], x, leq) + [s[|s| - 1]]
  }

  function SortBy<T>(s: seq<T>, leq: (T, T) -> bool): (r: seq<T>) {
    if s == [] then [] else Insert(SortBy(s[..|s| - 1], leq), s[|s| - 1], leq)
  }

  lemma {:induction false} InsertPermutes<T>(s: seq<T>, x: T, leq: (T, T) -> bool)
    ensures multiset(Insert(s, x, leq)) == multiset(s) + multiset{x}
  {
    if s != [] && !leq(s[|s| - 1], x) {
      InsertPermutes(s[..|s| - 1], x, leq);
      assert s == s[..|s| - 1] + [s[|s| - 1]];
    }
  }

  lemma {:induction false} InsertOrdered<T(!new)>(s: seq<T>, x: T, leq: (T, T) -> bool)
    requires TotalOrder(leq) && Ordered(s, leq)
    ensures Ordered(Insert(s, x, leq), leq)
  {
    if s != [] && !leq(s[|s| - 1], x) {
      var rest, last := s[..|s| - 1], s[|s| - 1];
      InsertOrdered(rest, x, leq);
      InsertPermutes(rest, x, leq);
      var r := Insert(rest, x, leq);
      forall k | 0 <= k < |r| ensures leq(r[k], last) {
        assert r[k] in multiset(rest) + multiset{x};
        assert r[k] == x || r[k] in rest;
      }
    }
  }

  /** Sorting rearranges, and puts in order. */
  lemma {:induction false} SortSorts<T(!new)>(s: seq<T>, leq: (T, T) -> bool)
    requires TotalOrder(leq)
    ensures Ordered(SortBy(s, leq), leq)
    ensures multiset(SortBy(s, leq)) == multiset(s)
  {
    if s != [] {
      var rest := s[..|s| - 1];
      SortSorts(rest, leq);
      InsertOrdered(SortBy(rest, leq), s[|s| - 1], leq);
      InsertPermutes(SortBy(rest, leq), s[|s| - 1], leq);
      assert s == rest + [s[|s| - 1]];
    }
  }

  /** Whoever is no worse than a neighbour came no later. */
  ghost predicate Stable<T>(s: seq<T>, leq: (T, T) -> bool, came: (T, T) -> bool) {
    forall i, j :: 0 <= i < j < |s| && leq(s[j], s[i]) ==> came(s[i], s[j])
  }

  lemma {:induction false} InsertStable<T(!new)>(s: seq<T>, x: T, leq: (T, T) -> bool, came: (T, T) -> bool)
    requires TotalOrder(leq) && Ordered(s, leq) && Stable(s, leq, came)
    requires forall y :: y in s ==> came(y, x)
    ensures Stable(Insert(s, x, leq), leq, came)
  {
    if s != [] && !leq(s[|s| - 1], x) {
      var rest, last := s[..|s| - 1], s[|s| - 1];
      InsertStable(rest, x, leq, came);
      InsertPermutes(rest, x, leq);
      var r := Insert(rest, x, leq);
      forall k | 0 <= k < |r| && leq(last, r[k]) ensures came(r[k], last) {
        assert r[k] in multiset(rest) + multiset{x};
        assert r[k] in rest;
      }
    }
  }

  /** Sorting leaves ties in the order they came in. */
  lemma {:induction false} SortStable<T(!new)>(s: seq<T>, leq: (T, T) -> bool, came: (T, T) -> bool)
    requires TotalOrder(leq) && Ordered(s, came)
    ensures Stable(SortBy(s, leq), leq, came)
  {
    if s != [] {
      var rest, last := s[..|s| - 1], s[|s| - 1];
      SortStable(rest, leq, came);
      SortSorts(rest, leq);
      PermutedMembers(rest, SortBy(rest, leq));
      InsertStable(SortBy(rest, leq), last, leq, came);
    }
  }

  lemma PermutedMembers<T>(s: seq<T>, r: seq<T>)
    requires multiset(s) == multiset(r)
    ensures |s| == |r| && forall x :: x in s <==> x in r
  {
    assert |s| == |multiset(s)| == |multiset(r)| == |r|;
    forall x ensures x in s <==> x in r {
      assert x in s <==> x in multiset(s);
      assert x in r <==> x in multiset(r);
    }
  }

  lemma DistinctIffCounts<T>(s: seq<T>)
    ensures NoDuplicates(s) <==> forall x :: multiset(s)[x] <= 1
  {
    if !NoDuplicates(s) {
      var i, j :| 0 <= i < j < |s| && s[i] == s[j];
      assert s == s[..j] + s[j..];
      assert s[..j][i] == s[i] && s[j..][0] == s[i];
      assert multiset(s)[s[i]] == multiset(s[..j])[s[i]] + multiset(s[j..])[s[i]];
      assert s[i] in multiset(s[..j]) && s[i] in multiset(s[j..]);
    } else {
      forall x ensures multiset(s)[x] <= 1 {
        CountsOnce(s, x);
      }
    }
  }

  lemma {:induction false} CountsOnce<T>(s: seq<T>, x: T)
    requires NoDuplicates(s)
    ensures multiset(s)[x] <= 1
  {
    if s != [] {
      var rest := s[..|s| - 1];
      CountsOnce(rest, x);
      assert s == rest + [s[|s| - 1]];
      if s[|s| - 1] == x {
        assert x !in rest;
        assert x !in multiset(rest);
      }
    }
  }

  lemma PermutedDistinct<T>(s: seq<T>, r: seq<T>)
    requires multiset(s) == multiset(r) && NoDuplicates(s)
    ensures NoDuplicates(r)
  {
    DistinctIffCounts(s);
    DistinctIffCounts(r);
  }

  /** A set's elements, each once, in no order the caller may rely on. */
  method Enumerate<T(==)>(s: set<T>) returns (r: seq<T>)
    ensures NoDuplicates(r)
    ensures forall x :: x in r <==> x in s
  {
    r := [];
    var rest := s;
    while rest != {}
      invariant rest <= s && NoDuplicates(r)
      invariant forall x :: x in r <==> x in s && x !in rest
      decreases rest
    {
      var x :| x in rest;
      r := r + [x];
      rest := rest - {x};
    }
  }

  /** A set's elements in order. */
  method SortSet<T(==,!new)>(s: set<T>, leq: (T, T) -> bool) returns (r: seq<T>)
    requires TotalOrder(leq)
    ensures NoDuplicates(r) && Ordered(r, leq)
    ensures forall x :: x in r <==> x in s
  {
    var items := Enumerate(s);
    r := SortBy(items, leq);
    SortSorts(items, leq);
    PermutedMembers(items, r);
    PermutedDistinct(items, r);
  }
}
