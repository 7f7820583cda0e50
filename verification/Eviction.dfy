/**
 What both bounded tables do when they are full: drop the quarter of the entries that are
 oldest by some date. Works on each entry's date alone.
 */
module Eviction {
  import opened Sorting

  type Dates = map<string, real>

  /** Only some of the oldest are missing. */
  ghost predicate DropsOldest(dates: Dates, kept: set<string>, count: nat) {
    && kept <= dates.Keys && |kept| + count == |dates|
    && forall d, k :: d in dates && d !in kept && k in kept ==> dates[d] <= dates[k]
  }

  datatype Dated = Dated(key: string, date: real)

  predicate DateLeq(a: Dated, b: Dated) {
    a.date <= b.date
  }

  /** A table's keys, oldest first. */
  method ByDate(m: Dates) returns (ordered: seq<Dated>)
    ensures Ordered(ordered, DateLeq) && NoDuplicates(ordered)
    ensures forall x :: x in ordered <==> x.key in m && x.date == m[x.key]
  {
    var keys := Enumerate(m.Keys);
    var items := seq(|keys|, i requires 0 <= i < |keys| => assert keys[i] in keys; Dated(keys[i], m[keys[i]]));
    ordered := SortBy(items, DateLeq);
    SortSorts(items, DateLeq);
    PermutedMembers(items, ordered);
    PermutedDistinct(items, ordered);
    forall x ensures x in items <==> x.key in m && x.date == m[x.key] {
      if x.key in m && x.date == m[x.key] {
        assert x.key in keys;
        var i :| 0 <= i < |keys| && keys[i] == x.key;
        assert items[i] == x;
      }
    }
  }

  /** The keys of a prefix of the entries. */
  ghost function FirstKeys(ordered: seq<Dated>, n: nat): set<string>
    requires n <= |ordered|
  {
    set i | 0 <= i < n :: ordered[i].key
  }

  lemma {:induction false} FirstKeysCount(ordered: seq<Dated>, n: nat)
    requires n <= |ordered|
    requires forall i, j :: 0 <= i < j < |ordered| ==> ordered[i].key != ordered[j].key
    ensures |FirstKeys(ordered, n)| == n
  {
    if n > 0 {
      FirstKeysCount(ordered, n - 1);
      assert FirstKeys(ordered, n) == FirstKeys(ordered, n - 1) + {ordered[n - 1].key};
    }
  }

  /** Every key once, oldest first. */
  ghost predicate IsOrder(ordered: seq<Dated>, m: Dates) {
    && FirstKeys(ordered, |ordered|) == m.Keys && |ordered| == |m|
    && (forall i, j :: 0 <= i < j < |ordered| ==> ordered[i].key != ordered[j].key)
    && (forall i :: 0 <= i < |ordered| ==> ordered[i].key in m && ordered[i].date == m[ordered[i].key])
    && Ordered(ordered, DateLeq)
  }

  lemma ListingOrders(ordered: seq<Dated>, m: Dates)
    requires Ordered(ordered, DateLeq) && NoDuplicates(ordered)
    requires forall x :: x in ordered <==> x.key in m && x.date == m[x.key]
    ensures IsOrder(ordered, m)
  {
    forall i | 0 <= i < |ordered| ensures ordered[i].key in m && ordered[i].date == m[ordered[i].key] {
      assert ordered[i] in ordered;
    }
    forall i, j | 0 <= i < j < |ordered| ensures ordered[i].key != ordered[j].key {
      assert ordered[i] != ordered[j];
    }
    forall k | k in m ensures k in FirstKeys(ordered, |ordered|) {
      assert Dated(k, m[k]) in ordered;
    }
    assert FirstKeys(ordered, |ordered|) == m.Keys;
    FirstKeysCount(ordered, |ordered|);
    assert |m| == |m.Keys|;
  }

  /** Which keys stay when the oldest quarter goes. */
  method DropOldest(m: Dates) returns (kept: set<string>)
    ensures DropsOldest(m, kept, |m| / 4)
  {
    var ordered := ByDate(m);
    ListingOrders(ordered, m);
    kept := RemoveFirst(m, ordered, |m| / 4);
    CountLeft(m, ordered, |m| / 4);
    OldestGone(m, ordered, |m| / 4);
  }

  method RemoveFirst(m: Dates, ordered: seq<Dated>, count: nat) returns (kept: set<string>)
    requires count <= |ordered|
    ensures kept == m.Keys - FirstKeys(ordered, count)
  {
    kept := m.Keys;
    for n := 0 to count
      invariant kept == m.Keys - FirstKeys(ordered, n)
    {
      assert FirstKeys(ordered, n + 1) == FirstKeys(ordered, n) + {ordered[n].key};
      kept := kept - {ordered[n].key};
    }
  }

  lemma CountLeft(m: Dates, ordered: seq<Dated>, n: nat)
    requires IsOrder(ordered, m) && n <= |ordered|
    ensures |m.Keys - FirstKeys(ordered, n)| + n == |m|
  {
    FirstKeysCount(ordered, n);
    assert FirstKeys(ordered, n) <= FirstKeys(ordered, |ordered|);
    assert |m| == |m.Keys|;
  }

  lemma OldestGone(m: Dates, ordered: seq<Dated>, n: nat)
    requires IsOrder(ordered, m) && n <= |ordered|
    ensures forall d, k :: d in m && k in m && d in FirstKeys(ordered, n) && k !in FirstKeys(ordered, n) ==>
      m[d] <= m[k]
  {
    forall d, k | d in m && k in m && d in FirstKeys(ordered, n) && k !in FirstKeys(ordered, n)
      ensures m[d] <= m[k]
    {
      var i :| 0 <= i < n && ordered[i].key == d;
      assert k in FirstKeys(ordered, |ordered|);
      var j :| 0 <= j < |ordered| && ordered[j].key == k;
      assert j >= n;
      assert DateLeq(ordered[i], ordered[j]);
    }
  }

  lemma SmallerSet<T>(a: set<T>, b: set<T>)
    requires a <= b
    ensures |a| <= |b|
  {
    assert b == a + (b - a);
  }
}
