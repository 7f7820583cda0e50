/** Totals over the values of a finite map, and how an update changes them. */
module Sums {

  ghost function Sum<K>(m: map<K, nat>): nat
  {
    SumOver(m, m.Keys)
  }

  ghost function SumOver<K>(m: map<K, nat>, keys: set<K>): nat
    requires keys <= m.Keys
  {
    if keys == {} then 0
    else
      var k :| k in keys;
      m[k] + SumOver(m, keys - {k})
  }

  lemma {:induction false} SumPick<K>(m: map<K, nat>, keys: set<K>, k: K)
    requires k in keys && keys <= m.Keys
    ensures SumOver(m, keys) == m[k] + SumOver(m, keys - {k})
    decreases keys
  {
    var j :| j in keys && SumOver(m, keys) == m[j] + SumOver(m, keys - {j});
    if j != k {
      SumPick(m, keys - {j}, k);
      SumPick(m, keys - {k}, j);
      assert keys - {j} - {k} == keys - {k} - {j};
    }
  }

  /** Maps that agree on `keys` have the same total there. */
  lemma {:induction false} SumFrame<K>(m: map<K, nat>, m': map<K, nat>, keys: set<K>)
    requires keys <= m.Keys && keys <= m'.Keys
    requires forall k :: k in keys ==> m[k] == m'[k]
    ensures SumOver(m, keys) == SumOver(m', keys)
    decreases keys
  {
    if keys != {} {
      var k :| k in keys;
      SumPick(m, keys, k);
      SumPick(m', keys, k);
      SumFrame(m, m', keys - {k});
    }
  }

  lemma SumUpdate<K>(m: map<K, nat>, k: K, v: nat)
    requires k in m
    ensures Sum(m[k := v]) == Sum(m) - m[k] + v
  {
    var m' := m[k := v];
    assert m'.Keys == m.Keys;
    SumPick(m, m.Keys, k);
    SumPick(m', m.Keys, k);
    SumFrame(m, m', m.Keys - {k});
  }

  lemma {:induction false} SumZero<K>(m: map<K, nat>, keys: set<K>)
    requires keys <= m.Keys
    ensures SumOver(m, keys) == 0 <==> forall k :: k in keys ==> m[k] == 0
    decreases keys
  {
    if keys != {} {
      var k :| k in keys;
      SumPick(m, keys, k);
      SumZero(m, keys - {k});
      assert forall j :: j in keys ==> j == k || j in keys - {k};
    }
  }

  /** Raising some values by one raises the total by their number. */
  lemma {:induction false} SumRaised<K>(m: map<K, nat>, m': map<K, nat>, keys: set<K>, raised: set<K>)
    requires keys <= m.Keys && keys <= m'.Keys
    requires forall k :: k in keys ==> m'[k] == m[k] + if k in raised then 1 else 0
    ensures SumOver(m', keys) == SumOver(m, keys) + |raised * keys|
    decreases keys
  {
    if keys != {} {
      var k :| k in keys;
      SumPick(m, keys, k);
      SumPick(m', keys, k);
      SumRaised(m, m', keys - {k}, raised);
      OneMore(raised, keys, k);
    }
  }

  lemma OneMore<K>(raised: set<K>, keys: set<K>, k: K)
    requires k in keys
    ensures |raised * keys| == |raised * (keys - {k})| + if k in raised then 1 else 0
  {
    if k in raised {
      assert raised * keys == raised * (keys - {k}) + {k};
    } else {
      assert raised * keys == raised * (keys - {k});
    }
  }
}
