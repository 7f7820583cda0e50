/** Amounts grouped under tags: the groups together hold everything that has a tag. */
module Tagged {
  import opened Options
  import opened Sorting

  /** Of the first n amounts, those under tag k. */
  function SumOf<K(==)>(tags: seq<Option<K>>, amounts: seq<int>, k: K, n: nat): int
    requires n <= |tags| == |amounts|
  {
    if n == 0 then 0 else SumOf(tags, amounts, k, n - 1) + if tags[n - 1] == Some(k) then amounts[n - 1] else 0
  }

  /** Of the first n amounts, those under any tag. */
  function SumAll<K(==)>(tags: seq<Option<K>>, amounts: seq<int>, n: nat): int
    requires n <= |tags| == |amounts|
  {
    if n == 0 then 0 else SumAll(tags, amounts, n - 1) + if tags[n - 1].Some? then amounts[n - 1] else 0
  }

  function SumKeys<K(==)>(keys: seq<K>, tags: seq<Option<K>>, amounts: seq<int>, n: nat): int
    requires n <= |tags| == |amounts|
  {
    if keys == [] then 0 else SumKeys(keys[..|keys| - 1], tags, amounts, n) + SumOf(tags, amounts, keys[|keys| - 1], n)
  }

  lemma {:induction false} SumKeysZero<K>(keys: seq<K>, tags: seq<Option<K>>, amounts: seq<int>)
    requires |tags| == |amounts|
    ensures SumKeys(keys, tags, amounts, 0) == 0
  {
    if keys != [] {
      SumKeysZero(keys[..|keys| - 1], tags, amounts);
    }
  }

  /** One more amount enters the total of its own key only. */
  lemma {:induction false} SumKeysStep<K>(keys: seq<K>, tags: seq<Option<K>>, amounts: seq<int>, n: nat)
    requires n < |tags| == |amounts| && NoDuplicates(keys)
    ensures SumKeys(keys, tags, amounts, n + 1) == SumKeys(keys, tags, amounts, n)
      + if tags[n].Some? && tags[n].value in keys then amounts[n] else 0
  {
    if keys != [] {
      var rest, last := keys[..|keys| - 1], keys[|keys| - 1];
      SumKeysStep(rest, tags, amounts, n);
      assert keys == rest + [last] && last !in rest;
    }
  }

  /** Listing every tag once loses nothing and counts nothing twice. */
  lemma {:induction false} Conserved<K>(keys: seq<K>, tags: seq<Option<K>>, amounts: seq<int>, n: nat)
    requires n <= |tags| == |amounts| && NoDuplicates(keys)
    requires forall i :: 0 <= i < |tags| && tags[i].Some? ==> tags[i].value in keys
    ensures SumKeys(keys, tags, amounts, n) == SumAll(tags, amounts, n)
  {
    if n == 0 {
      SumKeysZero(keys, tags, amounts);
    } else {
      Conserved(keys, tags, amounts, n - 1);
      SumKeysStep(keys, tags, amounts, n - 1);
    }
  }
}
