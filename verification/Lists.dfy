/** Lists built by appending, and what is in them. */
module Lists {

  lemma InConcat<T>(a: seq<T>, b: seq<T>, x: T)
    ensures x in a + b <==> x in a || x in b
  {
  }

  /** Positions in order, each once. */
  predicate Increasing(at: seq<nat>) {
    forall a, b :: 0 <= a < b < |at| ==> at[a] < at[b]
  }

  lemma IncreasingStep(at: seq<nat>, n: nat)
    requires Increasing(at) && forall i :: i in at ==> i < n
    ensures Increasing(at + [n]) && forall i :: i in at + [n] <==> i in at || i == n
  {
    assert forall a :: 0 <= a < |at| ==> at[a] in at;
  }

  /** Increasing positions are determined by which they are. */
  lemma {:induction false} IncreasingUnique(at: seq<nat>, other: seq<nat>)
    requires Increasing(at) && Increasing(other) && forall i :: i in at <==> i in other
    ensures at == other
  {
    if at != [] && other != [] {
      LastIsLargest(at);
      LastIsLargest(other);
      assert at[|at| - 1] in other && other[|other| - 1] in at;
      var init, init' := at[..|at| - 1], other[..|other| - 1];
      forall i ensures i in init <==> i in init' {
        assert i in init <==> i in at && i != at[|at| - 1];
        assert i in init' <==> i in other && i != other[|other| - 1];
      }
      IncreasingUnique(init, init');
      assert at == init + [at[|at| - 1]] && other == init' + [other[|other| - 1]];
    } else {
      EmptyIff(at);
      EmptyIff(other);
    }
  }

  lemma EmptyIff(at: seq<nat>)
    ensures at == [] <==> forall i :: i !in at
  {
    if |at| > 0 {
      assert at[0] in at;
    }
  }

  lemma LastIsLargest(at: seq<nat>)
    requires Increasing(at) && at != []
    ensures forall i :: i in at ==> i <= at[|at| - 1]
    ensures forall i :: i in at[..|at| - 1] <==> i in at && i != at[|at| - 1]
  {
    var init, last := at[..|at| - 1], at[|at| - 1];
    assert at == init + [last];
    forall i | i in init ensures i < last {
      var a :| 0 <= a < |init| && init[a] == i;
      assert at[a] < at[|at| - 1];
    }
  }

  /** The first n parts, one after the other. */
  function Flatten<T>(parts: seq<seq<T>>, n: nat): seq<T>
    requires n <= |parts|
  {
    if n == 0 then [] else Flatten(parts, n - 1) + parts[n - 1]
  }

  lemma {:induction false} InFlatten<T>(parts: seq<seq<T>>, n: nat, x: T)
    requires n <= |parts|
    ensures x in Flatten(parts, n) <==> exists k :: 0 <= k < n && x in parts[k]
  {
    if n > 0 {
      InFlatten(parts, n - 1, x);
      InConcat(Flatten(parts, n - 1), parts[n - 1], x);
    }
  }
}
