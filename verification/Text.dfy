/**
 The pieces of Python's string library the planner leans on: code-point order,
 `sorted` of a set, decimal rendering, whitespace, and the search for an unused name.
 */
module Text {

  // ---------- order ----------

  /** Code-point order on strings, as `<=` on Python's `str`. */
  predicate LexLeq(a: string, b: string) {
    if a == "" then true
    else if b == "" then false
    else if a[0] == b[0] then LexLeq(a[1..], b[1..])
    else a[0] < b[0]
  }

  lemma {:induction false} LexTotal(a: string, b: string)
    ensures LexLeq(a, b) || LexLeq(b, a)
    ensures LexLeq(a, b) && LexLeq(b, a) ==> a == b
  {
    if a != "" && b != "" && a[0] == b[0] {
      LexTotal(a[1..], b[1..]);
      assert a == [a[0]] + a[1..] && b == [b[0]] + b[1..];
    }
  }

  lemma {:induction false} LexTransitive(a: string, b: string, c: string)
    requires LexLeq(a, b) && LexLeq(b, c)
    ensures LexLeq(a, c)
  {
    if a != "" && a[0] == b[0] && b[0] == c[0] {
      LexTransitive(a[1..], b[1..], c[1..]);
    }
  }

  /** The first difference is at k, and a has the lower character there. */
  ghost predicate LowerAt(a: string, b: string, k: nat) {
    k < |a| && k < |b| && a[..k] == b[..k] && a[k] < b[k]
  }

  /** A prefix comes first, and else the first difference decides. */
  lemma {:induction false} LexLeqIff(a: string, b: string)
    ensures LexLeq(a, b) <==> a <= b || exists k: nat :: LowerAt(a, b, k)
  {
    if a != "" && b != "" {
      if a[0] == b[0] {
        LexLeqIff(a[1..], b[1..]);
        SameHead(a, b);
      } else {
        assert a[..0] == b[..0];
        assert a[0] < b[0] ==> LowerAt(a, b, 0);
      }
    }
  }

  lemma SameHead(a: string, b: string)
    requires a != "" && b != "" && a[0] == b[0]
    ensures a <= b <==> a[1..] <= b[1..]
    ensures (exists k: nat :: LowerAt(a, b, k)) <==> exists k: nat :: LowerAt(a[1..], b[1..], k)
  {
    assert a == [a[0]] + a[1..] && b == [b[0]] + b[1..];
    if k: nat :| LowerAt(a[1..], b[1..], k) {
      assert a[..k + 1] == [a[0]] + a[1..][..k] && b[..k + 1] == [b[0]] + b[1..][..k];
      assert LowerAt(a, b, k + 1);
    }
    if k: nat :| LowerAt(a, b, k) {
      assert a[1..][..k - 1] == a[..k][1..] && b[1..][..k - 1] == b[..k][1..];
      assert LowerAt(a[1..], b[1..], k - 1);
    }
  }

  predicate IsLeast(s: set<string>, m: string) {
    m in s && forall x :: x in s ==> LexLeq(m, x)
  }

  lemma {:induction false} LeastExists(s: set<string>)
    requires s != {}
    ensures exists m :: IsLeast(s, m)
    decreases s
  {
    var x :| x in s;
    if s == {x} {
      LexTotal(x, x);
      assert IsLeast(s, x);
    } else {
      LeastExists(s - {x});
      var y :| IsLeast(s - {x}, y);
      LexTotal(x, y);
      LexTotal(x, x);
      var m := if LexLeq(x, y) then x else y;
      forall z | z in s ensures LexLeq(m, z) {
        if z != x && m == x {
          LexTransitive(x, y, z);
        }
      }
      assert IsLeast(s, m);
    }
  }

  predicate StrictlySorted(r: seq<string>) {
    forall i, j :: 0 <= i < j < |r| ==> r[i] != r[j] && LexLeq(r[i], r[j])
  }

  /** `sorted(s)` for a set of strings. */
  function Sorted(s: set<string>): (r: seq<string>)
    ensures StrictlySorted(r)
    ensures forall x :: x in r <==> x in s
    ensures |r| == |s|
    decreases s
  {
    if s == {} then []
    else
      LeastExists(s);
      assert forall m, n :: IsLeast(s, m) && IsLeast(s, n) ==> m == n by {
        forall m, n | IsLeast(s, m) && IsLeast(s, n) ensures m == n {
          LexTotal(m, n);
        }
      }
      var m :| m in s && IsLeast(s, m);
      [m] + Sorted(s - {m})
  }

  // ---------- decimal ----------

  function Digit(n: nat): char
    requires n < 10
  {
    "0123456789"[n]
  }

  function Decimal(n: nat): (s: string)
    ensures s != ""
    ensures forall i :: 0 <= i < |s| ==> '0' <= s[i] <= '9'
  {
    if n < 10 then [Digit(n)] else Decimal(n / 10) + [Digit(n % 10)]
  }

  function DecimalValue(s: string): int {
    if s == "" then 0 else 10 * DecimalValue(s[..|s| - 1]) + (s[|s| - 1] as int - '0' as int)
  }

  lemma {:induction false} DecimalRoundTrip(n: nat)
    ensures DecimalValue(Decimal(n)) == n
  {
    if n >= 10 {
      DecimalRoundTrip(n / 10);
      var s := Decimal(n);
      assert s[..|s| - 1] == Decimal(n / 10);
    } else {
      assert Decimal(n)[..0] == "";
    }
  }

  /** Different suffixes make different names. */
  lemma SuffixInjective(prefix: string, m: nat, n: nat)
    requires prefix + Decimal(m) == prefix + Decimal(n)
    ensures m == n
  {
    assert (prefix + Decimal(m))[|prefix|..] == Decimal(m);
    assert (prefix + Decimal(n))[|prefix|..] == Decimal(n);
    DecimalRoundTrip(m);
    DecimalRoundTrip(n);
  }

  // ---------- unused names ----------

  /** The names `taken` holds from `prefix`N on, N >= start. */
  ghost function TakenFrom(taken: set<string>, prefix: string, start: nat): set<string> {
    set x | x in taken && exists n: nat :: start <= n && x == prefix + Decimal(n)
  }

  /** Past a taken number, fewer are left. */
  lemma TakenShrinks(taken: set<string>, prefix: string, n: nat)
    requires prefix + Decimal(n) in taken
    ensures TakenFrom(taken, prefix, n + 1) < TakenFrom(taken, prefix, n)
  {
    var used := prefix + Decimal(n);
    assert used in TakenFrom(taken, prefix, n);
    forall k: nat | n + 1 <= k ensures prefix + Decimal(k) != used {
      if prefix + Decimal(k) == used {
        SuffixInjective(prefix, k, n);
      }
    }
    assert used !in TakenFrom(taken, prefix, n + 1);
  }

  /** The first number from `start` on that is free. */
  ghost function LeastUnused(taken: set<string>, prefix: string, start: nat): nat
    decreases TakenFrom(taken, prefix, start)
  {
    if prefix + Decimal(start) in taken then
      TakenShrinks(taken, prefix, start);
      LeastUnused(taken, prefix, start + 1)
    else start
  }

  lemma {:induction false} UnusedExists(taken: set<string>, prefix: string, start: nat)
    ensures start <= LeastUnused(taken, prefix, start)
    ensures prefix + Decimal(LeastUnused(taken, prefix, start)) !in taken
    ensures forall k: nat :: start <= k < LeastUnused(taken, prefix, start) ==> prefix + Decimal(k) in taken
    decreases TakenFrom(taken, prefix, start)
  {
    if prefix + Decimal(start) in taken {
      TakenShrinks(taken, prefix, start);
      UnusedExists(taken, prefix, start + 1);
    }
  }

  /** The least N >= start such that `prefix`N is not taken; there always is one. */
  method FirstUnused(taken: set<string>, prefix: string, start: nat) returns (n: nat)
    ensures start <= n
    ensures prefix + Decimal(n) !in taken
    ensures forall k: nat :: start <= k < n ==> prefix + Decimal(k) in taken
  {
    n := start;
    while prefix + Decimal(n) in taken
      invariant start <= n
      invariant forall k: nat :: start <= k < n ==> prefix + Decimal(k) in taken
      decreases TakenFrom(taken, prefix, n)
    {
      TakenShrinks(taken, prefix, n);
      n := n + 1;
    }
  }

  // ---------- whitespace ----------

  /** `str.isspace`, which is also `\s` for `str` patterns. */
  predicate IsSpace(c: char) {
    || '\t' <= c <= '\r' || '\U{1c}' <= c <= ' ' || c == '\U{85}' || c == '\U{a0}' || c == '\U{1680}'
    || '\U{2000}' <= c <= '\U{200a}' || c == '\U{2028}' || c == '\U{2029}' || c == '\U{202f}'
    || c == '\U{205f}' || c == '\U{3000}'
  }

  function TrimLeft(s: string, drop: char -> bool): string {
    if s != "" && drop(s[0]) then TrimLeft(s[1..], drop) else s
  }

  function TrimRight(s: string, drop: char -> bool): string {
    if s != "" && drop(s[|s| - 1]) then TrimRight(s[..|s| - 1], drop) else s
  }

  /** `s.strip(chars)`. */
  function Trim(s: string, drop: char -> bool): string {
    TrimRight(TrimLeft(s, drop), drop)
  }

  /** Trimming leaves a piece of the string whose ends are kept characters. */
  lemma {:induction false} TrimLeftSlice(s: string, drop: char -> bool)
    ensures TrimLeft(s, drop) != "" ==> !drop(TrimLeft(s, drop)[0])
    ensures |TrimLeft(s, drop)| <= |s| && TrimLeft(s, drop) == s[|s| - |TrimLeft(s, drop)|..]
  {
    if s != "" && drop(s[0]) {
      TrimLeftSlice(s[1..], drop);
    }
  }

  lemma {:induction false} TrimRightSlice(s: string, drop: char -> bool)
    ensures TrimRight(s, drop) != "" ==> !drop(TrimRight(s, drop)[|TrimRight(s, drop)| - 1])
    ensures TrimRight(s, drop) <= s
  {
    if s != "" && drop(s[|s| - 1]) {
      TrimRightSlice(s[..|s| - 1], drop);
    }
  }

  /** A slice of `s` with kept ends, found `at` that offset. */
  lemma TrimSlice(s: string, drop: char -> bool) returns (at: nat)
    ensures at + |Trim(s, drop)| <= |s| && Trim(s, drop) == s[at..at + |Trim(s, drop)|]
    ensures Trim(s, drop) != "" ==> !drop(Trim(s, drop)[0]) && !drop(Trim(s, drop)[|Trim(s, drop)| - 1])
  {
    TrimLeftSlice(s, drop);
    TrimRightSlice(TrimLeft(s, drop), drop);
    at := |s| - |TrimLeft(s, drop)|;
  }

  lemma TrimKept(s: string, drop: char -> bool)
    requires s != "" ==> !drop(s[0]) && !drop(s[|s| - 1])
    ensures Trim(s, drop) == s
  {
  }
}
