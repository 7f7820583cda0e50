/**
 Identity in `normalize.py`: records collapse to one machine per identity, the first
 with the most disk, and machines that share a name are told apart by their own UUIDs.
 `lower` stands for `str.lower`; nothing is assumed of it.
 */
module Normalize {
  import opened Options
  import opened Text
  import opened Naming
  import opened Inventory
  import opened Namesakes
  import opened Sorting
  import opened Lists

  /** `_safe_str`: blank cells are absent, everything else is sanitized. */
  function SafeStr(value: Option<string>): Option<string> {
    if value.None? || Trim(value.value, IsSpace) == "" then None
    else Some(Sanitize(Trim(value.value, IsSpace)))
  }

  /** The machines of the records that have a name, in file order. */
  function Parsed(records: seq<Record>): seq<NormalizedVM> {
    if records == [] then []
    else
      var r := records[|records| - 1];
      var rest := Parsed(records[..|records| - 1]);
      if SafeStr(r.name).None? then rest
      else rest + [NormalizedVM(SafeStr(r.name).value, SafeStr(r.uuid), SafeStr(r.os), r.ips, r.hardware)]
  }

  /** Each cell of the record in its own field. */
  ghost predicate ReadFrom(vm: NormalizedVM, r: Record) {
    && SafeStr(r.name) == Some(vm.vmName) && vm.sourceUuid == SafeStr(r.uuid) && vm.os == SafeStr(r.os)
    && vm.ipAddresses == r.ips && vm.hardware == r.hardware
  }

  /** Where the named records are. */
  ghost predicate NamedAt(at: seq<nat>, records: seq<Record>) {
    Increasing(at) && forall i: nat :: i in at <==> i < |records| && SafeStr(records[i].name).Some?
  }

  ghost predicate CellsAt(vms: seq<NormalizedVM>, records: seq<Record>, at: seq<nat>) {
    |vms| == |at| && forall k :: 0 <= k < |at| ==> at[k] < |records| && ReadFrom(vms[k], records[at[k]])
  }

  /** One machine for each record that has a name, in file order. */
  ghost predicate ReadAll(vms: seq<NormalizedVM>, records: seq<Record>, at: seq<nat>) {
    NamedAt(at, records) && CellsAt(vms, records, at)
  }

  lemma {:induction false} ParsedReadsAll(records: seq<Record>) returns (at: seq<nat>)
    ensures ReadAll(Parsed(records), records, at)
  {
    if records == [] {
      at := [];
    } else {
      var rest, r := records[..|records| - 1], records[|records| - 1];
      at := ParsedReadsAll(rest);
      assert records == rest + [r];
      NamedStep(rest, r, at);
      if SafeStr(r.name).Some? {
        CellsAdded(Parsed(rest), Parsed(records)[|Parsed(rest)|], rest, r, at);
        at := at + [|rest|];
      } else {
        CellsKept(Parsed(rest), rest, r, at);
      }
    }
  }

  lemma {:induction false} NamedStep(records: seq<Record>, r: Record, at: seq<nat>)
    requires NamedAt(at, records)
    ensures NamedAt(if SafeStr(r.name).Some? then at + [|records|] else at, records + [r])
  {
    IncreasingStep(at, |records|);
    forall i: nat | i < |records| ensures (records + [r])[i] == records[i] {
    }
  }

  lemma {:induction false} CellsKept(vms: seq<NormalizedVM>, records: seq<Record>, r: Record, at: seq<nat>)
    requires CellsAt(vms, records, at)
    ensures CellsAt(vms, records + [r], at)
  {
  }

  lemma {:induction false} CellsAdded(vms: seq<NormalizedVM>, vm: NormalizedVM, records: seq<Record>, r: Record, at: seq<nat>)
    requires CellsAt(vms, records, at) && ReadFrom(vm, r)
    ensures CellsAt(vms + [vm], records + [r], at + [|records|])
  {
  }

  /** The first record of its identity with the largest total disk. */
  ghost predicate Wins(vms: seq<NormalizedVM>, i: nat, lower: string -> string) {
    i < |vms| && forall j :: 0 <= j < |vms| && Identity(vms[j], lower) == Identity(vms[i], lower) ==>
      && vms[j].TotalDiskGib() <= vms[i].TotalDiskGib()
      && (j < i ==> vms[j].TotalDiskGib() < vms[i].TotalDiskGib())
  }

  ghost predicate IsWinner(vms: seq<NormalizedVM>, vm: NormalizedVM, lower: string -> string) {
    exists i: nat :: Wins(vms, i, lower) && vms[i] == vm
  }

  ghost predicate Represented(kept: seq<NormalizedVM>, key: string, lower: string -> string) {
    exists k :: 0 <= k < |kept| && Identity(kept[k], lower) == key
  }

  /** One machine per identity, each the winner of its identity. */
  ghost predicate OnePerIdentity(vms: seq<NormalizedVM>, kept: seq<NormalizedVM>, lower: string -> string) {
    && (forall k :: 0 <= k < |kept| ==> IsWinner(vms, kept[k], lower))
    && (forall j :: 0 <= j < |vms| ==> Represented(kept, Identity(vms[j], lower), lower))
    && DistinctIdentities(kept, lower)
  }

  // ---------- one machine per identity ----------

  /** `seen` after the machines `vms`: the winner of each identity met so far. */
  ghost predicate Winners(vms: seq<NormalizedVM>, seen: map<string, NormalizedVM>, lower: string -> string) {
    && (forall key :: key in seen ==> IsWinner(vms, seen[key], lower) && Identity(seen[key], lower) == key)
    && forall j :: 0 <= j < |vms| ==> Identity(vms[j], lower) in seen
  }

  /** The identities in the order they first occur. */
  function FirstSeen(vms: seq<NormalizedVM>, lower: string -> string): seq<string> {
    if vms == [] then []
    else
      var rest, key := FirstSeen(vms[..|vms| - 1], lower), Identity(vms[|vms| - 1], lower);
      if key in rest then rest else rest + [key]
  }

  lemma FirstSeenStep(vms: seq<NormalizedVM>, vm: NormalizedVM, lower: string -> string)
    ensures FirstSeen(vms + [vm], lower) ==
      if Identity(vm, lower) in FirstSeen(vms, lower) then FirstSeen(vms, lower) else FirstSeen(vms, lower) + [Identity(vm, lower)]
  {
    assert (vms + [vm])[..|vms|] == vms;
  }

  /** `dict.values()` order: keys by first insertion. */
  ghost predicate KeyOrder(order: seq<string>, seen: map<string, NormalizedVM>) {
    && (forall key :: key in order <==> key in seen.Keys)
    && forall j, k :: 0 <= j < k < |order| ==> order[j] != order[k]
  }

  lemma WinnersStep(vms: seq<NormalizedVM>, seen: map<string, NormalizedVM>, vm: NormalizedVM, lower: string -> string)
    requires Winners(vms, seen, lower)
    ensures var key := Identity(vm, lower);
      Winners(vms + [vm],
        if key !in seen || vm.TotalDiskGib() > seen[key].TotalDiskGib() then seen[key := vm] else seen, lower)
  {
    var key, vms' := Identity(vm, lower), vms + [vm];
    var replace := key !in seen || vm.TotalDiskGib() > seen[key].TotalDiskGib();
    var seen' := if replace then seen[key := vm] else seen;
    forall k | k in seen'
      ensures IsWinner(vms', seen'[k], lower) && Identity(seen'[k], lower) == k
    {
      if k == key && replace {
        assert vms'[|vms|] == vm;
        assert Wins(vms', |vms|, lower) by {
          if key in seen {
            var i: nat :| Wins(vms, i, lower) && vms[i] == seen[key];
          }
        }
      } else {
        var i: nat :| Wins(vms, i, lower) && vms[i] == seen[k];
        assert vms'[i] == vms[i] && Wins(vms', i, lower);
      }
    }
  }

  function Identities(vms: seq<NormalizedVM>, lower: string -> string): seq<string> {
    seq(|vms|, k requires 0 <= k < |vms| => Identity(vms[k], lower))
  }

  lemma WinnersAreOnePerIdentity(
    vms: seq<NormalizedVM>, seen: map<string, NormalizedVM>, order: seq<string>, kept: seq<NormalizedVM>,
    lower: string -> string)
    requires Winners(vms, seen, lower) && KeyOrder(order, seen)
    requires |kept| == |order| && forall k :: 0 <= k < |order| ==> order[k] in seen && kept[k] == seen[order[k]]
    ensures OnePerIdentity(vms, kept, lower) && Identities(kept, lower) == order
  {
    forall k | 0 <= k < |kept|
      ensures Identity(kept[k], lower) == order[k]
      ensures IsWinner(vms, kept[k], lower)
    {
      assert order[k] in order;
    }
    forall j | 0 <= j < |vms| ensures Represented(kept, Identity(vms[j], lower), lower) {
      assert Identity(vms[j], lower) in order;
      var k :| 0 <= k < |order| && order[k] == Identity(vms[j], lower);
      assert Identity(kept[k], lower) == order[k];
    }
  }

  /** `normalize`: exactly one machine per identity, the first record of it with the
      largest disk, under names no two machines share. */
  method Normalize(records: seq<Record>, lower: string -> string)
    returns (out: seq<NormalizedVM>, ghost kept: seq<NormalizedVM>)
    ensures exists at: seq<nat> :: ReadAll(Parsed(records), records, at)
    ensures OnePerIdentity(Parsed(records), kept, lower)
    ensures Identities(kept, lower) == FirstSeen(Parsed(records), lower)
    ensures Disambiguated(kept, out, lower)
    ensures DistinctNames(out)
  {
    var seen: map<string, NormalizedVM>, order := map[], [];
    ghost var parsed: seq<NormalizedVM> := [];
    for n := 0 to |records|
      invariant parsed == Parsed(records[..n]) && Gathered(parsed, seen, order, lower)
    {
      var rec := records[n];
      assert records[..n + 1][..n] == records[..n];
      if SafeStr(rec.name).Some? {
        var vm := NormalizedVM(SafeStr(rec.name).value, SafeStr(rec.uuid), SafeStr(rec.os), rec.ips, rec.hardware);
        GatherStep(parsed, seen, order, vm, lower);
        var key := Identity(vm, lower);
        if key !in seen {
          order := order + [key];
          seen := seen[key := vm];
        } else if vm.TotalDiskGib() > seen[key].TotalDiskGib() {
          seen := seen[key := vm];
        }
        parsed := parsed + [vm];
      }
    }
    assert records[..|records|] == records;
    var values := seq(|order|, k requires 0 <= k < |order| && order[k] in seen => seen[order[k]]);
    kept := values;
    WinnersAreOnePerIdentity(parsed, seen, order, kept, lower);
    out := Disambiguate(values, lower);
    ghost var at := ParsedReadsAll(records);
  }

  /** `seen` and its insertion order after the machines `vms`. */
  ghost predicate Gathered(
    vms: seq<NormalizedVM>, seen: map<string, NormalizedVM>, order: seq<string>, lower: string -> string) {
    Winners(vms, seen, lower) && KeyOrder(order, seen) && order == FirstSeen(vms, lower)
  }

  lemma GatherStep(
    vms: seq<NormalizedVM>, seen: map<string, NormalizedVM>, order: seq<string>, vm: NormalizedVM, lower: string -> string)
    requires Gathered(vms, seen, order, lower)
    ensures var key := Identity(vm, lower);
      Gathered(vms + [vm],
        if key !in seen || vm.TotalDiskGib() > seen[key].TotalDiskGib() then seen[key := vm] else seen,
        if key in seen then order else order + [key], lower)
  {
    WinnersStep(vms, seen, vm, lower);
    FirstSeenStep(vms, vm, lower);
    KeyOrderStep(seen, order, Identity(vm, lower), vm);
    assert Identity(vm, lower) in order <==> Identity(vm, lower) in seen.Keys;
  }

  lemma KeyOrderStep(seen: map<string, NormalizedVM>, order: seq<string>, key: string, vm: NormalizedVM)
    requires KeyOrder(order, seen)
    ensures KeyOrder(if key in seen then order else order + [key], seen[key := vm])
  {
    assert seen[key := vm].Keys == seen.Keys + {key};
  }

  // ---------- consequences ----------

  /** When two machines are taken for one: both carry a UUID and the UUIDs agree up to
      case, or neither does and the names agree. */
  lemma SameIdentityIff(a: NormalizedVM, b: NormalizedVM, lower: string -> string)
    ensures Identity(a, lower) == Identity(b, lower) <==>
      (HasUuid(a) == HasUuid(b)
       && (if HasUuid(a) && HasUuid(b) then lower(a.sourceUuid.value) == lower(b.sourceUuid.value) else a.vmName == b.vmName))
  {
    var ia, ib := Identity(a, lower), Identity(b, lower);
    if ia == ib {
      assert ia[0] == ib[0];
      assert ia[5..] == ib[5..];
      assert HasUuid(a) ==> ia[5..] == lower(a.sourceUuid.value);
      assert HasUuid(b) ==> ib[5..] == lower(b.sourceUuid.value);
      assert !HasUuid(a) ==> ia[5..] == a.vmName;
      assert !HasUuid(b) ==> ib[5..] == b.vmName;
    }
  }

  /** What a cell must be to name no machine, and to read "unnamed". */
  lemma CellIff(cell: string)
    ensures SafeStr(Some(cell)).None? <==> All(cell, IsSpace)
    ensures Void(cell) && !All(cell, IsSpace) ==> SafeStr(Some(cell)) == Some("unnamed")
    ensures SafeStr(Some(cell)) == Some("unnamed") ==> Void(cell) || Scrubbed(Trim(cell, IsSpace)) == "unnamed"
  {
    TrimEmptyIff(cell, IsSpace);
    TrimVoid(cell);
    ScrubbedEmptyIff(Trim(cell, IsSpace));
  }

  /** Two cells make one machine exactly when both are absent and the names agree, or they
      sanitize to one text up to case. */
  lemma SameCellsIff(a: NormalizedVM, b: NormalizedVM, cellA: Option<string>, cellB: Option<string>, lower: string -> string)
    requires a.sourceUuid == SafeStr(cellA) && b.sourceUuid == SafeStr(cellB)
    ensures Identity(a, lower) == Identity(b, lower) <==>
      (if SafeStr(cellA).None? || SafeStr(cellB).None?
       then SafeStr(cellA) == SafeStr(cellB) && a.vmName == b.vmName
       else lower(SafeStr(cellA).value) == lower(SafeStr(cellB).value))
  {
    SameIdentityIff(a, b, lower);
  }

  /** A UUID cell of dashes and the like is not absent: sanitizing turns it into the word
      "unnamed", so all machines with such cells are one machine, whatever their names. */
  lemma PlaceholderUuidsCollide(a: NormalizedVM, b: NormalizedVM, cellA: string, cellB: string, lower: string -> string)
    requires a.sourceUuid == SafeStr(Some(cellA)) && b.sourceUuid == SafeStr(Some(cellB))
    requires Void(cellA) && !All(cellA, IsSpace) && Void(cellB) && !All(cellB, IsSpace)
    ensures a.sourceUuid == Some("unnamed") && Identity(a, lower) == Identity(b, lower)
  {
    CellIff(cellA);
    CellIff(cellB);
  }

  /** Such cells are "-", "--" and "$(". */
  lemma PlaceholdersExist()
    ensures Void("-") && Void("--") && Void("$(")
    ensures !All("-", IsSpace) && !All("--", IsSpace) && !All("$(", IsSpace)
  {
    assert "-"[1..] == "" && "--"[1..] == "-" && "$("[2..] == "";
    assert !IsSpace("-"[0]) && !IsSpace("--"[0]) && !IsSpace("$("[0]);
  }

  // ---------- the order of the records ----------

  /** Two different records of one machine never have the same total disk. */
  ghost predicate TiesAgree(vms: seq<NormalizedVM>, lower: string -> string) {
    forall u, v :: u in vms && v in vms && Identity(u, lower) == Identity(v, lower) && u.TotalDiskGib() == v.TotalDiskGib() ==>
      u == v
  }

  lemma WinnerIsLargest(vms: seq<NormalizedVM>, vm: NormalizedVM, lower: string -> string)
    requires IsWinner(vms, vm, lower)
    ensures vm in vms
    ensures forall u :: u in vms && Identity(u, lower) == Identity(vm, lower) ==> u.TotalDiskGib() <= vm.TotalDiskGib()
  {
    var i: nat :| Wins(vms, i, lower) && vms[i] == vm;
    forall u | u in vms && Identity(u, lower) == Identity(vm, lower) ensures u.TotalDiskGib() <= vm.TotalDiskGib() {
      var j :| 0 <= j < |vms| && vms[j] == u;
    }
  }

  lemma KeptWithin(
    vms: seq<NormalizedVM>, kept: seq<NormalizedVM>, vms': seq<NormalizedVM>, kept': seq<NormalizedVM>,
    lower: string -> string, vm: NormalizedVM)
    requires (forall u :: u in vms <==> u in vms') && TiesAgree(vms, lower)
    requires OnePerIdentity(vms, kept, lower) && OnePerIdentity(vms', kept', lower) && vm in kept
    ensures vm in kept'
  {
    var i :| 0 <= i < |kept| && kept[i] == vm;
    WinnerIsLargest(vms, vm, lower);
    var j :| 0 <= j < |vms'| && vms'[j] == vm;
    assert Represented(kept', Identity(vms'[j], lower), lower);
    var k :| 0 <= k < |kept'| && Identity(kept'[k], lower) == Identity(vm, lower);
    WinnerIsLargest(vms', kept'[k], lower);
    assert kept'[k].TotalDiskGib() == vm.TotalDiskGib();
  }

  lemma IdentitiesDiffer(vms: seq<NormalizedVM>, lower: string -> string)
    requires DistinctIdentities(vms, lower)
    ensures NoDuplicates(vms)
  {
    forall i, j | 0 <= i < j < |vms| ensures vms[i] != vms[j] {
      assert Identity(vms[i], lower) != Identity(vms[j], lower);
    }
  }

  /**
   From the same records in another order come the same machines under the same names, where
   no two records of one machine tie and the machines' own picks are apart.
   */
  lemma ReorderedRecords(
    vms: seq<NormalizedVM>, kept: seq<NormalizedVM>, out: seq<NormalizedVM>,
    vms': seq<NormalizedVM>, kept': seq<NormalizedVM>, out': seq<NormalizedVM>, lower: string -> string)
    requires multiset(vms) == multiset(vms') && TiesAgree(vms, lower)
    requires OnePerIdentity(vms, kept, lower) && Disambiguated(kept, out, lower)
    requires OnePerIdentity(vms', kept', lower) && Disambiguated(kept', out', lower)
    ensures multiset(kept) == multiset(kept')
    ensures PicksApart(kept, lower) ==> SameNames(kept, out, kept', out')
  {
    PermutedMembers(vms, vms');
    forall vm ensures vm in kept <==> vm in kept' {
      if vm in kept {
        KeptWithin(vms, kept, vms', kept', lower, vm);
      }
      if vm in kept' {
        KeptWithin(vms', kept', vms, kept, lower, vm);
      }
    }
    IdentitiesDiffer(kept, lower);
    IdentitiesDiffer(kept', lower);
    SameOnce(kept, kept');
    if PicksApart(kept, lower) {
      OrderFreeIff(kept, lower);
      assert Reorders(kept, kept, out, lower) && Reorders(kept, kept', out', lower);
    }
  }

  lemma SameOnce<T>(a: seq<T>, b: seq<T>)
    requires NoDuplicates(a) && NoDuplicates(b) && forall x :: x in a <==> x in b
    ensures multiset(a) == multiset(b)
  {
    DistinctIffCounts(a);
    DistinctIffCounts(b);
    forall x ensures multiset(a)[x] == multiset(b)[x] {
      assert (x in a <==> x in multiset(a)) && (x in b <==> x in multiset(b));
    }
  }
}
