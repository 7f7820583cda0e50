/**
 Telling namesakes apart (`_disambiguate` in `normalize.py`): each machine with a namesake
 and a UUID is renamed after its own UUID, in turn, avoiding every name used before it.
 `lower` stands for `str.lower`; nothing is assumed of it.
 */
module Namesakes {
  import opened Options
  import opened Text
  import opened Naming
  import opened Inventory
  import opened Sorting

  predicate HasUuid(vm: NormalizedVM) {
    vm.sourceUuid.Some? && vm.sourceUuid.value != ""
  }

  function Identity(vm: NormalizedVM, lower: string -> string): string {
    if HasUuid(vm) then "uuid:" + lower(vm.sourceUuid.value) else "name:" + vm.vmName
  }

  ghost predicate DistinctIdentities(vms: seq<NormalizedVM>, lower: string -> string) {
    forall j, k :: 0 <= j < k < |vms| ==> Identity(vms[j], lower) != Identity(vms[k], lower)
  }

  ghost predicate DistinctNames(vms: seq<NormalizedVM>) {
    forall j, k :: 0 <= j < k < |vms| ==> vms[j].vmName != vms[k].vmName
  }

  // ---------- the choice of a name ----------

  function KeepDigits(s: string): string {
    if s == "" then ""
    else (if IsNumeral(s[0]) || IsLower(s[0]) then [s[0]] else "") + KeepDigits(s[1..])
  }

  /** The characters of the UUID a suffix is cut from; never empty. */
  function Digits(vm: NormalizedVM, lower: string -> string): (d: string)
    requires vm.sourceUuid.Some?
    ensures d != ""
  {
    var d := KeepDigits(lower(vm.sourceUuid.value));
    if d == "" then "x" else d
  }

  function ShortWidth(digits: string): nat {
    if |digits| < 8 then |digits| else 8
  }

  function Candidate(name: string, digits: string, width: nat): string
    requires width <= |digits|
  {
    name + "-" + digits[|digits| - width..]
  }

  /** The name a machine gets when nothing stands in its way. */
  function ShortName(vm: NormalizedVM, lower: string -> string): string
    requires vm.sourceUuid.Some?
  {
    Candidate(vm.vmName, Digits(vm, lower), ShortWidth(Digits(vm, lower)))
  }

  /** A name cut from the machine's own UUID: some width of it, numbered at most once. */
  ghost predicate OwnSuffix(name: string, digits: string, candidate: string) {
    exists width :: ShortWidth(digits) <= width <= |digits| &&
      (candidate == Candidate(name, digits, width)
       || exists n: nat :: candidate == Candidate(name, digits, |digits|) + "-" + Decimal(n))
  }

  /** The narrowest suffix that is free; if none is, all of it with the first free number. */
  ghost predicate IsPick(name: string, digits: string, taken: set<string>, candidate: string) {
    || (candidate !in taken && exists width :: IsFirstWidth(name, digits, taken, width) && candidate == Candidate(name, digits, width))
    || (TakenBelow(name, digits, taken, |digits| + 1) && IsNumbered(Candidate(name, digits, |digits|) + "-", taken, candidate))
  }

  ghost predicate IsFirstWidth(name: string, digits: string, taken: set<string>, width: nat) {
    ShortWidth(digits) <= width <= |digits| && TakenBelow(name, digits, taken, width)
  }

  ghost predicate IsNumbered(prefix: string, taken: set<string>, candidate: string) {
    exists n: nat :: FirstNumber(prefix, taken, n) && candidate == prefix + Decimal(n)
  }

  /** All suffixes narrower than `width` make names already taken. */
  ghost predicate TakenBelow(name: string, digits: string, taken: set<string>, width: nat) {
    forall w :: ShortWidth(digits) <= w < width && w <= |digits| ==> Candidate(name, digits, w) in taken
  }

  ghost predicate FirstNumber(prefix: string, taken: set<string>, n: nat) {
    2 <= n && prefix + Decimal(n) !in taken && forall k: nat :: 2 <= k < n ==> prefix + Decimal(k) in taken
  }

  lemma PickIsOwn(name: string, digits: string, taken: set<string>, c: string)
    requires digits != "" && IsPick(name, digits, taken, c)
    ensures c !in taken && OwnSuffix(name, digits, c)
  {
    if TakenBelow(name, digits, taken, |digits| + 1) && IsNumbered(Candidate(name, digits, |digits|) + "-", taken, c) {
      assert ShortWidth(digits) <= |digits|;
    }
  }

  /** There is only one pick. */
  lemma PickUnique(name: string, digits: string, taken: set<string>, c: string, d: string)
    requires digits != "" && IsPick(name, digits, taken, c) && IsPick(name, digits, taken, d)
    ensures c == d
  {
    if TakenBelow(name, digits, taken, |digits| + 1) {
      assert forall w :: ShortWidth(digits) <= w <= |digits| ==> Candidate(name, digits, w) in taken;
      var prefix := Candidate(name, digits, |digits|) + "-";
      var m: nat :| FirstNumber(prefix, taken, m) && c == prefix + Decimal(m);
      var n: nat :| FirstNumber(prefix, taken, n) && d == prefix + Decimal(n);
      assert m == n;
    } else {
      var v :| IsFirstWidth(name, digits, taken, v) && c == Candidate(name, digits, v);
      var w :| IsFirstWidth(name, digits, taken, w) && d == Candidate(name, digits, w);
      assert v == w;
    }
  }

  /** A pick stays the pick when other names are taken. */
  lemma PickStays(name: string, digits: string, taken: set<string>, more: set<string>, c: string)
    requires IsPick(name, digits, taken, c) && taken <= more && c !in more
    ensures IsPick(name, digits, more, c)
  {
    if TakenBelow(name, digits, taken, |digits| + 1) && IsNumbered(Candidate(name, digits, |digits|) + "-", taken, c) {
      var prefix := Candidate(name, digits, |digits|) + "-";
      var n: nat :| FirstNumber(prefix, taken, n) && c == prefix + Decimal(n);
      assert FirstNumber(prefix, more, n);
    } else {
      var w :| IsFirstWidth(name, digits, taken, w) && c == Candidate(name, digits, w);
      assert IsFirstWidth(name, digits, more, w);
    }
  }

  /** The pick, when all suffixes narrower than `width` are taken. */
  ghost function PickFrom(name: string, digits: string, taken: set<string>, width: nat): string
    decreases |digits| + 1 - width
  {
    if width > |digits| then
      var prefix := Candidate(name, digits, |digits|) + "-";
      prefix + Decimal(LeastUnused(taken, prefix, 2))
    else if Candidate(name, digits, width) in taken then PickFrom(name, digits, taken, width + 1)
    else Candidate(name, digits, width)
  }

  lemma {:induction false} PickFromExact(name: string, digits: string, taken: set<string>, width: nat)
    requires ShortWidth(digits) <= width <= |digits| + 1 && TakenBelow(name, digits, taken, width)
    ensures IsPick(name, digits, taken, PickFrom(name, digits, taken, width))
    decreases |digits| + 1 - width
  {
    if width == |digits| + 1 {
      var prefix := Candidate(name, digits, |digits|) + "-";
      UnusedExists(taken, prefix, 2);
      assert FirstNumber(prefix, taken, LeastUnused(taken, prefix, 2));
    } else if Candidate(name, digits, width) in taken {
      PickFromExact(name, digits, taken, width + 1);
    } else {
      assert IsFirstWidth(name, digits, taken, width);
    }
  }

  /** A free short name is the pick. */
  lemma ShortPick(name: string, digits: string, taken: set<string>)
    requires digits != "" && Candidate(name, digits, ShortWidth(digits)) !in taken
    ensures IsPick(name, digits, taken, Candidate(name, digits, ShortWidth(digits)))
  {
    assert IsFirstWidth(name, digits, taken, ShortWidth(digits));
  }

  method PickName(name: string, digits: string, taken: set<string>) returns (candidate: string)
    requires digits != ""
    ensures IsPick(name, digits, taken, candidate)
  {
    var width := ShortWidth(digits);
    candidate := Candidate(name, digits, width);
    while width <= |digits|
      invariant ShortWidth(digits) <= width <= |digits| + 1
      invariant TakenBelow(name, digits, taken, width)
      invariant width > |digits| ==> candidate == Candidate(name, digits, |digits|)
    {
      candidate := Candidate(name, digits, width);
      if candidate !in taken {
        assert IsFirstWidth(name, digits, taken, width);
        return;
      }
      width := width + 1;
    }
    var n := FirstUnused(taken, candidate + "-", 2);
    assert FirstNumber(candidate + "-", taken, n) && IsNumbered(candidate + "-", taken, candidate + "-" + Decimal(n));
    candidate := candidate + "-" + Decimal(n);
  }

  // ---------- who is renamed, and when ----------

  predicate Shares(vms: seq<NormalizedVM>, i: nat) {
    i < |vms| && exists j :: 0 <= j < |vms| && j != i && vms[j].vmName == vms[i].vmName
  }

  /** The machines that get a new name: those with a namesake and a UUID. */
  predicate Renamed(vms: seq<NormalizedVM>, i: nat) {
    Shares(vms, i) && HasUuid(vms[i])
  }

  function Names(vms: seq<NormalizedVM>): set<string> {
    set i | 0 <= i < |vms| :: vms[i].vmName
  }

  /** No short name falls on a real machine's name or on another short name. */
  ghost predicate ShortNamesFree(vms: seq<NormalizedVM>, lower: string -> string) {
    && (forall i: nat :: Renamed(vms, i) ==> ShortName(vms[i], lower) !in Names(vms))
    && forall i: nat, j: nat :: Renamed(vms, i) && Renamed(vms, j) && i != j ==>
         ShortName(vms[i], lower) != ShortName(vms[j], lower)
  }

  /** The indices below n of the machines called `name`, in order. */
  ghost function Positions(vms: seq<NormalizedVM>, n: nat, name: string): seq<nat>
    requires n <= |vms|
  {
    if n == 0 then []
    else Positions(vms, n - 1, name) + if vms[n - 1].vmName == name then [n - 1] else []
  }

  lemma {:induction false} PositionsExact(vms: seq<NormalizedVM>, n: nat, name: string)
    requires n <= |vms|
    ensures forall i: nat :: i in Positions(vms, n, name) <==> i < n && vms[i].vmName == name
    ensures forall j, k :: 0 <= j < k < |Positions(vms, n, name)| ==>
      Positions(vms, n, name)[j] < Positions(vms, n, name)[k]
  {
    if n > 0 {
      PositionsExact(vms, n - 1, name);
      var before := Positions(vms, n - 1, name);
      assert forall j :: 0 <= j < |before| ==> before[j] in before;
    }
  }

  /** The first of the first n machines of that name, or n. */
  function FirstAt(vms: seq<NormalizedVM>, n: nat, name: string): nat
    requires n <= |vms|
  {
    if n == 0 then 0
    else
      var k := FirstAt(vms, n - 1, name);
      if k < n - 1 || vms[n - 1].vmName == name then k else n
  }

  lemma {:induction false} FirstAtExact(vms: seq<NormalizedVM>, n: nat, name: string)
    requires n <= |vms|
    ensures FirstAt(vms, n, name) <= n && forall j :: 0 <= j < FirstAt(vms, n, name) ==> vms[j].vmName != name
    ensures FirstAt(vms, n, name) < n ==> vms[FirstAt(vms, n, name)].vmName == name
  {
    if n > 0 {
      FirstAtExact(vms, n - 1, name);
    }
  }

  lemma {:induction false} FirstAtIff(vms: seq<NormalizedVM>, n: nat, name: string)
    requires n <= |vms|
    ensures FirstAt(vms, n, name) <= n && (FirstAt(vms, n, name) == n <==> Positions(vms, n, name) == [])
  {
    if n > 0 {
      FirstAtIff(vms, n - 1, name);
    }
  }

  /** Where the name of machine i first appears: when its group has its turn. */
  function First(vms: seq<NormalizedVM>, i: nat): nat
    requires i < |vms|
  {
    FirstAt(vms, |vms|, vms[i].vmName)
  }

  lemma FirstOf(vms: seq<NormalizedVM>, i: nat, j: nat)
    requires i < |vms| && j < |vms|
    ensures First(vms, i) <= i && vms[First(vms, i)].vmName == vms[i].vmName
    ensures First(vms, i) == First(vms, j) <==> vms[i].vmName == vms[j].vmName
  {
    FirstAtExact(vms, |vms|, vms[i].vmName);
    FirstAtExact(vms, |vms|, vms[j].vmName);
  }

  /** The machines renamed before turn (f, i): of names that first appear before f, and of
      the name first appearing at f those before i. */
  ghost function Done(vms: seq<NormalizedVM>, f: nat, i: nat): set<nat> {
    set j: nat | j < |vms| && Renamed(vms, j) && (First(vms, j) < f || (First(vms, j) == f && j < i))
  }

  ghost function NewNames(out: seq<NormalizedVM>, done: set<nat>): set<string> {
    set j | j in done && j < |out| :: out[j].vmName
  }

  /** The names machine i must avoid: the original ones, and those given before its turn. */
  ghost function TakenAt(vms: seq<NormalizedVM>, out: seq<NormalizedVM>, i: nat): set<string>
    requires i < |vms|
  {
    Names(vms) + NewNames(out, Done(vms, First(vms, i), i))
  }

  ghost predicate PickedAt(vms: seq<NormalizedVM>, out: seq<NormalizedVM>, i: nat, lower: string -> string)
    requires Renamed(vms, i) && i < |out|
  {
    IsPick(vms[i].vmName, Digits(vms[i], lower), TakenAt(vms, out, i), out[i].vmName)
  }

  /** Each name is the pick against the original names and those given before. */
  ghost predicate Disambiguated(vms: seq<NormalizedVM>, out: seq<NormalizedVM>, lower: string -> string) {
    && |out| == |vms|
    && (forall i :: 0 <= i < |vms| ==> out[i] == vms[i].(vmName := out[i].vmName))
    && (forall i :: 0 <= i < |vms| && !Renamed(vms, i) ==> out[i].vmName == vms[i].vmName)
    && (forall i: nat :: Renamed(vms, i) ==> PickedAt(vms, out, i, lower))
  }

  lemma NewNamesAgree(out: seq<NormalizedVM>, out': seq<NormalizedVM>, done: set<nat>)
    requires |out| == |out'| && forall j :: j in done && j < |out| ==> out[j].vmName == out'[j].vmName
    ensures NewNames(out, done) == NewNames(out', done)
  {
    forall x | x in NewNames(out, done) ensures x in NewNames(out', done) {
      var j :| j in done && j < |out| && out[j].vmName == x;
      assert out'[j].vmName == x;
    }
    forall x | x in NewNames(out', done) ensures x in NewNames(out, done) {
      var j :| j in done && j < |out| && out'[j].vmName == x;
      assert out[j].vmName == x;
    }
  }

  lemma NewNamesAdd(out: seq<NormalizedVM>, done: set<nat>, i: nat)
    requires i < |out|
    ensures NewNames(out, done + {i}) == NewNames(out, done) + {out[i].vmName}
  {
    forall x | x in NewNames(out, done) + {out[i].vmName} ensures x in NewNames(out, done + {i}) {
      if x in NewNames(out, done) {
        var j :| j in done && j < |out| && out[j].vmName == x;
        assert j in done + {i};
      } else {
        assert i in done + {i};
      }
    }
  }

  function Given(vms: seq<NormalizedVM>, out: seq<NormalizedVM>, i: nat, candidate: string): seq<NormalizedVM>
    requires i < |vms| == |out|
  {
    out[i := vms[i].(vmName := candidate)]
  }

  /** The machines and the taken names once everyone before turn (f, i) is renamed. */
  ghost function After(vms: seq<NormalizedVM>, f: nat, i: nat, pick: Picker)
    : (r: (seq<NormalizedVM>, set<string>))
    requires i <= |vms|
    ensures |r.0| == |vms|
    decreases f, i
  {
    if i > 0 then
      var (out, taken) := After(vms, f, i - 1, pick);
      if Renamed(vms, i - 1) && First(vms, i - 1) == f then
        var candidate := pick(vms[i - 1], taken);
        (Given(vms, out, i - 1, candidate), taken + {candidate})
      else (out, taken)
    else if f > 0 then After(vms, f - 1, |vms|, pick)
    else (vms, Names(vms))
  }

  type Picker = (NormalizedVM, set<string>) -> string

  /** The name a machine picks when these are taken. */
  ghost function Pick(vm: NormalizedVM, taken: set<string>, lower: string -> string): string
    requires HasUuid(vm)
  {
    PickFrom(vm.vmName, Digits(vm, lower), taken, ShortWidth(Digits(vm, lower)))
  }

  lemma PickIs(vm: NormalizedVM, taken: set<string>, lower: string -> string)
    requires HasUuid(vm)
    ensures IsPick(vm.vmName, Digits(vm, lower), taken, Pick(vm, taken, lower))
  {
    PickFromExact(vm.vmName, Digits(vm, lower), taken, ShortWidth(Digits(vm, lower)));
  }

  /** Everyone takes their pick. */
  ghost predicate Picks(pick: Picker, lower: string -> string) {
    forall vm, taken :: HasUuid(vm) ==> IsPick(vm.vmName, Digits(vm, lower), taken, pick(vm, taken))
  }

  ghost function Picking(lower: string -> string): Picker {
    (vm: NormalizedVM, taken: set<string>) => if HasUuid(vm) then Pick(vm, taken, lower) else vm.vmName
  }

  lemma PickingPicks(lower: string -> string)
    ensures Picks(Picking(lower), lower)
  {
    forall vm: NormalizedVM, taken: set<string> | HasUuid(vm)
      ensures IsPick(vm.vmName, Digits(vm, lower), taken, Picking(lower)(vm, taken))
    {
      PickIs(vm, taken, lower);
    }
  }

  /** The turn of machine j comes before turn (f, i). */
  predicate Passed(vms: seq<NormalizedVM>, j: nat, f: nat, i: nat)
    requires j < |vms|
  {
    First(vms, j) < f || (First(vms, j) == f && j < i)
  }

  /** Only machine i changes at turn i. */
  lemma OtherTurn(vms: seq<NormalizedVM>, f: nat, i: nat, j: nat, pick: Picker)
    requires i < |vms| && j < |vms| && !(j == i && First(vms, j) == f)
    ensures After(vms, f, i + 1, pick).0[j] == After(vms, f, i, pick).0[j]
  {
  }

  /** Turns i to i' of a name, none of them its own, leave a machine as it is. */
  lemma {:induction false} AloneWithin(
    vms: seq<NormalizedVM>, f: nat, i: nat, i': nat, j: nat, pick: Picker, vm: NormalizedVM)
    requires i <= i' <= |vms| && j < |vms| && !(First(vms, j) == f && i <= j < i')
    requires After(vms, f, i, pick).0[j] == vm
    ensures After(vms, f, i', pick).0[j] == vm
  {
    if i < i' {
      AloneWithin(vms, f, i, i' - 1, j, pick, vm);
      OtherTurn(vms, f, i' - 1, j, pick);
    }
  }

  /** So do the turns of other names. */
  lemma {:induction false} AloneAcross(
    vms: seq<NormalizedVM>, f: nat, f': nat, j: nat, pick: Picker, vm: NormalizedVM)
    requires f <= f' && j < |vms| && !(f <= First(vms, j) < f')
    requires After(vms, f, 0, pick).0[j] == vm
    ensures After(vms, f', 0, pick).0[j] == vm
  {
    if f < f' {
      AloneAcross(vms, f, f' - 1, j, pick, vm);
      AloneWithin(vms, f' - 1, 0, |vms|, j, pick, vm);
    }
  }

  /** A machine is as it came until its turn. */
  lemma UntilTurn(vms: seq<NormalizedVM>, j: nat, pick: Picker)
    requires j < |vms|
    ensures After(vms, First(vms, j), j, pick).0[j] == vms[j]
  {
    AloneAcross(vms, 0, First(vms, j), j, pick, vms[j]);
    AloneWithin(vms, First(vms, j), 0, j, j, pick, vms[j]);
  }

  /** ... and never changes after it. */
  lemma SinceTurn(vms: seq<NormalizedVM>, f: nat, i: nat, j: nat, pick: Picker)
    requires i <= |vms| && j < |vms| && Passed(vms, j, f, i)
    ensures After(vms, f, i, pick).0[j] == After(vms, First(vms, j), j + 1, pick).0[j]
  {
    var g := First(vms, j);
    var vm := After(vms, g, j + 1, pick).0[j];
    if g == f {
      AloneWithin(vms, f, j + 1, i, j, pick, vm);
    } else {
      AloneWithin(vms, g, j + 1, |vms|, j, pick, vm);
      assert After(vms, g + 1, 0, pick) == After(vms, g, |vms|, pick);
      AloneAcross(vms, g + 1, f, j, pick, vm);
      AloneWithin(vms, f, 0, i, j, pick, vm);
    }
  }

  lemma DoneAgrees(vms: seq<NormalizedVM>, f: nat, i: nat)
    requires i < |vms|
    ensures Done(vms, f, i + 1) == if Renamed(vms, i) && First(vms, i) == f then Done(vms, f, i) + {i} else Done(vms, f, i)
    ensures i in Done(vms, f, i) ==> First(vms, i) < f
  {
  }

  /** The taken names are the original ones and those given so far. */
  lemma {:induction false} TakenIsExact(vms: seq<NormalizedVM>, f: nat, i: nat, pick: Picker)
    requires i <= |vms|
    ensures After(vms, f, i, pick).1 == Names(vms) + NewNames(After(vms, f, i, pick).0, Done(vms, f, i))
    decreases f, i
  {
    if i > 0 {
      TakenIsExact(vms, f, i - 1, pick);
      DoneAgrees(vms, f, i - 1);
      if Renamed(vms, i - 1) && First(vms, i - 1) == f {
        NewNamesAgree(After(vms, f, i - 1, pick).0, After(vms, f, i, pick).0, Done(vms, f, i - 1));
        NewNamesAdd(After(vms, f, i, pick).0, Done(vms, f, i - 1), i - 1);
      }
    } else if f > 0 {
      TakenIsExact(vms, f - 1, |vms|, pick);
      assert Done(vms, f - 1, |vms|) == Done(vms, f, 0);
    } else {
      assert Done(vms, 0, 0) == {} && NewNames(vms, {}) == {};
    }
  }

  lemma {:induction false} SkipMachines(vms: seq<NormalizedVM>, f: nat, i: nat, i': nat, pick: Picker)
    requires i <= i' <= |vms| && forall j :: i <= j < i' ==> !(Renamed(vms, j) && First(vms, j) == f)
    ensures After(vms, f, i, pick) == After(vms, f, i', pick)
  {
    if i < i' {
      SkipMachines(vms, f, i, i' - 1, pick);
    }
  }

  lemma {:induction false} SkipNames(vms: seq<NormalizedVM>, f: nat, g: nat, pick: Picker)
    requires f <= g && forall j :: 0 <= j < |vms| && Renamed(vms, j) ==> !(f <= First(vms, j) < g)
    ensures After(vms, f, 0, pick) == After(vms, g, 0, pick)
  {
    if f < g {
      SkipNames(vms, f, g - 1, pick);
      SkipMachines(vms, g - 1, 0, |vms|, pick);
    }
  }

  // ---------- the loops ----------

  /** `by_name` holds the positions of every name. */
  ghost predicate IndexedBelow(byName: map<string, seq<nat>>, vms: seq<NormalizedVM>, n: nat)
    requires n <= |vms|
  {
    && (forall name :: Positions(vms, n, name) == if name in byName then byName[name] else [])
    && (forall name :: name in byName ==> byName[name] != [])
  }

  /** The names in the order they first appear. */
  ghost predicate InFirstOrder(order: seq<string>, names: set<string>, vms: seq<NormalizedVM>, n: nat)
    requires n <= |vms|
  {
    Lists(order, names) && AscendingFirsts(order, vms, n)
  }

  ghost predicate Lists(order: seq<string>, names: set<string>) {
    && (forall k :: 0 <= k < |order| ==> order[k] in names)
    && (forall name :: name in names ==> Listed(order, name))
  }

  ghost predicate Listed(order: seq<string>, name: string) {
    exists k :: 0 <= k < |order| && order[k] == name
  }

  ghost predicate AscendingFirsts(order: seq<string>, vms: seq<NormalizedVM>, n: nat)
    requires n <= |vms|
  {
    && (forall k :: 0 <= k < |order| ==> FirstAt(vms, n, order[k]) < n)
    && (forall j, k :: 0 <= j < k < |order| ==> FirstAt(vms, n, order[j]) < FirstAt(vms, n, order[k]))
  }

  /** One more machine moves no first place. */
  lemma AscendingStays(order: seq<string>, vms: seq<NormalizedVM>, n: nat)
    requires n < |vms| && AscendingFirsts(order, vms, n)
    ensures AscendingFirsts(order, vms, n + 1)
  {
    forall k | 0 <= k < |order| ensures FirstAt(vms, n + 1, order[k]) == FirstAt(vms, n, order[k]) < n {
    }
  }

  lemma AscendingGrows(order: seq<string>, vms: seq<NormalizedVM>, n: nat)
    requires n < |vms| && AscendingFirsts(order, vms, n) && FirstAt(vms, n, vms[n].vmName) == n
    ensures AscendingFirsts(order + [vms[n].vmName], vms, n + 1)
  {
    AscendingStays(order, vms, n);
    var more := order + [vms[n].vmName];
    assert FirstAt(vms, n + 1, vms[n].vmName) == n;
    forall k | 0 <= k < |order| ensures FirstAt(vms, n + 1, more[k]) < n {
      assert FirstAt(vms, n, order[k]) < n;
    }
    forall j, k | 0 <= j < k < |more| ensures FirstAt(vms, n + 1, more[j]) < FirstAt(vms, n + 1, more[k]) {
      assert k < |order| ==> more[k] == order[k];
    }
  }

  function AddPosition(byName: map<string, seq<nat>>, name: string, n: nat): map<string, seq<nat>> {
    byName[name := (if name in byName then byName[name] else []) + [n]]
  }

  /** `by_name` and the order its names first appear in. */
  method IndexNames(vms: seq<NormalizedVM>) returns (byName: map<string, seq<nat>>, order: seq<string>)
    ensures IndexedBelow(byName, vms, |vms|) && InFirstOrder(order, byName.Keys, vms, |vms|)
  {
    byName, order := map[], [];
    for n := 0 to |vms|
      invariant IndexedBelow(byName, vms, n) && InFirstOrder(order, byName.Keys, vms, n)
    {
      IndexStep(byName, vms, n);
      OrderStep(order, byName, vms, n);
      if vms[n].vmName !in byName {
        order := order + [vms[n].vmName];
      }
      byName := AddPosition(byName, vms[n].vmName, n);
    }
  }

  lemma OrderStep(order: seq<string>, byName: map<string, seq<nat>>, vms: seq<NormalizedVM>, n: nat)
    requires n < |vms| && IndexedBelow(byName, vms, n) && InFirstOrder(order, byName.Keys, vms, n)
    ensures var name := vms[n].vmName;
      InFirstOrder(if name in byName then order else order + [name], byName.Keys + {name}, vms, n + 1)
  {
    ListsGrows(order, byName.Keys, vms[n].vmName);
    if vms[n].vmName in byName {
      AscendingStays(order, vms, n);
    } else {
      FirstAtIff(vms, n, vms[n].vmName);
      AscendingGrows(order, vms, n);
    }
  }

  lemma ListsGrows(order: seq<string>, names: set<string>, name: string)
    requires Lists(order, names)
    ensures Lists(if name in names then order else order + [name], names + {name})
  {
    if name in names {
      assert names + {name} == names;
    } else {
      var more := order + [name];
      assert more[|order|] == name && Listed(more, name);
      forall x | x in names ensures Listed(more, x) {
        assert Listed(order, x);
        var k :| 0 <= k < |order| && order[k] == x;
        assert more[k] == x;
      }
    }
  }

  lemma IndexStep(byName: map<string, seq<nat>>, vms: seq<NormalizedVM>, n: nat)
    requires n < |vms| && IndexedBelow(byName, vms, n)
    ensures IndexedBelow(AddPosition(byName, vms[n].vmName, n), vms, n + 1)
    ensures AddPosition(byName, vms[n].vmName, n).Keys == byName.Keys + {vms[n].vmName}
  {
    var next, after := n + 1, AddPosition(byName, vms[n].vmName, n);
    forall x ensures Positions(vms, next, x) == if x in after then after[x] else [] {
      IndexStepAt(byName, vms, n, x);
    }
  }

  lemma IndexStepAt(byName: map<string, seq<nat>>, vms: seq<NormalizedVM>, n: nat, x: string)
    requires n < |vms| && Positions(vms, n, x) == if x in byName then byName[x] else []
    ensures var after := AddPosition(byName, vms[n].vmName, n);
      Positions(vms, n + 1, x) == if x in after then after[x] else []
  {
  }

  /** A name's group is the machines that share it, once there are two. */
  lemma GroupShares(vms: seq<NormalizedVM>, idxs: seq<nat>, name: string)
    requires idxs == Positions(vms, |vms|, name)
    ensures forall i: nat :: i in idxs <==> i < |vms| && vms[i].vmName == name
    ensures forall j, k :: 0 <= j < k < |idxs| ==> idxs[j] < idxs[k]
    ensures forall i: nat :: i in idxs && |idxs| >= 2 ==> Shares(vms, i)
    ensures forall i: nat :: Shares(vms, i) && vms[i].vmName == name ==> i in idxs && |idxs| >= 2
  {
    PositionsExact(vms, |vms|, name);
    forall i: nat | i in idxs && |idxs| >= 2 ensures Shares(vms, i) {
      var j := if idxs[0] == i then idxs[1] else idxs[0];
      assert j in idxs && vms[j].vmName == vms[i].vmName;
    }
    forall i: nat | Shares(vms, i) && vms[i].vmName == name ensures i in idxs && |idxs| >= 2 {
      var j: nat :| j < |vms| && j != i && vms[j].vmName == vms[i].vmName;
      assert i in idxs && j in idxs;
    }
  }

  /** The index the group is at, or past the end. */
  function Cut(vms: seq<NormalizedVM>, idxs: seq<nat>, k: nat): nat {
    if k < |idxs| then idxs[k] else |vms|
  }

  /** The k-th member of a group has its turn next, and then nobody has until the next member. */
  lemma MemberTurn(vms: seq<NormalizedVM>, idxs: seq<nat>, name: string, k: nat, pick: Picker)
    requires idxs == Positions(vms, |vms|, name) && k < |idxs|
    ensures idxs[k] < Cut(vms, idxs, k + 1) <= |vms| && First(vms, idxs[k]) == FirstAt(vms, |vms|, name)
    ensures After(vms, FirstAt(vms, |vms|, name), idxs[k] + 1, pick) ==
      After(vms, FirstAt(vms, |vms|, name), Cut(vms, idxs, k + 1), pick)
  {
    GroupShares(vms, idxs, name);
    assert idxs[k] in idxs;
    CutBounds(vms, idxs, name, k);
    forall j | idxs[k] + 1 <= j < Cut(vms, idxs, k + 1) ensures First(vms, j) != FirstAt(vms, |vms|, name) {
      FirstOf(vms, j, idxs[k]);
      if vms[j].vmName == name {
        MemberPlace(vms, idxs, name, k, j);
      }
    }
    SkipMachines(vms, FirstAt(vms, |vms|, name), idxs[k] + 1, Cut(vms, idxs, k + 1), pick);
  }

  lemma CutBounds(vms: seq<NormalizedVM>, idxs: seq<nat>, name: string, k: nat)
    requires idxs == Positions(vms, |vms|, name) && k < |idxs|
    ensures idxs[k] < Cut(vms, idxs, k + 1) <= |vms|
  {
    GroupShares(vms, idxs, name);
    assert idxs[k] in idxs;
    assert k + 1 < |idxs| ==> idxs[k + 1] in idxs;
  }

  lemma MemberPlace(vms: seq<NormalizedVM>, idxs: seq<nat>, name: string, k: nat, j: nat)
    requires idxs == Positions(vms, |vms|, name) && k < |idxs| && j < |vms| && vms[j].vmName == name
    ensures j < idxs[k] + 1 <==> j < Cut(vms, idxs, k + 1)
  {
    GroupShares(vms, idxs, name);
    SortedGap(idxs, k, j);
  }

  lemma SortedGap(idxs: seq<nat>, k: nat, j: nat)
    requires (forall a, b :: 0 <= a < b < |idxs| ==> idxs[a] < idxs[b]) && k < |idxs| && j in idxs
    ensures j <= idxs[k] <==> k + 1 == |idxs| || j < idxs[k + 1]
  {
    var l :| 0 <= l < |idxs| && idxs[l] == j;
  }

  /** Nobody of a group has a turn before its first member; a group of one has none at all. */
  lemma GroupStarts(vms: seq<NormalizedVM>, idxs: seq<nat>, name: string, pick: Picker)
    requires idxs == Positions(vms, |vms|, name) && idxs != []
    ensures idxs[0] < |vms|
    ensures After(vms, FirstAt(vms, |vms|, name), 0, pick) == After(vms, FirstAt(vms, |vms|, name), idxs[0], pick)
    ensures |idxs| < 2 ==>
      After(vms, FirstAt(vms, |vms|, name), 0, pick) == After(vms, FirstAt(vms, |vms|, name) + 1, 0, pick)
  {
    GroupShares(vms, idxs, name);
    var f := FirstAt(vms, |vms|, name);
    assert idxs[0] in idxs;
    forall j | 0 <= j < |vms| && First(vms, j) == f ensures idxs[0] <= j && (|idxs| < 2 ==> !Renamed(vms, j)) {
      FirstOf(vms, j, idxs[0]);
      var l :| 0 <= l < |idxs| && idxs[l] == j;
    }
    SkipMachines(vms, f, 0, idxs[0], pick);
    if |idxs| < 2 {
      SkipMachines(vms, f, 0, |vms|, pick);
    }
  }

  /** The machines of one shared name, in order. */
  method RenameGroup(
    vms: seq<NormalizedVM>, idxs: seq<nat>, name: string, before: seq<NormalizedVM>, taken: set<string>,
    lower: string -> string, ghost pick: Picker)
    returns (out: seq<NormalizedVM>, taken': set<string>)
    requires idxs == Positions(vms, |vms|, name) && |idxs| >= 2 && Picks(pick, lower)
    requires (before, taken) == After(vms, FirstAt(vms, |vms|, name), 0, pick)
    ensures (out, taken') == After(vms, FirstAt(vms, |vms|, name) + 1, 0, pick)
  {
    out, taken' := before, taken;
    ghost var f := FirstAt(vms, |vms|, name);
    GroupStarts(vms, idxs, name, pick);
    for k := 0 to |idxs|
      invariant Cut(vms, idxs, k) <= |vms| && (out, taken') == After(vms, f, Cut(vms, idxs, k), pick)
    {
      MemberTurn(vms, idxs, name, k, pick);
      InGroup(vms, idxs, name, k);
      var i := idxs[k];
      if HasUuid(vms[i]) {
        var candidate := PickName(vms[i].vmName, Digits(vms[i], lower), taken');
        PickUnique(vms[i].vmName, Digits(vms[i], lower), taken', candidate, pick(vms[i], taken'));
        out, taken' := Given(vms, out, i, candidate), taken' + {candidate};
      }
    }
  }

  lemma InGroup(vms: seq<NormalizedVM>, idxs: seq<nat>, name: string, k: nat)
    requires idxs == Positions(vms, |vms|, name) && |idxs| >= 2 && k < |idxs|
    ensures Shares(vms, idxs[k])
  {
    GroupShares(vms, idxs, name);
    assert idxs[k] in idxs;
  }

  /** When the n-th name has its turn. */
  function Turn(vms: seq<NormalizedVM>, order: seq<string>, n: nat): nat {
    if n < |order| then FirstAt(vms, |vms|, order[n]) else |vms|
  }

  lemma InOrderIndexed(vms: seq<NormalizedVM>, byName: map<string, seq<nat>>, order: seq<string>, n: nat)
    requires IndexedBelow(byName, vms, |vms|) && InFirstOrder(order, byName.Keys, vms, |vms|) && n < |order|
    ensures order[n] in byName && byName[order[n]] == Positions(vms, |vms|, order[n]) != []
  {
  }

  /** No name has its turn before the first or between two neighbours. */
  lemma NextName(vms: seq<NormalizedVM>, byName: map<string, seq<nat>>, order: seq<string>, n: nat, pick: Picker)
    requires IndexedBelow(byName, vms, |vms|) && InFirstOrder(order, byName.Keys, vms, |vms|) && n <= |order|
    ensures After(vms, if n == 0 then 0 else Turn(vms, order, n - 1) + 1, 0, pick) == After(vms, Turn(vms, order, n), 0, pick)
  {
    var start := if n == 0 then 0 else Turn(vms, order, n - 1) + 1;
    TurnsAscend(vms, byName, order, n);
    forall j | 0 <= j < |vms| ensures !(start <= First(vms, j) < Turn(vms, order, n)) {
      var k := PlaceOf(vms, byName, order, j);
    }
    SkipNames(vms, start, Turn(vms, order, n), pick);
  }

  lemma TurnsAscend(vms: seq<NormalizedVM>, byName: map<string, seq<nat>>, order: seq<string>, n: nat)
    requires InFirstOrder(order, byName.Keys, vms, |vms|) && n <= |order|
    ensures n > 0 ==> Turn(vms, order, n - 1) < Turn(vms, order, n)
    ensures forall k :: 0 <= k < |order| ==>
      if k < n then Turn(vms, order, k) <= Turn(vms, order, n - 1) else Turn(vms, order, n) <= Turn(vms, order, k)
  {
  }

  lemma PlaceOf(vms: seq<NormalizedVM>, byName: map<string, seq<nat>>, order: seq<string>, j: nat) returns (k: nat)
    requires IndexedBelow(byName, vms, |vms|) && InFirstOrder(order, byName.Keys, vms, |vms|) && j < |vms|
    ensures k < |order| && order[k] == vms[j].vmName && Turn(vms, order, k) == First(vms, j)
  {
    PositionsExact(vms, |vms|, vms[j].vmName);
    assert j in Positions(vms, |vms|, vms[j].vmName);
    assert vms[j].vmName in byName.Keys && Listed(order, vms[j].vmName);
    k :| 0 <= k < |order| && order[k] == vms[j].vmName;
  }

  /** The n-th name's machines are listed, and after it the next name has its turn. */
  ghost predicate ReadyTurn(
    vms: seq<NormalizedVM>, byName: map<string, seq<nat>>, order: seq<string>, n: nat, pick: Picker)
    requires n < |order|
  {
    && order[n] in byName && byName[order[n]] == Positions(vms, |vms|, order[n]) && byName[order[n]] != []
    && After(vms, Turn(vms, order, n) + 1, 0, pick) == After(vms, Turn(vms, order, n + 1), 0, pick)
  }

  lemma AllReady(vms: seq<NormalizedVM>, byName: map<string, seq<nat>>, order: seq<string>, pick: Picker)
    requires IndexedBelow(byName, vms, |vms|) && InFirstOrder(order, byName.Keys, vms, |vms|)
    ensures forall n :: 0 <= n < |order| ==> ReadyTurn(vms, byName, order, n, pick)
    ensures After(vms, Turn(vms, order, 0), 0, pick) == (vms, Names(vms))
  {
    NextName(vms, byName, order, 0, pick);
    forall n | 0 <= n < |order| ensures ReadyTurn(vms, byName, order, n, pick) {
      IsReady(vms, byName, order, n, pick);
    }
  }

  lemma IsReady(vms: seq<NormalizedVM>, byName: map<string, seq<nat>>, order: seq<string>, n: nat, pick: Picker)
    requires IndexedBelow(byName, vms, |vms|) && InFirstOrder(order, byName.Keys, vms, |vms|) && n < |order|
    ensures ReadyTurn(vms, byName, order, n, pick)
  {
    InOrderIndexed(vms, byName, order, n);
    NextName(vms, byName, order, n + 1, pick);
  }

  /** Every name in turn, in the order names first appear. */
  method RenameGroups(
    vms: seq<NormalizedVM>, byName: map<string, seq<nat>>, order: seq<string>, lower: string -> string, ghost pick: Picker)
    returns (out: seq<NormalizedVM>)
    requires Picks(pick, lower)
    requires forall n :: 0 <= n < |order| ==> ReadyTurn(vms, byName, order, n, pick)
    requires After(vms, Turn(vms, order, 0), 0, pick) == (vms, Names(vms))
    ensures out == After(vms, |vms|, 0, pick).0
  {
    var taken := Names(vms);
    out := vms;
    for n := 0 to |order|
      invariant (out, taken) == After(vms, Turn(vms, order, n), 0, pick)
    {
      assert ReadyTurn(vms, byName, order, n, pick);
      out, taken := VisitName(vms, byName[order[n]], order[n], out, taken, lower, pick);
    }
  }

  /** One name; a name of one machine is left alone. */
  method VisitName(
    vms: seq<NormalizedVM>, idxs: seq<nat>, name: string, before: seq<NormalizedVM>, taken: set<string>,
    lower: string -> string, ghost pick: Picker)
    returns (out: seq<NormalizedVM>, taken': set<string>)
    requires idxs == Positions(vms, |vms|, name) && idxs != [] && Picks(pick, lower)
    requires (before, taken) == After(vms, FirstAt(vms, |vms|, name), 0, pick)
    ensures (out, taken') == After(vms, FirstAt(vms, |vms|, name) + 1, 0, pick)
  {
    if |idxs| >= 2 {
      out, taken' := RenameGroup(vms, idxs, name, before, taken, lower, pick);
    } else {
      out, taken' := before, taken;
      GroupStarts(vms, idxs, name, pick);
    }
  }

  /** At the end a machine avoids what it avoided at its turn. */
  lemma TakenAtTurn(vms: seq<NormalizedVM>, i: nat, pick: Picker)
    requires i < |vms|
    ensures After(vms, First(vms, i), i, pick).1 == TakenAt(vms, After(vms, |vms|, 0, pick).0, i)
  {
    var now, end, done := After(vms, First(vms, i), i, pick).0, After(vms, |vms|, 0, pick).0, Done(vms, First(vms, i), i);
    TakenIsExact(vms, First(vms, i), i, pick);
    forall j | j in done && j < |now| ensures now[j].vmName == end[j].vmName {
      FirstOf(vms, j, j);
      SinceTurn(vms, First(vms, i), i, j, pick);
      SinceTurn(vms, |vms|, 0, j, pick);
    }
    NewNamesAgree(now, end, done);
  }

  /** What the turns amount to. */
  lemma AfterAll(vms: seq<NormalizedVM>, lower: string -> string, pick: Picker)
    requires Picks(pick, lower)
    ensures Disambiguated(vms, After(vms, |vms|, 0, pick).0, lower)
  {
    var out := After(vms, |vms|, 0, pick).0;
    forall i: nat | i < |vms|
      ensures out[i] == vms[i].(vmName := out[i].vmName)
      ensures !Renamed(vms, i) ==> out[i].vmName == vms[i].vmName
      ensures Renamed(vms, i) ==> PickedAt(vms, out, i, lower)
    {
      OneTurn(vms, i, pick);
    }
  }

  lemma OneTurn(vms: seq<NormalizedVM>, i: nat, pick: Picker)
    requires i < |vms|
    ensures var out := After(vms, |vms|, 0, pick).0;
      && out[i] == vms[i].(vmName := out[i].vmName)
      && out[i].vmName == if Renamed(vms, i) then pick(vms[i], TakenAt(vms, out, i)) else vms[i].vmName
  {
    FirstOf(vms, i, i);
    SinceTurn(vms, |vms|, 0, i, pick);
    UntilTurn(vms, i, pick);
    TakenAtTurn(vms, i, pick);
  }

  /** `_disambiguate`. */
  method Disambiguate(vms: seq<NormalizedVM>, lower: string -> string) returns (out: seq<NormalizedVM>)
    ensures Disambiguated(vms, out, lower)
    ensures DistinctIdentities(vms, lower) ==> DistinctNames(out)
  {
    var byName, order := IndexNames(vms);
    ghost var pick := Picking(lower);
    PickingPicks(lower);
    AllReady(vms, byName, order, pick);
    out := RenameGroups(vms, byName, order, lower, pick);
    AfterAll(vms, lower, pick);
    if DistinctIdentities(vms, lower) {
      DisambiguatedDistinct(vms, out, lower);
    }
  }

  // ---------- distinct names ----------

  /** A given name is new, the machine's own, and none given before. */
  lemma GivenIsNew(vms: seq<NormalizedVM>, out: seq<NormalizedVM>, lower: string -> string, i: nat)
    requires Disambiguated(vms, out, lower) && Renamed(vms, i)
    ensures out[i].vmName !in TakenAt(vms, out, i) && out[i].vmName !in Names(vms)
    ensures OwnSuffix(vms[i].vmName, Digits(vms[i], lower), out[i].vmName)
  {
    assert PickedAt(vms, out, i, lower);
    PickIsOwn(vms[i].vmName, Digits(vms[i], lower), TakenAt(vms, out, i), out[i].vmName);
  }

  lemma GivenApart(vms: seq<NormalizedVM>, out: seq<NormalizedVM>, lower: string -> string, i: nat, j: nat)
    requires Disambiguated(vms, out, lower) && Renamed(vms, i) && Renamed(vms, j) && i != j
    ensures out[i].vmName != out[j].vmName
  {
    GivenIsNew(vms, out, lower, i);
    GivenIsNew(vms, out, lower, j);
    if i in Done(vms, First(vms, j), j) {
      assert out[i].vmName in NewNames(out, Done(vms, First(vms, j), j));
    } else {
      assert j in Done(vms, First(vms, i), i);
      assert out[j].vmName in NewNames(out, Done(vms, First(vms, i), i));
    }
  }

  /** Of two namesakes one is renamed: without UUIDs they would be one machine. */
  lemma BareNamesakes(vms: seq<NormalizedVM>, lower: string -> string, j: nat, k: nat)
    requires j < k < |vms| && vms[j].vmName == vms[k].vmName
    requires Identity(vms[j], lower) != Identity(vms[k], lower)
    ensures Renamed(vms, j) || Renamed(vms, k)
  {
    assert Shares(vms, j) && Shares(vms, k);
  }

  /** Distinct machines end up with distinct names. */
  lemma DisambiguatedDistinct(vms: seq<NormalizedVM>, out: seq<NormalizedVM>, lower: string -> string)
    requires Disambiguated(vms, out, lower) && DistinctIdentities(vms, lower)
    ensures DistinctNames(out)
  {
    forall j, k | 0 <= j < k < |out| ensures out[j].vmName != out[k].vmName {
      assert vms[j].vmName in Names(vms) && vms[k].vmName in Names(vms);
      if Renamed(vms, j) && Renamed(vms, k) {
        GivenApart(vms, out, lower, j, k);
      } else if Renamed(vms, j) {
        GivenIsNew(vms, out, lower, j);
      } else if Renamed(vms, k) {
        GivenIsNew(vms, out, lower, k);
      } else if vms[j].vmName == vms[k].vmName {
        BareNamesakes(vms, lower, j, k);
      }
    }
  }

  lemma {:induction false} KeepDigitsPlain(s: string)
    ensures Plain(KeepDigits(s))
  {
    if s != "" {
      KeepDigitsPlain(s[1..]);
    }
  }

  lemma NoPairConcat(s: string, t: string, a: char, b: char)
    requires NoPair(s, a, b) && NoPair(t, a, b) && (s != "" && t != "" ==> !(s[|s| - 1] == a && t[0] == b))
    ensures NoPair(s + t, a, b)
  {
    forall i | 0 <= i < |s + t| - 1 ensures !((s + t)[i] == a && (s + t)[i + 1] == b) {
      if i >= |s| {
        assert (s + t)[i] == t[i - |s|] && (s + t)[i + 1] == t[i - |s| + 1];
      }
    }
  }

  predicate Plain(s: string) {
    forall i :: 0 <= i < |s| ==> IsNumeral(s[i]) || IsLower(s[i])
  }

  lemma CleanThenPlain(name: string, tail: string)
    requires Clean(name) && tail != "" && Plain(tail)
    ensures Clean(name + "-" + tail)
  {
    assert !IsSpace('-');
    var s := name + ("-" + tail);
    assert s == name + "-" + tail;
    DashThenPlain(tail);
    NoPairConcat(name, "-" + tail, '$', '(');
    NoPairConcat(name, "-" + tail, ' ', ' ');
    NoPairConcat(name, "-" + tail, '-', '-');
    assert s[0] == name[0] && s[|s| - 1] == tail[|tail| - 1];
  }

  lemma DashThenPlain(tail: string)
    requires tail != "" && Plain(tail)
    ensures var t := "-" + tail; NoPair(t, '$', '(') && NoPair(t, ' ', ' ') && NoPair(t, '-', '-')
    ensures var t := "-" + tail; forall i :: 0 <= i < |t| ==> !Unsafe(t[i]) && !IsSpace(t[i])
  {
  }

  /** The sanitizer's guarantee outlives renaming: a suffixed name is still a safe name. */
  lemma RenamedStaysClean(vm: NormalizedVM, candidate: string, lower: string -> string)
    requires Clean(vm.vmName) && vm.sourceUuid.Some?
    requires OwnSuffix(vm.vmName, Digits(vm, lower), candidate)
    ensures Clean(candidate)
  {
    var digits, name := Digits(vm, lower), vm.vmName;
    DigitsPlain(vm, lower);
    if n: nat :| candidate == Candidate(name, digits, |digits|) + "-" + Decimal(n) {
      SuffixStaysClean(name, digits, |digits|);
      CleanThenPlain(Candidate(name, digits, |digits|), Decimal(n));
    } else {
      var width :| ShortWidth(digits) <= width <= |digits| && candidate == Candidate(name, digits, width);
      SuffixStaysClean(name, digits, width);
    }
  }

  lemma DigitsPlain(vm: NormalizedVM, lower: string -> string)
    requires vm.sourceUuid.Some?
    ensures Plain(Digits(vm, lower))
  {
    KeepDigitsPlain(lower(vm.sourceUuid.value));
  }

  lemma SuffixStaysClean(name: string, digits: string, width: nat)
    requires Clean(name) && 0 < width <= |digits|
    requires Plain(digits)
    ensures Clean(Candidate(name, digits, width))
  {
    CleanThenPlain(name, digits[|digits| - width..]);
  }

  // ---------- the order of the export ----------

  /** The machine is renamed: it has a UUID and a namesake. */
  ghost predicate HasNamesake(vms: seq<NormalizedVM>, vm: NormalizedVM) {
    vm in vms && HasUuid(vm) && exists u :: u in vms && u != vm && u.vmName == vm.vmName
  }

  lemma RenamedIff(vms: seq<NormalizedVM>, lower: string -> string, i: nat)
    requires DistinctIdentities(vms, lower) && i < |vms|
    ensures Renamed(vms, i) <==> HasNamesake(vms, vms[i])
  {
    if Renamed(vms, i) {
      var j :| 0 <= j < |vms| && j != i && vms[j].vmName == vms[i].vmName;
      assert vms[j] != vms[i] by {
        assert if i < j then Identity(vms[i], lower) != Identity(vms[j], lower) else Identity(vms[j], lower) != Identity(vms[i], lower);
      }
    }
    if HasNamesake(vms, vms[i]) {
      var u :| u in vms && u != vms[i] && u.vmName == vms[i].vmName;
      var j :| 0 <= j < |vms| && vms[j] == u;
      assert Shares(vms, i);
    }
  }

  /** No two machines to be renamed would pick the same name, each against the original names alone. */
  ghost predicate PicksApart(vms: seq<NormalizedVM>, lower: string -> string) {
    forall u, v :: HasNamesake(vms, u) && HasNamesake(vms, v) && u != v ==>
      Pick(u, Names(vms), lower) != Pick(v, Names(vms), lower)
  }

  /** Then everyone gets that pick, whenever their turn is. */
  lemma {:induction false} OwnPickKept(
    vms: seq<NormalizedVM>, out: seq<NormalizedVM>, lower: string -> string, i: nat)
    requires DistinctIdentities(vms, lower) && Disambiguated(vms, out, lower) && PicksApart(vms, lower) && Renamed(vms, i)
    ensures out[i].vmName == Pick(vms[i], Names(vms), lower)
    decreases First(vms, i), i
  {
    var own := Pick(vms[i], Names(vms), lower);
    RenamedIff(vms, lower, i);
    PickIs(vms[i], Names(vms), lower);
    PickIsOwn(vms[i].vmName, Digits(vms[i], lower), Names(vms), own);
    forall x | x in TakenAt(vms, out, i) ensures x != own {
      if x !in Names(vms) {
        var j :| j in Done(vms, First(vms, i), i) && j < |out| && out[j].vmName == x;
        OwnPickKept(vms, out, lower, j);
        PicksDiffer(vms, lower, i, j);
      }
    }
    assert PickedAt(vms, out, i, lower);
    PickStays(vms[i].vmName, Digits(vms[i], lower), Names(vms), TakenAt(vms, out, i), own);
    PickUnique(vms[i].vmName, Digits(vms[i], lower), TakenAt(vms, out, i), out[i].vmName, own);
  }

  lemma PicksDiffer(vms: seq<NormalizedVM>, lower: string -> string, i: nat, j: nat)
    requires DistinctIdentities(vms, lower) && PicksApart(vms, lower) && Renamed(vms, i) && Renamed(vms, j) && i != j
    ensures Pick(vms[i], Names(vms), lower) != Pick(vms[j], Names(vms), lower)
  {
    RenamedIff(vms, lower, i);
    RenamedIff(vms, lower, j);
    assert if i < j then Identity(vms[i], lower) != Identity(vms[j], lower) else Identity(vms[j], lower) != Identity(vms[i], lower);
  }

  /** The same machine has the same name in both. */
  ghost predicate SameNames(a: seq<NormalizedVM>, oa: seq<NormalizedVM>, b: seq<NormalizedVM>, ob: seq<NormalizedVM>)
    requires |a| == |oa| && |b| == |ob|
  {
    forall i, j :: 0 <= i < |a| && 0 <= j < |b| && a[i] == b[j] ==> oa[i] == ob[j]
  }

  /** However the machines are ordered, each is named the same. */
  ghost predicate OrderFree(vms: seq<NormalizedVM>, lower: string -> string) {
    forall a, oa, b, ob :: Reorders(vms, a, oa, lower) && Reorders(vms, b, ob, lower) ==> SameNames(a, oa, b, ob)
  }

  /** An order of the machines and the names given in that order. */
  ghost predicate Reorders(vms: seq<NormalizedVM>, a: seq<NormalizedVM>, oa: seq<NormalizedVM>, lower: string -> string)
    ensures Reorders(vms, a, oa, lower) ==> |oa| == |a|
  {
    multiset(a) == multiset(vms) && Disambiguated(a, oa, lower)
  }

  lemma ReorderedFacts(vms: seq<NormalizedVM>, a: seq<NormalizedVM>, lower: string -> string)
    requires DistinctIdentities(vms, lower) && multiset(a) == multiset(vms)
    ensures DistinctIdentities(a, lower) && Names(a) == Names(vms)
    ensures forall vm :: HasNamesake(a, vm) <==> HasNamesake(vms, vm)
  {
    PermutedMembers(vms, a);
    assert NoDuplicates(vms) by {
      forall i, j | 0 <= i < j < |vms| ensures vms[i] != vms[j] {
        assert Identity(vms[i], lower) != Identity(vms[j], lower);
      }
    }
    PermutedDistinct(vms, a);
    forall i, j | 0 <= i < j < |a| ensures Identity(a[i], lower) != Identity(a[j], lower) {
      assert a[i] in vms && a[j] in vms && a[i] != a[j];
      ApartInside(vms, lower, a[i], a[j]);
    }
    NamesWithin(vms, a);
    NamesWithin(a, vms);
  }

  lemma ApartInside(vms: seq<NormalizedVM>, lower: string -> string, u: NormalizedVM, v: NormalizedVM)
    requires DistinctIdentities(vms, lower) && u in vms && v in vms && u != v
    ensures Identity(u, lower) != Identity(v, lower)
  {
    var i :| 0 <= i < |vms| && vms[i] == u;
    var j :| 0 <= j < |vms| && vms[j] == v;
    assert if i < j then Identity(vms[i], lower) != Identity(vms[j], lower) else Identity(vms[j], lower) != Identity(vms[i], lower);
  }

  lemma NamesWithin(a: seq<NormalizedVM>, b: seq<NormalizedVM>)
    requires forall vm :: vm in a ==> vm in b
    ensures Names(a) <= Names(b)
  {
    forall x | x in Names(a) ensures x in Names(b) {
      var i :| 0 <= i < |a| && a[i].vmName == x;
      assert a[i] in b;
      var j :| 0 <= j < |b| && b[j] == a[i];
    }
  }

  /** In every order, a machine has its bare name or its own pick. */
  lemma NameInOrder(
    vms: seq<NormalizedVM>, a: seq<NormalizedVM>, oa: seq<NormalizedVM>, lower: string -> string, i: nat)
    requires DistinctIdentities(vms, lower) && PicksApart(vms, lower) && Reorders(vms, a, oa, lower) && i < |a|
    ensures oa[i] == a[i].(vmName := if HasNamesake(vms, a[i]) then Pick(a[i], Names(vms), lower) else a[i].vmName)
  {
    ReorderedFacts(vms, a, lower);
    RenamedIff(a, lower, i);
    if Renamed(a, i) {
      OwnPickKept(a, oa, lower, i);
    }
  }

  /** The machine first, the others as they were. */
  function ToFront(vms: seq<NormalizedVM>, i: nat): seq<NormalizedVM>
    requires i < |vms|
  {
    [vms[i]] + (vms[..i] + vms[i + 1..])
  }

  lemma ToFrontReorders(vms: seq<NormalizedVM>, i: nat)
    requires i < |vms|
    ensures multiset(ToFront(vms, i)) == multiset(vms)
  {
    assert vms == vms[..i] + ([vms[i]] + vms[i + 1..]);
  }

  /** Whoever comes first gets its own pick. */
  lemma FirstGetsOwn(a: seq<NormalizedVM>, out: seq<NormalizedVM>, lower: string -> string)
    requires Disambiguated(a, out, lower) && Renamed(a, 0)
    ensures out[0].vmName == Pick(a[0], Names(a), lower)
  {
    assert PickedAt(a, out, 0, lower);
    FirstTurn(a, out);
    PickIs(a[0], Names(a), lower);
    PickUnique(a[0].vmName, Digits(a[0], lower), Names(a), out[0].vmName, Pick(a[0], Names(a), lower));
  }

  lemma OutcomeExists(a: seq<NormalizedVM>, lower: string -> string) returns (out: seq<NormalizedVM>)
    ensures Disambiguated(a, out, lower)
  {
    out := After(a, |a|, 0, Picking(lower)).0;
    PickingPicks(lower);
    AfterAll(a, lower, Picking(lower));
  }

  /** An order in which machine i gets its own pick. */
  lemma OwnPickGiven(vms: seq<NormalizedVM>, lower: string -> string, i: nat) returns (out: seq<NormalizedVM>)
    requires DistinctIdentities(vms, lower) && i < |vms| && HasNamesake(vms, vms[i])
    ensures Reorders(vms, ToFront(vms, i), out, lower)
    ensures out[0].vmName == Pick(vms[i], Names(vms), lower)
  {
    var a := ToFront(vms, i);
    out := OutcomeExists(a, lower);
    ToFrontReorders(vms, i);
    ReorderedFacts(vms, a, lower);
    RenamedIff(a, lower, 0);
    FirstGetsOwn(a, out, lower);
  }

  /** Two machines with one pick: each gets it in the order that has it first. */
  lemma ClashShows(vms: seq<NormalizedVM>, lower: string -> string, u: NormalizedVM, v: NormalizedVM)
    requires DistinctIdentities(vms, lower) && HasNamesake(vms, u) && HasNamesake(vms, v) && u != v
    ensures OrderFree(vms, lower) ==> Pick(u, Names(vms), lower) != Pick(v, Names(vms), lower)
  {
    var i :| 0 <= i < |vms| && vms[i] == u;
    var j :| 0 <= j < |vms| && vms[j] == v;
    var a, b := ToFront(vms, i), ToFront(vms, j);
    var oa := OwnPickGiven(vms, lower, i);
    var ob := OwnPickGiven(vms, lower, j);
    ReorderedFacts(vms, b, lower);
    PermutedMembers(vms, b);
    var k :| 0 <= k < |b| && b[k] == u;
    RenamedIff(b, lower, k);
    RenamedIff(b, lower, 0);
    GivenApart(b, ob, lower, k, 0);
    assert a[0] == b[k];
    if OrderFree(vms, lower) {
      assert SameNames(a, oa, b, ob);
    }
  }

  /**
   The export's order does not matter exactly when, each against the original names alone, no
   two machines to be renamed pick the same name.
   */
  lemma OrderFreeIff(vms: seq<NormalizedVM>, lower: string -> string)
    requires DistinctIdentities(vms, lower)
    ensures OrderFree(vms, lower) <==> PicksApart(vms, lower)
  {
    if PicksApart(vms, lower) {
      forall a, oa, b, ob | Reorders(vms, a, oa, lower) && Reorders(vms, b, ob, lower) ensures SameNames(a, oa, b, ob) {
        forall i, j | 0 <= i < |a| && 0 <= j < |b| && a[i] == b[j] ensures oa[i] == ob[j] {
          NameInOrder(vms, a, oa, lower, i);
          NameInOrder(vms, b, ob, lower, j);
        }
      }
    }
    forall u, v | OrderFree(vms, lower) && HasNamesake(vms, u) && HasNamesake(vms, v) && u != v
      ensures Pick(u, Names(vms), lower) != Pick(v, Names(vms), lower)
    {
      ClashShows(vms, lower, u, v);
    }
  }

  /** Short names all round are had exactly when they are free. */
  lemma ShortNamesIff(vms: seq<NormalizedVM>, out: seq<NormalizedVM>, lower: string -> string)
    requires DistinctIdentities(vms, lower) && Disambiguated(vms, out, lower)
    ensures ShortNamesFree(vms, lower) <==> forall i: nat :: Renamed(vms, i) ==> out[i].vmName == ShortName(vms[i], lower)
  {
    if ShortNamesFree(vms, lower) {
      ShortNamesApart(vms, lower);
      forall i: nat | Renamed(vms, i) ensures out[i].vmName == ShortName(vms[i], lower) {
        OwnPickKept(vms, out, lower, i);
        ShortIsPick(vms, lower, i);
      }
    }
    if forall i: nat :: Renamed(vms, i) ==> out[i].vmName == ShortName(vms[i], lower) {
      ShortNamesWereFree(vms, out, lower);
    }
  }

  lemma ShortIsPick(vms: seq<NormalizedVM>, lower: string -> string, i: nat)
    requires Renamed(vms, i) && ShortName(vms[i], lower) !in Names(vms)
    ensures Pick(vms[i], Names(vms), lower) == ShortName(vms[i], lower)
  {
    PickIs(vms[i], Names(vms), lower);
    ShortPick(vms[i].vmName, Digits(vms[i], lower), Names(vms));
    PickUnique(vms[i].vmName, Digits(vms[i], lower), Names(vms), Pick(vms[i], Names(vms), lower), ShortName(vms[i], lower));
  }

  /** Free short names are one way for the picks to be apart. */
  lemma ShortNamesApart(vms: seq<NormalizedVM>, lower: string -> string)
    requires DistinctIdentities(vms, lower) && ShortNamesFree(vms, lower)
    ensures PicksApart(vms, lower)
  {
    forall u, v | HasNamesake(vms, u) && HasNamesake(vms, v) && u != v
      ensures Pick(u, Names(vms), lower) != Pick(v, Names(vms), lower)
    {
      var i :| 0 <= i < |vms| && vms[i] == u;
      var j :| 0 <= j < |vms| && vms[j] == v;
      RenamedIff(vms, lower, i);
      RenamedIff(vms, lower, j);
      ShortIsPick(vms, lower, i);
      ShortIsPick(vms, lower, j);
    }
  }

  lemma ShortNamesWereFree(vms: seq<NormalizedVM>, out: seq<NormalizedVM>, lower: string -> string)
    requires Disambiguated(vms, out, lower)
    requires forall i: nat :: Renamed(vms, i) ==> out[i].vmName == ShortName(vms[i], lower)
    ensures ShortNamesFree(vms, lower)
  {
    forall i: nat | Renamed(vms, i) ensures ShortName(vms[i], lower) !in Names(vms) {
      GivenIsNew(vms, out, lower, i);
    }
    forall i: nat, j: nat | Renamed(vms, i) && Renamed(vms, j) && i != j
      ensures ShortName(vms[i], lower) != ShortName(vms[j], lower)
    {
      GivenApart(vms, out, lower, i, j);
    }
  }

  // ---------- exports whose order matters ----------

  /** Nobody goes before the first machine. */
  lemma FirstTurn(vms: seq<NormalizedVM>, out: seq<NormalizedVM>)
    requires |out| == |vms| > 0
    ensures TakenAt(vms, out, 0) == Names(vms)
  {
    FirstOf(vms, 0, 0);
    assert Done(vms, 0, 0) == {} && NewNames(out, {}) == {};
  }

  /** Only the first of two namesakes goes before the second. */
  lemma SecondTurn(vms: seq<NormalizedVM>, out: seq<NormalizedVM>)
    requires |out| == |vms| == 2 && vms[0].vmName == vms[1].vmName && Renamed(vms, 0)
    ensures TakenAt(vms, out, 1) == Names(vms) + {out[0].vmName}
  {
    FirstOf(vms, 0, 1);
    assert Done(vms, 0, 1) == {0};
    assert NewNames(out, {0}) == {out[0].vmName};
  }

  /** Two namesakes with more than eight characters of UUID, the last eight the same. */
  predicate Twins(a: NormalizedVM, b: NormalizedVM, lower: string -> string) {
    && a.vmName == b.vmName && HasUuid(a) && HasUuid(b)
    && |Digits(a, lower)| > 8 && |Digits(b, lower)| > 8
    && Digits(a, lower)[|Digits(a, lower)| - 8..] == Digits(b, lower)[|Digits(b, lower)| - 8..]
  }

  lemma TwinsRenamed(a: NormalizedVM, b: NormalizedVM, lower: string -> string)
    requires Twins(a, b, lower)
    ensures Renamed([a, b], 0) && Renamed([a, b], 1) && Names([a, b]) == {a.vmName}
    ensures ShortName(a, lower) == ShortName(b, lower)
  {
    var vms := [a, b];
    assert vms[0].vmName == vms[1].vmName;
    assert Shares(vms, 0) && Shares(vms, 1);
    assert vms[0].vmName in Names(vms);
  }

  /** The first of the two gets the short name. */
  lemma TwinFirst(a: NormalizedVM, b: NormalizedVM, lower: string -> string, out: seq<NormalizedVM>)
    requires Twins(a, b, lower) && Disambiguated([a, b], out, lower)
    ensures out[0].vmName == ShortName(a, lower)
  {
    TwinsRenamed(a, b, lower);
    assert PickedAt([a, b], out, 0, lower);
    FirstTurn([a, b], out);
    assert |ShortName(a, lower)| == |a.vmName| + 9;
    ShortPick(a.vmName, Digits(a, lower), {a.vmName});
    PickUnique(a.vmName, Digits(a, lower), {a.vmName}, out[0].vmName, ShortName(a, lower));
  }

  /** The second gets one character more. */
  lemma TwinSecond(a: NormalizedVM, b: NormalizedVM, lower: string -> string, out: seq<NormalizedVM>)
    requires Twins(a, b, lower) && Disambiguated([a, b], out, lower)
    ensures out[1].vmName == Candidate(b.vmName, Digits(b, lower), 9)
  {
    TwinsRenamed(a, b, lower);
    TwinFirst(a, b, lower, out);
    assert PickedAt([a, b], out, 1, lower);
    SecondTurn([a, b], out);
    var taken := {a.vmName} + {ShortName(b, lower)};
    var wider := Candidate(b.vmName, Digits(b, lower), 9);
    assert |wider| == |b.vmName| + 10 && |ShortName(b, lower)| == |b.vmName| + 9;
    assert TakenBelow(b.vmName, Digits(b, lower), taken, 9) && IsFirstWidth(b.vmName, Digits(b, lower), taken, 9);
    PickUnique(b.vmName, Digits(b, lower), taken, out[1].vmName, wider);
  }

  /** Exported in the other order, the same machine has another name. */
  lemma TwinsSwap(a: NormalizedVM, b: NormalizedVM, lower: string -> string, out: seq<NormalizedVM>, out': seq<NormalizedVM>)
    requires Twins(a, b, lower) && Twins(b, a, lower)
    requires Disambiguated([a, b], out, lower) && Disambiguated([b, a], out', lower)
    ensures out[0].vmName == ShortName(a, lower) && out'[1].vmName == Candidate(a.vmName, Digits(a, lower), 9)
    ensures out[0].vmName != out'[1].vmName
  {
    TwinFirst(a, b, lower, out);
    TwinSecond(b, a, lower, out');
    assert |out'[1].vmName| == |out[0].vmName| + 1;
  }

  lemma {:induction false} KeepDigitsKeeps(s: string)
    requires Plain(s)
    ensures KeepDigits(s) == s
  {
    if s != "" {
      KeepDigitsKeeps(s[1..]);
    }
  }

  function Machine(name: string, uuid: string): NormalizedVM {
    NormalizedVM(name, Some(uuid), None, [], Hardware(1, 1.0, [], None, None))
  }

  /** Such machines exist: one name, and UUIDs that differ in their first of nine characters. */
  lemma TwinsExist(name: string, tail: string, c: char, d: char, lower: string -> string)
    requires |tail| == 8 && Plain(tail) && Plain([c]) && Plain([d])
    requires lower([c] + tail) == [c] + tail && lower([d] + tail) == [d] + tail
    ensures Twins(Machine(name, [c] + tail), Machine(name, [d] + tail), lower)
  {
    PlainCons(c, tail);
    PlainCons(d, tail);
    KeepDigitsKeeps([c] + tail);
    KeepDigitsKeeps([d] + tail);
    assert ([c] + tail)[1..] == tail && ([d] + tail)[1..] == tail;
  }

  lemma PlainCons(c: char, tail: string)
    requires Plain([c]) && Plain(tail)
    ensures Plain([c] + tail)
  {
    assert [c][0] == c;
  }

  /** `app01` with the UUIDs 100000017 and 200000017. */
  lemma SuchAsThese()
    ensures Twins(Machine("app01", "1" + "00000017"), Machine("app01", "2" + "00000017"), s => s)
  {
    TwinsExist("app01", "00000017", '1', '2', s => s);
  }
}
