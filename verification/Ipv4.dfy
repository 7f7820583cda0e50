/**
 IPv4 blocks as Python's `ipaddress` reads, writes and compares them: dotted decimal
 with a prefix length (section 3.1 of RFC 4632).
 */
module Ipv4 {
  import opened Options
  import opened Text

  // ---------- blocks ----------

  function Pow2(n: nat): (r: nat)
    ensures r > 0
  {
    if n == 0 then 1 else 2 * Pow2(n - 1)
  }

  const SPACE: nat := 0x1_0000_0000

  /** Number of addresses under a prefix. */
  function Size(prefix: nat): nat
    requires prefix <= 32
  {
    Pow2(32 - prefix)
  }

  /** A block: its network address and prefix length. */
  datatype Net = Net(base: nat, prefix: nat) {
    ghost predicate Valid() {
      prefix <= 32 && base < SPACE && base % Size(prefix) == 0
    }

    predicate Contains(address: nat)
      requires prefix <= 32
    {
      base <= address < base + Size(prefix)
    }

    function Broadcast(): int
      requires prefix <= 32
    {
      base + Size(prefix) - 1
    }

    predicate SubnetOf(other: Net)
      requires prefix <= 32 && other.prefix <= 32
    {
      other.base <= base && other.Broadcast() >= Broadcast()
    }

    predicate Overlaps(other: Net)
      requires prefix <= 32 && other.prefix <= 32
    {
      other.Contains(base) || other.Contains(Broadcast()) || Contains(other.base) || Contains(other.Broadcast())
    }
  }

  /** The endpoint test of `overlaps` finds every common address. */
  lemma OverlapsIffShared(a: Net, b: Net)
    requires a.prefix <= 32 && b.prefix <= 32
    ensures a.Overlaps(b) <==> exists x: nat :: a.Contains(x) && b.Contains(x)
  {
    if a.Overlaps(b) {
      var x: nat := if a.base <= b.base then b.base else a.base;
      assert a.Contains(x) && b.Contains(x);
    }
  }

  /** `subnet_of` is inclusion of addresses. */
  lemma SubnetOfIffIncluded(a: Net, b: Net)
    requires a.prefix <= 32 && b.prefix <= 32
    ensures a.SubnetOf(b) <==> forall x: nat :: a.Contains(x) ==> b.Contains(x)
  {
    if forall x: nat :: a.Contains(x) ==> b.Contains(x) {
      assert a.Contains(a.base) && a.Contains(a.Broadcast());
    }
  }

  lemma {:induction false} Pow2Adds(m: nat, n: nat)
    ensures Pow2(m + n) == Pow2(m) * Pow2(n)
  {
    if m > 0 {
      Pow2Adds(m - 1, n);
      assert Pow2(m - 1 + n) == Pow2(m - 1) * Pow2(n);
      calc {
        Pow2(m + n);
        2 * Pow2(m - 1 + n);
        2 * (Pow2(m - 1) * Pow2(n));
        (2 * Pow2(m - 1)) * Pow2(n);
      }
    }
  }

  lemma MulMonotone(a: nat, b: nat, s: nat)
    requires a <= b
    ensures a * s <= b * s
  {
    assert b * s == a * s + (b - a) * s;
  }

  /** A multiple of s that meets a window of k multiples of s lies inside it. */
  lemma MultiplesNest(s: nat, j: nat, m: nat, k: nat, x: nat)
    requires s > 0 && j * s <= x < j * s + s && m * s <= x < (m + k) * s
    ensures m * s <= j * s && j * s + s <= (m + k) * s
  {
    assert (j + 1) * s == j * s + s;
    if j < m {
      MulMonotone(j + 1, m, s);
    }
    if m + k <= j {
      MulMonotone(m + k, j, s);
    }
    MulMonotone(j + 1, m + k, s);
  }

  lemma ExactQuotient(x: nat, d: nat)
    requires d > 0 && x % d == 0
    ensures x == (x / d) * d
  {
  }

  /** The base of a wider block, in units of a narrower one. */
  lemma WiderBlock(a: Net, b: Net) returns (s: nat, m: nat, k: nat)
    requires a.Valid() && b.Valid() && b.prefix <= a.prefix
    ensures s == Size(a.prefix) && b.base == m * s && Size(b.prefix) == k * s
  {
    s, k := Size(a.prefix), Pow2(a.prefix - b.prefix);
    Pow2Adds(a.prefix - b.prefix, 32 - a.prefix);
    m := InUnits(b.base, Size(b.prefix), s, k);
  }

  lemma InUnits(base: nat, size: nat, s: nat, k: nat) returns (m: nat)
    requires size > 0 && size == k * s && base % size == 0
    ensures base == m * s
  {
    ExactQuotient(base, size);
    m := base / size * k;
    MulAssociates(base / size, k, s);
  }

  lemma MulAssociates(a: nat, b: nat, c: nat)
    ensures a * (b * c) == (a * b) * c
  {
  }

  /** Blocks nest or are disjoint: a narrower one that meets a wider one lies inside it. */
  lemma NestedOrDisjoint(a: Net, b: Net)
    requires a.Valid() && b.Valid() && b.prefix <= a.prefix
    ensures a.Overlaps(b) <==> a.SubnetOf(b)
  {
    OverlapsIffShared(a, b);
    if a.Overlaps(b) {
      var x: nat :| a.Contains(x) && b.Contains(x);
      var s, m, k := WiderBlock(a, b);
      ExactQuotient(a.base, s);
      WindowAdds(m, k, s);
      MultiplesNest(s, a.base / s, m, k, x);
    } else {
      assert a.Contains(a.base);
    }
  }

  lemma WindowAdds(m: nat, k: nat, s: nat)
    ensures (m + k) * s == m * s + k * s
  {
  }

  // ---------- text ----------

  /** `s.split(sep)`. */
  function Split(s: string, sep: char): (parts: seq<string>)
    ensures |parts| > 0
  {
    if s == "" then [""]
    else if s[0] == sep then [""] + Split(s[1..], sep)
    else
      var parts := Split(s[1..], sep);
      [[s[0]] + parts[0]] + parts[1..]
  }

  lemma {:induction false} SplitFirst(x: string, sep: char, rest: string)
    requires sep !in x
    ensures Split(x, sep) == [x]
    ensures Split(x + ([sep] + rest), sep) == [x] + Split(rest, sep)
  {
    var s := x + ([sep] + rest);
    if x == "" {
      assert s[1..] == rest;
    } else {
      SplitFirst(x[1..], sep, rest);
      assert s[1..] == x[1..] + ([sep] + rest);
      assert x == [x[0]] + x[1..];
    }
  }

  predicate AllNumerals(s: string) {
    s != "" && forall i :: 0 <= i < |s| ==> '0' <= s[i] <= '9'
  }

  /** An octet: one to three digits, no leading zero, at most 255. */
  function ParseOctet(s: string): Option<nat> {
    if AllNumerals(s) && |s| <= 3 && (|s| == 1 || s[0] != '0') && 0 <= DecimalValue(s) <= 255
    then Some(DecimalValue(s)) else None
  }

  function ParseAddress(s: string): Option<nat> {
    var parts := Split(s, '.');
    if |parts| != 4 then None
    else
      match (ParseOctet(parts[0]), ParseOctet(parts[1]), ParseOctet(parts[2]), ParseOctet(parts[3]))
      case (Some(a), Some(b), Some(c), Some(d)) => Some(((a * 256 + b) * 256 + c) * 256 + d)
      case _ => None
  }

  function ParsePrefix(s: string): (p: Option<nat>)
    ensures p.Some? ==> p.value <= 32
  {
    if AllNumerals(s) && 0 <= DecimalValue(s) <= 32 then Some(DecimalValue(s)) else None
  }

  /** The network address of a host address. */
  function Masked(address: nat, prefix: nat): (base: nat)
    requires prefix <= 32
    ensures base <= address && base % Size(prefix) == 0
    ensures address % Size(prefix) == 0 ==> base == address
    ensures address < base + Size(prefix)
  {
    RoundDown(address, Size(prefix))
  }

  /** The greatest multiple not above. */
  function RoundDown(x: nat, size: nat): (base: nat)
    requires size > 0
    ensures base <= x < base + size && base % size == 0 && (x % size == 0 ==> base == x)
  {
    MaskedIsMultiple(x, size);
    x - x % size
  }

  /** `ipaddress.ip_network(s, strict=strict)`: a host address is a /32; host bits are an
      error when strict and masked away otherwise. */
  function ParseNetwork(s: string, strict: bool): Option<Net> {
    var parts := Split(s, '/');
    var address := ParseAddress(parts[0]);
    var prefix := if |parts| == 1 then Some(32) else ParsePrefix(parts[1]);
    if |parts| > 2 || address.None? || prefix.None? then None
    else if strict && Masked(address.value, prefix.value) != address.value then None
    else Some(Net(Masked(address.value, prefix.value), prefix.value))
  }

  /** The address as four octets. */
  function FormatOctets(p: nat, q: nat, r: nat, s: nat): string {
    Dotted(Decimal(p), Decimal(q), Decimal(r), Decimal(s))
  }

  function FormatAddress(a: nat): string {
    FormatOctets(a / 0x100_0000 % 256, a / 0x1_0000 % 256, a / 256 % 256, a % 256)
  }

  /** `str(network)`. */
  function Format(n: Net): string {
    FormatAddress(n.base) + ("/" + Decimal(n.prefix))
  }

  lemma {:induction false} DecimalLead(n: nat)
    ensures n > 0 ==> Decimal(n)[0] != '0'
  {
    if n >= 10 {
      DecimalLead(n / 10);
    }
  }

  lemma DecimalShort(n: nat)
    requires n < 1000
    ensures |Decimal(n)| <= 3 && (n < 10 ==> |Decimal(n)| == 1)
  {
    assert n / 10 >= 10 ==> |Decimal(n / 10 / 10)| == 1;
  }

  lemma DecimalOctet(n: nat)
    requires n <= 255
    ensures ParseOctet(Decimal(n)) == Some(n)
  {
    DecimalRoundTrip(n);
    DecimalLead(n);
    DecimalShort(n);
  }

  lemma SplitFour(p: string, q: string, r: string, s: string)
    requires '.' !in p && '.' !in q && '.' !in r && '.' !in s
    ensures Split(p + ("." + (q + ("." + (r + ("." + s))))), '.') == [p, q, r, s]
  {
    SplitFirst(s, '.', "");
    SplitFirst(r, '.', s);
    SplitFirst(q, '.', r + ("." + s));
    SplitFirst(p, '.', q + ("." + (r + ("." + s))));
  }

  /** Four octets joined by dots. */
  function Dotted(p: string, q: string, r: string, s: string): string {
    p + ("." + (q + ("." + (r + ("." + s)))))
  }

  lemma OctetStringsParse(x: string, y: string, z: string, w: string, p: nat, q: nat, r: nat, s: nat, a: nat)
    requires ParseOctet(x) == Some(p) && ParseOctet(y) == Some(q) && ParseOctet(z) == Some(r) && ParseOctet(w) == Some(s)
    requires ((p * 256 + q) * 256 + r) * 256 + s == a
    ensures '/' !in Dotted(x, y, z, w)
    ensures ParseAddress(Dotted(x, y, z, w)) == Some(a)
  {
    SplitFour(x, y, z, w);
  }

  lemma OctetsRecombine(a: nat)
    requires a < SPACE
    ensures ((a / 0x100_0000 % 256 * 256 + a / 0x1_0000 % 256) * 256 + a / 256 % 256) * 256 + a % 256 == a
  {
    assert a / 0x1_0000 == a / 256 / 256 && a / 0x100_0000 == a / 256 / 256 / 256;
  }

  lemma OctetsParse(p: nat, q: nat, r: nat, s: nat, a: nat)
    requires p <= 255 && q <= 255 && r <= 255 && s <= 255 && ((p * 256 + q) * 256 + r) * 256 + s == a
    ensures ParseAddress(FormatOctets(p, q, r, s)) == Some(a)
    ensures '/' !in FormatOctets(p, q, r, s)
  {
    DecimalOctet(p);
    DecimalOctet(q);
    DecimalOctet(r);
    DecimalOctet(s);
    OctetStringsParse(Decimal(p), Decimal(q), Decimal(r), Decimal(s), p, q, r, s, a);
  }

  lemma AddressRoundTrip(a: nat)
    requires a < SPACE
    ensures ParseAddress(FormatAddress(a)) == Some(a)
    ensures '/' !in FormatAddress(a)
  {
    OctetsRecombine(a);
    OctetsParse(a / 0x100_0000 % 256, a / 0x1_0000 % 256, a / 256 % 256, a % 256, a);
  }

  /** What the planner prints, the validator reads back. */
  lemma NetworkRoundTrip(n: Net, strict: bool)
    requires n.Valid()
    ensures ParseNetwork(Format(n), strict) == Some(n)
  {
    AddressRoundTrip(n.base);
    DecimalRoundTrip(n.prefix);
    SplitFirst(Decimal(n.prefix), '/', "");
    SplitFirst(FormatAddress(n.base), '/', Decimal(n.prefix));
  }

  lemma ParsedAddressRange(s: string)
    ensures ParseAddress(s).Some? ==> ParseAddress(s).value < SPACE
  {
  }

  /** Whatever parses is a valid block. */
  lemma ParsedIsValid(s: string, strict: bool)
    ensures ParseNetwork(s, strict).Some? ==> ParseNetwork(s, strict).value.Valid()
  {
    var n := ParseNetwork(s, strict);
    if n.Some? {
      var parts := Split(s, '/');
      ParsedAddressRange(parts[0]);
    }
  }

  lemma MaskedIsMultiple(address: nat, size: nat)
    requires size > 0
    ensures (address - address % size) % size == 0
  {
    var q := address / size;
    var y := size * q;
    assert address - address % size == y;
    assert y == size * (y / size) + y % size;
    MulDistributes(size, q, y / size);
    SmallMultiple(size, q - y / size);
  }

  lemma MulDistributes(a: int, b: int, c: int)
    ensures a * (b - c) == a * b - a * c
  {
  }

  lemma SmallMultiple(s: nat, t: int)
    requires s > 0 && 0 <= s * t < s
    ensures t == 0
  {
  }

  /** A text with a separator in it, and one more after it, has three parts or more. */
  lemma {:induction false} SplitMany(x: string, sep: char, rest: string)
    requires sep in x
    ensures |Split(x + ([sep] + rest), sep)| >= 3
  {
    var s := x + ([sep] + rest);
    assert s[1..] == x[1..] + ([sep] + rest) && x == [x[0]] + x[1..];
    if sep in x[1..] {
      SplitMany(x[1..], sep, rest);
    } else {
      SplitFirst(x[1..], sep, rest);
    }
  }
}
