/**
 Exactly which texts read as addresses and as blocks of addresses, and as which: the grammar
 behind `ipaddress.ip_network`, as far as it is modelled.
 */
module AddressText {
  import opened Options
  import opened Text
  import opened Ipv4

  // ---------- numbers ----------

  lemma DigitOf(c: char)
    requires '0' <= c <= '9'
    ensures Digit(c as int - '0' as int) == c
  {
    assert c in "0123456789";
  }

  lemma {:induction false} DecimalAppend(m: nat, d: nat)
    requires m > 0 && d < 10
    ensures Decimal(10 * m + d) == Decimal(m) + [Digit(d)]
  {
    assert (10 * m + d) / 10 == m && (10 * m + d) % 10 == d;
  }

  lemma {:induction false} OneMoreDigit(init: string, m: nat, c: char)
    requires Decimal(m) == init && init[0] != '0' && '0' <= c <= '9'
    ensures Decimal(10 * m + (c as int - '0' as int)) == init + [c]
  {
    DigitOf(c);
    Nonzero(m);
    DecimalAppend(m, c as int - '0' as int);
  }

  lemma {:induction false} Nonzero(m: nat)
    ensures Decimal(m)[0] != '0' ==> m > 0
  {
    if m == 0 {
      assert Decimal(m) == [Digit(0)] && Digit(0) == '0';
    }
  }

  lemma {:induction false} ValueOfLast(init: string, c: char)
    ensures DecimalValue(init + [c]) == 10 * DecimalValue(init) + (c as int - '0' as int)
  {
    assert (init + [c])[..|init|] == init;
  }

  /** Digits without a leading zero are how their number is written. */
  lemma {:induction false} CanonicalDecimal(s: string)
    requires AllNumerals(s) && (|s| == 1 || s[0] != '0')
    ensures DecimalValue(s) >= 0 && Decimal(DecimalValue(s)) == s
  {
    var init, c := s[..|s| - 1], s[|s| - 1];
    assert s == init + [c];
    ValueOfLast(init, c);
    if init == "" {
      DigitOf(c);
    } else {
      assert init[0] == s[0];
      CanonicalDecimal(init);
      OneMoreDigit(init, DecimalValue(init), c);
    }
  }

  lemma OctetIff(s: string, n: nat)
    ensures ParseOctet(s) == Some(n) <==> n <= 255 && s == Decimal(n)
  {
    if ParseOctet(s) == Some(n) {
      CanonicalDecimal(s);
    }
    if n <= 255 && s == Decimal(n) {
      DecimalOctet(n);
    }
  }

  // ---------- parts ----------

  /** The parts with separators between them again. */
  function Joined(parts: seq<string>, sep: char): string
    requires parts != []
  {
    if |parts| == 1 then parts[0] else parts[0] + ([sep] + Joined(parts[1..], sep))
  }

  /** Splitting loses nothing, and leaves no separator in any part. */
  lemma {:induction false} SplitJoins(s: string, sep: char)
    ensures Joined(Split(s, sep), sep) == s
    ensures forall k :: 0 <= k < |Split(s, sep)| ==> sep !in Split(s, sep)[k]
  {
    if s != "" {
      SplitJoins(s[1..], sep);
      var rest := Split(s[1..], sep);
      assert s == [s[0]] + s[1..];
      if s[0] == sep {
        assert Split(s, sep)[1..] == rest;
      } else {
        assert Split(s, sep)[1..] == rest[1..];
      }
    }
  }

  // ---------- addresses ----------

  /** Four numbers up to 255, the first the most significant, each written plainly. */
  ghost predicate Written(s: string, p: nat, q: nat, r: nat, t: nat, a: nat) {
    && p <= 255 && q <= 255 && r <= 255 && t <= 255
    && s == Dotted(Decimal(p), Decimal(q), Decimal(r), Decimal(t))
    && a == p * 0x100_0000 + q * 0x1_0000 + r * 0x100 + t
  }

  /** The texts that read as an address are exactly its dotted decimal. */
  lemma AddressIff(s: string, a: nat)
    ensures ParseAddress(s) == Some(a) <==> exists p: nat, q: nat, r: nat, t: nat :: Written(s, p, q, r, t, a)
  {
    if ParseAddress(s) == Some(a) {
      var p, q, r, t := AddressParts(s, a);
    }
    if p: nat, q: nat, r: nat, t: nat :| Written(s, p, q, r, t, a) {
      OctetsParse(p, q, r, t, a);
    }
  }

  lemma AddressParts(s: string, a: nat) returns (p: nat, q: nat, r: nat, t: nat)
    requires ParseAddress(s) == Some(a)
    ensures Written(s, p, q, r, t, a)
  {
    var parts := Split(s, '.');
    SplitJoins(s, '.');
    FourJoined(parts, '.');
    p, q, r, t := ParseOctet(parts[0]).value, ParseOctet(parts[1]).value, ParseOctet(parts[2]).value, ParseOctet(parts[3]).value;
    OctetIff(parts[0], p);
    OctetIff(parts[1], q);
    OctetIff(parts[2], r);
    OctetIff(parts[3], t);
  }

  lemma FourJoined(parts: seq<string>, sep: char)
    requires |parts| == 4
    ensures Joined(parts, sep) == parts[0] + ([sep] + (parts[1] + ([sep] + (parts[2] + ([sep] + parts[3])))))
  {
    assert parts[1..][1..] == parts[2..] && parts[2..][1..] == parts[3..];
    assert Joined(parts[3..], sep) == parts[3];
    assert Joined(parts[2..], sep) == parts[2] + ([sep] + parts[3]);
  }

  // ---------- blocks ----------

  /** The block of that prefix an address is in; when strict, the address must be its first. */
  ghost predicate BlockAround(n: Net, a: nat, strict: bool) {
    && n.prefix <= 32 && n.base % Size(n.prefix) == 0
    && n.base <= a < n.base + Size(n.prefix) && (strict ==> n.base == a)
  }

  /** An address alone is a block of one; else a slash and the digits of the prefix follow it. */
  ghost predicate Names(s: string, text: string, a: nat, prefix: nat) {
    && ParseAddress(text) == Some(a) && prefix <= 32
    && ((s == text && prefix == 32)
        || exists digits :: s == text + ("/" + digits) && AllNumerals(digits) && DecimalValue(digits) == prefix)
  }

  lemma MaskedIff(a: nat, n: Net, strict: bool)
    requires n.prefix <= 32
    ensures (n.base == Masked(a, n.prefix) && (strict ==> Masked(a, n.prefix) == a)) <==> BlockAround(n, a, strict)
  {
    if BlockAround(n, a, strict) {
      SameMultiple(Masked(a, n.prefix), n.base, a, Size(n.prefix));
    }
  }

  lemma SameMultiple(b: nat, c: nat, x: nat, size: nat)
    requires size > 0 && b % size == 0 && c % size == 0 && b <= x < b + size && c <= x < c + size
    ensures b == c
  {
    var q, r := b / size, c / size;
    assert b == size * q && c == size * r;
    assert size * (q - r) == size * q - size * r;
    NoRoom(size, q - r);
  }

  lemma NoRoom(m: nat, t: int)
    requires m > 0 && m * t < m && m * t > 0 - m
    ensures t == 0
  {
  }

  lemma AddressPlain(text: string, a: nat)
    requires ParseAddress(text) == Some(a)
    ensures '/' !in text
  {
    AddressIff(text, a);
    var p: nat, q: nat, r: nat, t: nat :| Written(text, p, q, r, t, a);
    OctetsParse(p, q, r, t, a);
  }

  /** The texts that read as a block are exactly those that name one, as the block around the address. */
  lemma NetworkIff(s: string, strict: bool, n: Net)
    ensures ParseNetwork(s, strict) == Some(n) <==>
      exists text, a: nat :: Names(s, text, a, n.prefix) && BlockAround(n, a, strict)
  {
    if ParseNetwork(s, strict) == Some(n) {
      var text, a := NetworkParts(s, strict, n);
    }
    if text, a: nat :| Names(s, text, a, n.prefix) && BlockAround(n, a, strict) {
      NamedParses(s, text, a, n, strict);
    }
  }

  lemma NamedParses(s: string, text: string, a: nat, n: Net, strict: bool)
    requires Names(s, text, a, n.prefix) && BlockAround(n, a, strict)
    ensures ParseNetwork(s, strict) == Some(n)
  {
    AddressPlain(text, a);
    MaskedIff(a, n, strict);
    SplitFirst(text, '/', "");
    if !(s == text && n.prefix == 32) {
      var digits :| s == text + ("/" + digits) && AllNumerals(digits) && DecimalValue(digits) == n.prefix;
      SplitFirst(digits, '/', "");
      SplitFirst(text, '/', digits);
    }
  }

  lemma NetworkParts(s: string, strict: bool, n: Net) returns (text: string, a: nat)
    requires ParseNetwork(s, strict) == Some(n)
    ensures Names(s, text, a, n.prefix) && BlockAround(n, a, strict)
  {
    var parts := Split(s, '/');
    SplitJoins(s, '/');
    text, a := parts[0], ParseAddress(parts[0]).value;
    MaskedIff(a, n, strict);
    if |parts| == 2 {
      assert Joined(parts[1..], '/') == parts[1];
      assert s == text + ("/" + parts[1]);
    }
  }
}
