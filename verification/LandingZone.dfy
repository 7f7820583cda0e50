/** The customer's address range and the subnets cut from it (`landing_zone.py`). */
module LandingZone {
  import opened Options
  import opened Ipv4

  const SUBNET_PREFIX: nat := 24

  datatype ZoneError = InvalidCidr | TooSmall | NotEnoughSubnets

  datatype Result<T> = Ok(value: T) | Err(error: ZoneError)

  /** The range check of `LandingZone.__post_init__`. */
  function CheckZone(cidr: string): Result<Net> {
    var network := ParseNetwork(cidr, true);
    if network.None? then Err(InvalidCidr)
    else if network.value.prefix > SUBNET_PREFIX - 1 then Err(TooSmall)
    else Ok(network.value)
  }

  /** The i-th /24 of a range. */
  function Block(network: Net, i: nat): Net {
    Net(network.base + i * Size(SUBNET_PREFIX), SUBNET_PREFIX)
  }

  /** `carve_subnets`: the first blocks are public, the next ones private. */
  function CarveSubnets(cidr: string, count: nat): Result<(seq<string>, seq<string>)> {
    var network := ParseNetwork(cidr, true);
    if network.None? || network.value.prefix > SUBNET_PREFIX then Err(InvalidCidr)
    else if Pow2(SUBNET_PREFIX - network.value.prefix) < 2 * count then Err(NotEnoughSubnets)
    else
      Ok((BlockTexts(network.value, 0, count), BlockTexts(network.value, count, count)))
  }

  /** The text of `count` blocks from `start` on. */
  function BlockTexts(network: Net, start: nat, count: nat): (texts: seq<string>)
    ensures |texts| == count
    ensures forall i :: 0 <= i < count ==> texts[i] == Format(Block(network, start + i))
  {
    seq(count, i requires 0 <= i => Format(Block(network, start + i)))
  }

  /** A range of prefix p holds 2^(24-p) whole /24 blocks, side by side. */
  lemma BlockInside(network: Net, i: nat)
    requires network.Valid() && network.prefix <= SUBNET_PREFIX && i < Pow2(SUBNET_PREFIX - network.prefix)
    ensures Block(network, i).Valid() && Block(network, i).SubnetOf(network)
  {
    var k := Pow2(SUBNET_PREFIX - network.prefix);
    Pow2Adds(SUBNET_PREFIX - network.prefix, 8);
    assert Size(network.prefix) == k * 256;
    WholeBlocks(network.base, Size(network.prefix), k, i);
    WithinSpace(network);
  }

  lemma WholeBlocks(base: nat, size: nat, k: nat, i: nat)
    requires size > 0 && size == k * 256 && base % size == 0 && i < k
    ensures (base + i * 256) % 256 == 0 && base + i * 256 + 256 <= base + size
  {
    MulMonotone(i + 1, k, 256);
    var m := InUnits(base, size, 256, k);
    assert base + i * 256 == (m + i) * 256;
  }

  /** No valid range runs past the end of the address space. */
  lemma WithinSpace(n: Net)
    requires n.Valid()
    ensures n.base + Size(n.prefix) <= SPACE
  {
    Pow2Adds(n.prefix, 32 - n.prefix);
    FullSpace();
    var s, k := Size(n.prefix), Pow2(n.prefix);
    ExactQuotient(n.base, s);
    var q := n.base / s;
    if k <= q {
      MulMonotone(k, q, s);
    }
    MulMonotone(q + 1, k, s);
    WindowAdds(q, 1, s);
  }

  lemma FullSpace()
    ensures Pow2(32) == SPACE && Pow2(8) == 256
  {
    Pow2Adds(8, 8);
    Pow2Adds(16, 16);
  }

  lemma BlocksDisjoint(network: Net, i: nat, j: nat)
    requires i != j
    ensures !Block(network, i).Overlaps(Block(network, j))
  {
    FullSpace();
    assert i < j ==> (i + 1) * 256 <= j * 256;
    assert j < i ==> (j + 1) * 256 <= i * 256;
  }

  /** Public blocks first, private ones next. */
  lemma CarvedTexts(cidr: string, count: nat)
    requires CarveSubnets(cidr, count).Ok?
    ensures ParseNetwork(cidr, true).Some? && ParseNetwork(cidr, true).value.prefix <= SUBNET_PREFIX
    ensures 2 * count <= Pow2(SUBNET_PREFIX - ParseNetwork(cidr, true).value.prefix)
    ensures var network := ParseNetwork(cidr, true).value;
      var (public, private) := CarveSubnets(cidr, count).value;
      && |public| == |private| == count
      && (forall i :: 0 <= i < count ==> public[i] == Format(Block(network, i)))
      && (forall i :: 0 <= i < count ==> private[i] == Format(Block(network, count + i)))
  {
  }

  /** A carved block reads back as itself and lies in the range. */
  lemma BlockReadsBack(network: Net, i: nat)
    requires network.Valid() && network.prefix <= SUBNET_PREFIX && i < Pow2(SUBNET_PREFIX - network.prefix)
    ensures ParseNetwork(Format(Block(network, i)), false) == Some(Block(network, i))
    ensures Block(network, i).Valid() && Block(network, i).SubnetOf(network)
  {
    BlockInside(network, i);
    NetworkRoundTrip(Block(network, i), false);
  }

  lemma {:induction false} Pow2Monotone(m: nat, n: nat)
    requires m <= n
    ensures Pow2(m) <= Pow2(n)
  {
    if m < n {
      Pow2Monotone(m, n - 1);
    }
  }

  predicate Readable(cidr: string, widest: nat) {
    ParseNetwork(cidr, true).Some? && ParseNetwork(cidr, true).value.prefix <= widest
  }

  /** Which texts are refused, and as what. */
  lemma RefusedIff(cidr: string)
    ensures CheckZone(cidr) == Err(InvalidCidr) <==> ParseNetwork(cidr, true).None?
    ensures CheckZone(cidr) == Err(TooSmall) <==> ParseNetwork(cidr, true).Some? && !Readable(cidr, 23)
    ensures CarveSubnets(cidr, 2) == Err(InvalidCidr) <==> !Readable(cidr, 24)
    ensures CarveSubnets(cidr, 2) == Err(NotEnoughSubnets) <==> Readable(cidr, 24) && !Readable(cidr, 22)
  {
    CarvableIff(cidr);
  }

  /** The zone check accepts a /23 or wider, as its message says, but two subnets a tier
      can only be carved from a /22 or wider. */
  lemma CarvableIff(cidr: string)
    ensures CheckZone(cidr).Ok? <==> Readable(cidr, 23)
    ensures CarveSubnets(cidr, 2).Ok? <==> Readable(cidr, 22)
  {
    if Readable(cidr, 22) {
      Pow2Monotone(2, SUBNET_PREFIX - ParseNetwork(cidr, true).value.prefix);
    }
    assert Pow2(0) == 1 && Pow2(1) == 2 && Pow2(2) == 4;
  }
}
