/** CIDR queries over IPv4 text (backend/app/utils/cidr.py): the wildcard form for /8, /16 and
    /24, the range form for other prefixes, and what each of them matches. Prefix notation is
    that of section 3.1 of RFC 4632. */
module Cidr {

  /** A parsed IPv4 network: an address and a prefix length. Host bits may be set, as the
      source parses with strict=False. */
  datatype Network = Network(address: nat, prefixLength: nat)

  const ADDRESS_COUNT := 0x1_0000_0000

  ghost predicate IsAddress(x: int) {
    0 <= x < ADDRESS_COUNT
  }

  ghost predicate ValidNetwork(n: Network) {
    IsAddress(n.address) && n.prefixLength <= 32
  }

  function Pow2(k: nat): (p: nat)
    ensures p > 0
  {
    if k == 0 then 1 else 2 * Pow2(k - 1)
  }

  /** The number of addresses in the network. */
  function BlockSize(n: Network): (size: nat)
    requires n.prefixLength <= 32
    ensures size > 0
  {
    Pow2(32 - n.prefixLength)
  }

  /** The largest multiple of `size` that is at most `a`: the address with its host bits cleared. */
  function ClearHostBits(a: nat, size: nat): (r: nat)
    requires size > 0
    ensures r <= a
  {
    if a < size then 0 else ModAtMost(a, size); a - a % size
  }

  lemma ModAtMost(a: nat, d: nat)
    requires d > 0
    ensures a % d <= a && (a < d ==> a % d == a)
  {
    if a < d {
      DivisionIsUnique(a, d, 0, a);
    }
  }

  function NetworkAddress(n: Network): nat
    requires n.prefixLength <= 32
  {
    ClearHostBits(n.address, BlockSize(n))
  }

  function BroadcastAddress(n: Network): nat
    requires n.prefixLength <= 32
  {
    NetworkAddress(n) + BlockSize(n) - 1
  }

  // ---------------------------------------------------------------- same leading bits

  function Bit(x: nat, i: nat): nat {
    x / Pow2(i) % 2
  }

  /** The two addresses have the same leading bits, down to bit `from` (counted from the right). */
  ghost predicate SameBitsFrom(x: nat, y: nat, from: nat) {
    forall i :: from <= i < 32 ==> Bit(x, i) == Bit(y, i)
  }

  /** Membership, bit by bit: the first prefixLength of the 32 bits agree. */
  ghost predicate InNetwork(x: nat, n: Network)
    requires n.prefixLength <= 32
  {
    SameBitsFrom(x, n.address, 32 - n.prefixLength)
  }

  lemma HalvingQuotient(x: nat, k: nat)
    ensures x / Pow2(k + 1) == x / Pow2(k) / 2
  {
    var p := Pow2(k);
    var q, r := x / p, x % p;
    var h, b := q / 2, q % 2;
    DivisionIsUnique(x, 2 * p, h, b * p + r);
  }

  lemma MulAtLeast(k: nat, d: nat)
    requires k >= 1
    ensures k * d >= d
  {
    assert k * d == (k - 1) * d + d;
  }

  lemma Distribute(a: int, b: int, d: int)
    ensures (a - b) * d == a * d - b * d
  {
  }

  lemma DivisionIsUnique(x: nat, d: nat, q: nat, r: nat)
    requires d > 0 && x == q * d + r && r < d
    ensures x / d == q && x % d == r
  {
    var q', r' := x / d, x % d;
    if q' < q {
      Distribute(q, q', d);
      MulAtLeast(q - q', d);
    } else if q' > q {
      Distribute(q', q, d);
      MulAtLeast(q' - q, d);
    }
  }

  lemma {:induction false} NoBitsAbove(x: nat, k: nat)
    requires x < Pow2(k)
    ensures x / Pow2(k) == 0
  {
    DivisionIsUnique(x, Pow2(k), 0, x);
  }

  /** Equal quotients by a power of two are exactly equal leading bits. */
  lemma {:induction false} QuotientIsLeadingBits(x: nat, y: nat, from: nat)
    requires x < Pow2(32) && y < Pow2(32) && from <= 32
    ensures x / Pow2(from) == y / Pow2(from) <==> SameBitsFrom(x, y, from)
    decreases 32 - from
  {
    if from == 32 {
      NoBitsAbove(x, 32);
      NoBitsAbove(y, 32);
    } else {
      QuotientIsLeadingBits(x, y, from + 1);
      HalvingQuotient(x, from);
      HalvingQuotient(y, from);
      var a, b := x / Pow2(from), y / Pow2(from);
      assert a == 2 * (a / 2) + a % 2 && b == 2 * (b / 2) + b % 2;
      assert SameBitsFrom(x, y, from) <==> SameBitsFrom(x, y, from + 1) && Bit(x, from) == Bit(y, from);
    }
  }

  lemma Pow2Of32()
    ensures Pow2(32) == ADDRESS_COUNT
    ensures Pow2(8) == 0x100 && Pow2(16) == 0x1_0000 && Pow2(24) == 0x100_0000
  {
    assert Pow2(4) == 16;
    assert Pow2(8) == 0x100;
    assert Pow2(12) == 0x1000;
    assert Pow2(16) == 0x1_0000;
    assert Pow2(20) == 0x10_0000;
    assert Pow2(24) == 0x100_0000;
    assert Pow2(28) == 0x1000_0000;
  }

  /** The address block [network, broadcast] is exactly the addresses with the same leading bits. */
  lemma BlockIsLeadingBits(x: nat, n: Network)
    requires IsAddress(x) && ValidNetwork(n)
    ensures NetworkAddress(n) <= x <= BroadcastAddress(n) <==> InNetwork(x, n)
    ensures BroadcastAddress(n) < ADDRESS_COUNT
  {
    Pow2Of32();
    QuotientIsLeadingBits(x, n.address, 32 - n.prefixLength);
    BlockIsQuotient(x, n.address, BlockSize(n));
    BlockFitsBelow(n.address, 32 - n.prefixLength);
  }

  lemma ClearHostBitsIsFloor(a: nat, size: nat)
    requires size > 0
    ensures ClearHostBits(a, size) == a / size * size
  {
    if a < size {
      DivisionIsUnique(a, size, 0, a);
    }
  }

  lemma BlockIsQuotient(x: nat, a: nat, size: nat)
    requires size > 0
    ensures ClearHostBits(a, size) <= x <= ClearHostBits(a, size) + size - 1 <==> x / size == a / size
  {
    ClearHostBitsIsFloor(a, size);
    var q := a / size;
    if q * size <= x <= q * size + size - 1 {
      DivisionIsUnique(x, size, q, x - q * size);
    }
  }

  lemma BlockFitsBelow(a: nat, k: nat)
    requires k <= 32 && a < Pow2(32)
    ensures ClearHostBits(a, Pow2(k)) + Pow2(k) - 1 < Pow2(32)
  {
    Pow2Splits(k, 32 - k);
    var p, m, q := Pow2(k), Pow2(32 - k), a / Pow2(k);
    ClearHostBitsIsFloor(a, p);
    assert p * m == m * p;
    if q >= m {
      Distribute(q, m, p);
      MulNonNegative(q - m, p);
    } else {
      Distribute(m, q, p);
      MulAtLeast(m - q, p);
    }
  }

  lemma MulNonNegative(a: nat, b: nat)
    ensures a * b >= 0
  {
  }

  lemma {:induction false} Pow2Splits(a: nat, b: nat)
    ensures Pow2(a + b) == Pow2(a) * Pow2(b)
  {
    if b > 0 {
      Pow2Splits(a, b - 1);
      assert Pow2(a) * (2 * Pow2(b - 1)) == 2 * (Pow2(a) * Pow2(b - 1));
    }
  }
}
