/**
 * IP prefixes as Go's `net/netip` computes on them, and the sets of addresses they stand for
 * (section 3.1 of RFC 4632).
 */
module Prefixes {

  function Pow2(n: nat): (r: nat)
    ensures r > 0
  {
    if n == 0 then 1 else 2 * Pow2(n - 1)
  }

  /** `x` with everything below the multiple of `d` cut off. */
  function BlockBase(x: nat, d: nat): nat
    requires d > 0
  {
    x / d * d
  }

  datatype Family = IPv4 | IPv6

  function Width(f: Family): nat {
    match f
    case IPv4 => 32
    case IPv6 => 128
  }

  datatype Address = Address(family: Family, value: nat)

  /** A prefix; host bits of `value` may be set. The zero `netip.Prefix` is any value failing `Valid`. */
  datatype Prefix = Prefix(family: Family, value: nat, bits: nat) {

    predicate Valid() {
      bits <= Width(family) && value < Pow2(Width(family))
    }

    function Addr(): Address {
      Address(family, value)
    }

    /** How many addresses share the prefix. */
    function Size(): (n: nat)
      ensures n > 0
    {
      if bits <= Width(family) then Pow2(Width(family) - bits) else 1
    }

    /** The prefix with its host bits cleared. */
    function Masked(): Prefix {
      Prefix(family, BlockBase(value, Size()), bits)
    }

    /** `Prefix.Contains`: same family and the same top `bits` bits. */
    predicate Contains(a: Address) {
      Valid() && a.family == family && a.value / Size() == value / Size()
    }

    /** `Prefix.Overlaps`: both cut to the shorter of the two lengths and compared. */
    predicate Overlaps(o: Prefix) {
      && Valid() && o.Valid()
      && (this == o
          || (family == o.family
              && var cut := Pow2(Width(family) - (if bits < o.bits then bits else o.bits));
                 value / cut == o.value / cut))
    }

    /** What the prefix means: the block of `Size()` addresses from the masked base on. */
    ghost function Addresses(): iset<Address> {
      iset a: Address | a.family == family && BlockBase(value, Size()) <= a.value < BlockBase(value, Size()) + Size()
    }
  }

  // ---- arithmetic of blocks ----

  lemma {:induction false} Pow2Add(a: nat, b: nat)
    ensures Pow2(a + b) == Pow2(a) * Pow2(b)
  {
    if b == 0 {
    } else {
      Pow2Add(a, b - 1);
      assert Pow2(a + b) == 2 * (Pow2(a) * Pow2(b - 1));
      assert Pow2(b) == 2 * Pow2(b - 1);
    }
  }

  lemma {:induction false} Pow2Strict(a: nat, b: nat)
    requires a < b
    ensures Pow2(a) < Pow2(b)
  {
    if a + 1 < b { Pow2Strict(a, b - 1); }
  }

  lemma Pow2Values()
    ensures Pow2(8) == 256 && Pow2(10) == 1024 && Pow2(20) == 0x10_0000
    ensures Pow2(16) == 0x1_0000 && Pow2(24) == 0x100_0000 && Pow2(32) == 0x1_0000_0000
  {
    assert Pow2(8) == 256;
    Pow2Add(8, 8);
    Pow2Add(8, 2);
    Pow2Add(10, 10);
    Pow2Add(16, 8);
    Pow2Add(16, 16);
  }

  lemma MulMonotone(a: int, b: int, d: nat)
    requires a <= b
    ensures a * d <= b * d
  {
  }

  lemma QuotientUnique(x: int, d: nat, q: int)
    requires d > 0 && q * d <= x < (q + 1) * d
    ensures x / d == q
  {
    var k := x / d;
    assert k * d <= x < k * d + d;
    assert (q + 1) * d == q * d + d;
    assert (k + 1) * d == k * d + d;
    if k < q { MulMonotone(k + 1, q, d); }
    if k > q { MulMonotone(q + 1, k, d); }
  }

  /** Two numbers have the same quotient exactly when one lies in the aligned block of the other. */
  lemma SameBlock(x: nat, y: nat, d: nat)
    requires d > 0
    ensures x / d == y / d <==> BlockBase(y, d) <= x < BlockBase(y, d) + d
  {
    var q := y / d;
    assert (q + 1) * d == q * d + d;
    if q * d <= x < q * d + d {
      QuotientUnique(x, d, q);
    }
    assert x == (x / d) * d + x % d;
  }

  /** An aligned block of `d` that starts below `d * m` also ends there. */
  lemma BlockFits(x: nat, d: nat, m: nat)
    requires d > 0 && x < d * m
    ensures BlockBase(x, d) + d <= d * m
  {
    var q := x / d;
    assert q * d <= x;
    if q >= m { MulMonotone(m, q, d); }
    MulMonotone(q + 1, m, d);
    assert (q + 1) * d == q * d + d;
  }

  lemma MulAssociative(a: int, b: int, c: int)
    ensures a * (b * c) == (a * b) * c
  {
  }

  lemma QuotientOfQuotient(x: nat, d: nat, m: nat)
    requires d > 0 && m > 0
    ensures d * m > 0 && x / (d * m) == x / d / m
  {
    var q := x / d;
    var k := q / m;
    assert k * m <= q < (k + 1) * m by { assert (k + 1) * m == k * m + m; }
    MulMonotone(k * m, q, d);
    MulMonotone(q + 1, (k + 1) * m, d);
    assert (q + 1) * d == q * d + d;
    MulAssociative(k, m, d);
    MulAssociative(k + 1, m, d);
    assert m * d == d * m;
    MulPositive(d, m);
    QuotientUnique(x, d * m, k);
  }

  lemma MulPositive(a: nat, b: nat)
    requires a > 0 && b > 0
    ensures a * b > 0
  {
  }

  /** A coarser cut of equal quotients is equal. */
  lemma CoarserCut(x: nat, y: nat, fine: nat, coarse: nat)
    requires fine <= coarse && x / Pow2(fine) == y / Pow2(fine)
    ensures x / Pow2(coarse) == y / Pow2(coarse)
  {
    Pow2Add(fine, coarse - fine);
    QuotientOfQuotient(x, Pow2(fine), Pow2(coarse - fine));
    QuotientOfQuotient(y, Pow2(fine), Pow2(coarse - fine));
  }

  // ---- the fast checks mean the set statements ----

  lemma ContainsIsMembership(p: Prefix, a: Address)
    requires p.Valid()
    ensures p.Contains(a) <==> a in p.Addresses()
  {
    SameBlock(a.value, p.value, p.Size());
  }

  lemma BaseIsMember(p: Prefix)
    requires p.Valid()
    ensures p.Addr() in p.Addresses()
  {
    ContainsIsMembership(p, p.Addr());
  }

  /** Masking changes the written base address, not the set of addresses. */
  lemma MaskedSameAddresses(p: Prefix)
    ensures p.Masked().Addresses() == p.Addresses()
    ensures p.Masked().value / p.Size() == p.value / p.Size()
    ensures p.Masked().value <= p.value
    ensures p.Valid() ==> p.Masked().Valid()
  {
    var d := p.Size();
    var q := p.value / d;
    assert (q + 1) * d == q * d + d;
    QuotientUnique(q * d, d, q);
    assert p.value == q * d + p.value % d;
  }

  ghost predicate ShareAddress(p: Prefix, q: Prefix) {
    exists a: Address :: a in p.Addresses() && a in q.Addresses()
  }

  /** `Overlaps` holds exactly when some address lies in both prefixes. */
  lemma OverlapsIsSharing(p: Prefix, q: Prefix)
    requires p.Valid() && q.Valid()
    ensures p.Overlaps(q) <==> ShareAddress(p, q)
  {
    if p.bits <= q.bits {
      OverlapsOrdered(p, q);
    } else {
      OverlapsOrdered(q, p);
    }
  }

  lemma OverlapsOrdered(p: Prefix, q: Prefix)
    requires p.Valid() && q.Valid() && p.bits <= q.bits
    ensures p.Overlaps(q) <==> ShareAddress(p, q)
    ensures q.Overlaps(p) <==> ShareAddress(p, q)
    ensures p.Overlaps(q) <==> p.Contains(q.Addr())
  {
    BaseIsMember(q);
    ContainsIsMembership(p, q.Addr());
    if ShareAddress(p, q) {
      var a: Address :| a in p.Addresses() && a in q.Addresses();
      ContainsIsMembership(p, a);
      ContainsIsMembership(q, a);
      CoarserCut(a.value, q.value, Width(q.family) - q.bits, Width(p.family) - p.bits);
    }
  }

  /** Containing the base of a longer prefix means containing all of it. */
  lemma ContainsBaseContainsAll(outer: Prefix, inner: Prefix)
    requires outer.Valid() && inner.Valid() && outer.bits <= inner.bits && outer.Contains(inner.Addr())
    ensures inner.Addresses() <= outer.Addresses()
  {
    forall a | a in inner.Addresses() ensures a in outer.Addresses() {
      ContainsIsMembership(inner, a);
      CoarserCut(a.value, inner.value, Width(inner.family) - inner.bits, Width(outer.family) - outer.bits);
      ContainsIsMembership(outer, a);
    }
  }

  /** A block lying inside another is at least as long a prefix, and its base is contained. */
  lemma InclusionOrdersBits(outer: Prefix, inner: Prefix)
    requires outer.Valid() && inner.Valid() && inner.Addresses() <= outer.Addresses()
    ensures outer.bits <= inner.bits && outer.Contains(inner.Addr())
  {
    BaseIsMember(inner);
    ContainsIsMembership(outer, inner.Addr());
    InclusionOrdersSizes(outer, inner);
    if outer.bits > inner.bits {
      Pow2Strict(Width(outer.family) - outer.bits, Width(inner.family) - inner.bits);
    }
  }

  lemma InclusionOrdersSizes(outer: Prefix, inner: Prefix)
    requires outer.Valid() && inner.Valid() && inner.Addresses() <= outer.Addresses()
    ensures outer.family == inner.family && inner.Size() <= outer.Size()
  {
    var lo := BlockBase(inner.value, inner.Size());
    var first := Address(inner.family, lo);
    var last := Address(inner.family, lo + inner.Size() - 1);
    assert first in inner.Addresses() && last in inner.Addresses();
    assert first in outer.Addresses() && last in outer.Addresses();
  }

  /** The masked form starts at the least address, and blocks of the same addresses have the same one. */
  lemma MaskedIsCanonical(p: Prefix, q: Prefix)
    requires p.Valid() && q.Valid()
    ensures p.Masked().Addr() in p.Addresses()
    ensures forall a | a in p.Addresses() :: p.Masked().value <= a.value
    ensures p.Addresses() == q.Addresses() <==> p.Masked() == q.Masked()
  {
    MaskedSameAddresses(p);
    MaskedSameAddresses(q);
    assert p.Masked().Addr() in p.Addresses() && q.Masked().Addr() in q.Addresses();
    if p.Addresses() == q.Addresses() {
      InclusionOrdersBits(p, q);
      InclusionOrdersBits(q, p);
    }
  }
}
