/**
 * The VNI allocator (internal/vni/allocator.go). VNIs are 24-bit identifiers (section 5 of RFC 7348)
 * packed as 4 bits of region, 10 of tenant shard and 10 of sequence.
 */
module Vni {
  import opened Common
  import opened Prefixes

  const MIN_VNI: nat := 4096
  const MAX_VNI: nat := 16_000_000
  const REGION_BITS: nat := 4
  const TENANT_BITS: nat := 10
  const VPC_BITS: nat := 10

  // ---- uint32 bit operations on their numbers ----

  function BitOr(a: nat, b: nat): nat
    decreases a + b
  {
    if a == 0 && b == 0 then 0
    else 2 * BitOr(a / 2, b / 2) + (if a % 2 == 1 || b % 2 == 1 then 1 else 0)
  }

  function BitAnd(a: nat, b: nat): nat
    decreases a + b
  {
    if a == 0 && b == 0 then 0
    else 2 * BitAnd(a / 2, b / 2) + (if a % 2 == 1 && b % 2 == 1 then 1 else 0)
  }

  /** `a << k` on a uint32. */
  function Shl(a: nat, k: nat): nat {
    (a * Pow2(k)) % 0x1_0000_0000
  }

  function Shr(a: nat, k: nat): nat {
    QuotientNonNegative(a, Pow2(k));
    a / Pow2(k)
  }

  lemma QuotientNonNegative(a: nat, d: nat)
    requires d > 0
    ensures a / d >= 0
  {
    assert a == d * (a / d) + a % d;
    if a / d < 0 { NegativeProduct(d, a / d); }
  }

  lemma {:induction false} NegativeProduct(d: nat, q: int)
    requires q < 0
    ensures d * q + d <= 0
    decreases d
  {
    if d > 0 {
      NegativeProduct(d - 1, q);
      assert d * q == (d - 1) * q + q;
    }
  }

  function EncodeVNI(region: nat, tenantShard: nat, vpcSeq: nat): nat {
    BitOr(BitOr(Shl(region, TENANT_BITS + VPC_BITS), Shl(tenantShard, VPC_BITS)), vpcSeq)
  }

  datatype VniParts = VniParts(region: nat, shard: nat, seqNo: nat)

  function DecodeVNI(vni: nat): VniParts {
    VniParts(
      BitAnd(Shr(vni, TENANT_BITS + VPC_BITS), Shl(1, REGION_BITS) - 1),
      BitAnd(Shr(vni, VPC_BITS), Shl(1, TENANT_BITS) - 1),
      BitAnd(vni, Shl(1, VPC_BITS) - 1))
  }

  lemma {:induction false} OrDisjoint(high: nat, k: nat, low: nat)
    requires low < Pow2(k)
    ensures BitOr(high * Pow2(k), low) == high * Pow2(k) + low
  {
    if k == 0 {
      OrZero(high);
    } else {
      var x := high * Pow2(k);
      assert x == 2 * (high * Pow2(k - 1));
      OrDisjoint(high, k - 1, low / 2);
      assert x / 2 == high * Pow2(k - 1) && x % 2 == 0;
    }
  }

  lemma {:induction false} OrZero(a: nat)
    ensures BitOr(a, 0) == a
  {
    if a > 0 { OrZero(a / 2); }
  }

  lemma {:induction false} AndMask(a: nat, k: nat)
    ensures BitAnd(a, Pow2(k) - 1) == a % Pow2(k)
  {
    if k == 0 {
      AndZero(a);
    } else {
      var m := Pow2(k) - 1;
      assert m / 2 == Pow2(k - 1) - 1 && m % 2 == 1;
      AndMask(a / 2, k - 1);
      HalfRemainder(a, Pow2(k - 1));
    }
  }

  lemma {:induction false} AndZero(a: nat)
    ensures BitAnd(a, 0) == 0
  {
    if a > 0 { AndZero(a / 2); }
  }

  lemma HalfRemainder(a: nat, d: nat)
    requires d > 0
    ensures a % (2 * d) == 2 * (a / 2 % d) + a % 2
  {
    var h, r := a / 2 / d, a / 2 % d;
    assert a / 2 == h * d + r;
    assert a == h * (2 * d) + (2 * r + a % 2) by { assert h * (2 * d) == 2 * (h * d); }
    assert (h + 1) * (2 * d) == h * (2 * d) + 2 * d;
    QuotientUnique(a, 2 * d, h);
    assert a == (a / (2 * d)) * (2 * d) + a % (2 * d);
  }

  predicate Fields(region: nat, shard: nat, seqNo: nat) {
    region < 16 && shard < 1024 && seqNo < 1024
  }

  function Positional(region: nat, shard: nat, seqNo: nat): nat {
    region * 0x10_0000 + shard * 1024 + seqNo
  }

  lemma PositionalDigits(region: nat, shard: nat, seqNo: nat)
    requires Fields(region, shard, seqNo)
    ensures var n := Positional(region, shard, seqNo);
            n < 0x100_0000 && n / 0x10_0000 % 16 == region && n / 1024 % 1024 == shard && n % 1024 == seqNo
  {
    DigitOf(region, 0x10_0000, shard * 1024 + seqNo);
    DigitOf(region * 1024 + shard, 1024, seqNo);
    DigitOf(region, 1024, shard);
  }

  lemma DigitOf(q: nat, d: nat, r: nat)
    requires r < d
    ensures (q * d + r) / d == q && (q * d + r) % d == r
  {
    assert (q + 1) * d == q * d + d;
    QuotientUnique(q * d + r, d, q);
  }

  lemma DigitsPositional(n: nat)
    requires n < 0x100_0000
    ensures Fields(n / 0x10_0000 % 16, n / 1024 % 1024, n % 1024)
    ensures Positional(n / 0x10_0000 % 16, n / 1024 % 1024, n % 1024) == n
  {
    NestedQuotient(n);
    SmallRemainder(n / 0x10_0000);
  }

  lemma NestedQuotient(n: nat)
    requires n < 0x100_0000
    ensures n / 0x10_0000 < 16 && n == n / 0x10_0000 * 0x10_0000 + n / 1024 % 1024 * 1024 + n % 1024
  {
    var q := n / 1024;
    var t, low := q / 1024, q % 1024 * 1024 + n % 1024;
    assert low < 0x10_0000;
    assert n == t * 0x10_0000 + low;
    DigitOf(t, 0x10_0000, low);
  }

  lemma SmallRemainder(t: nat)
    requires t < 16
    ensures t % 16 == t
  {
  }

  lemma ShlSmall(a: nat, k: nat)
    requires a * Pow2(k) < 0x1_0000_0000
    ensures Shl(a, k) == a * Pow2(k)
  {
  }

  /** Within the field widths the shifts and ors are a positional number. */
  lemma EncodeIsPositional(region: nat, shard: nat, seqNo: nat)
    requires Fields(region, shard, seqNo)
    ensures EncodeVNI(region, shard, seqNo) == Positional(region, shard, seqNo)
  {
    Pow2Values();
    ShlSmall(region, 20);
    ShlSmall(shard, 10);
    var high := region * 1024 + shard;
    assert BitOr(region * 0x10_0000, shard * 1024) == high * 1024 by {
      OrDisjoint(region, 20, shard * 1024);
    }
    assert BitOr(high * 1024, seqNo) == high * 1024 + seqNo by {
      OrDisjoint(high, 10, seqNo);
    }
  }

  lemma DecodeIsPositional(vni: nat)
    ensures DecodeVNI(vni) == VniParts(vni / 0x10_0000 % 16, vni / 1024 % 1024, vni % 1024)
  {
    Pow2Values();
    assert Pow2(4) == 16;
    ShlSmall(1, 4);
    ShlSmall(1, 10);
    AndMask(vni / 0x10_0000, 4);
    AndMask(vni / 1024, 10);
    AndMask(vni, 10);
  }

  /** Packing is a bijection between the field triples and the 24-bit numbers. */
  lemma DecodeEncode(region: nat, shard: nat, seqNo: nat)
    requires Fields(region, shard, seqNo)
    ensures DecodeVNI(EncodeVNI(region, shard, seqNo)) == VniParts(region, shard, seqNo)
    ensures EncodeVNI(region, shard, seqNo) < 0x100_0000
  {
    PositionalDigits(region, shard, seqNo);
    EncodeIsPositional(region, shard, seqNo);
    DecodeIsPositional(EncodeVNI(region, shard, seqNo));
  }

  lemma EncodeDecode(vni: nat)
    requires vni < 0x100_0000
    ensures var d := DecodeVNI(vni); Fields(d.region, d.shard, d.seqNo) && EncodeVNI(d.region, d.shard, d.seqNo) == vni
  {
    DigitsPositional(vni);
    DecodeIsPositional(vni);
    EncodeIsPositional(vni / 0x10_0000 % 16, vni / 1024 % 1024, vni % 1024);
  }

  predicate LexLess(a: VniParts, b: VniParts) {
    a.region < b.region
    || (a.region == b.region && (a.shard < b.shard || (a.shard == b.shard && a.seqNo < b.seqNo)))
  }

  /** Encoding is strictly monotone, so a scan in field order is a scan in number order. */
  lemma EncodeMonotone(a: VniParts, b: VniParts)
    requires Fields(a.region, a.shard, a.seqNo) && Fields(b.region, b.shard, b.seqNo)
    ensures LexLess(a, b) <==> EncodeVNI(a.region, a.shard, a.seqNo) < EncodeVNI(b.region, b.shard, b.seqNo)
  {
    EncodeIsPositional(a.region, a.shard, a.seqNo);
    EncodeIsPositional(b.region, b.shard, b.seqNo);
  }

  // ---- allocation ----

  datatype VniError = UnknownRegion | PoolExhausted

  predicate InRange(vni: nat) {
    MIN_VNI <= vni < MAX_VNI
  }

  predicate LegalInRegion(vni: nat, region: nat) {
    InRange(vni) && DecodeVNI(vni).region == region
  }

  predicate LegalInShard(vni: nat, region: nat, shard: nat) {
    LegalInRegion(vni, region) && DecodeVNI(vni).shard == shard
  }

  /** The inner loop from sequence number `from` on. */
  function FreeInShard(inUse: set<nat>, region: nat, shard: nat, from: nat): Option<nat>
    decreases 1024 - from
  {
    if from >= 1024 then None
    else
      var vni := EncodeVNI(region, shard, from);
      if InRange(vni) && vni !in inUse then Some(vni) else FreeInShard(inUse, region, shard, from + 1)
  }

  /** The fallback loops from shard `from` on. */
  function FreeInRegion(inUse: set<nat>, region: nat, from: nat): Option<nat>
    decreases 1024 - from
  {
    if from >= 1024 then None
    else
      var here := FreeInShard(inUse, region, from, 0);
      if here.Some? then here else FreeInRegion(inUse, region, from + 1)
  }

  function ChooseVni(inUse: set<nat>, region: nat, tenantShard: nat): Option<nat> {
    var own := FreeInShard(inUse, region, tenantShard, 0);
    if own.Some? then own else FreeInRegion(inUse, region, 0)
  }

  function AllocateResult(inUse: set<nat>, regions: map<string, nat>, regionID: string, tenantShard: nat)
    : Result<nat, VniError>
  {
    if regionID !in regions then Err(UnknownRegion)
    else
      match ChooseVni(inUse, regions[regionID], tenantShard)
      case None => Err(PoolExhausted)
      case Some(vni) => Ok(vni)
  }

  class Allocator {
    var inUse: set<nat>  // the keys marked true
    var regionMap: map<string, nat>

    constructor ()
      ensures inUse == {} && regionMap == map[]
    {
      inUse := {};
      regionMap := map[];
    }

    method RegisterRegion(name: string, id: nat) returns (ok: bool)
      modifies this
      ensures ok <==> id <= 15
      ensures regionMap == if ok then old(regionMap)[name := id] else old(regionMap)
      ensures inUse == old(inUse)
    {
      if id > 15 {
        return false;
      }
      regionMap := regionMap[name := id];
      return true;
    }

    /** `tenantShard` stands for the account's SHA-256 shard. */
    method Allocate(regionID: string, tenantShard: nat) returns (r: Result<nat, VniError>)
      modifies this
      ensures r == AllocateResult(old(inUse), regionMap, regionID, tenantShard)
      ensures inUse == old(inUse) + (if r.Ok? then {r.value} else {})
      ensures regionMap == old(regionMap)
    {
      hide EncodeVNI;
      if regionID !in regionMap {
        return Err(UnknownRegion);
      }
      var region := regionMap[regionID];
      var seqNo := 0;
      while seqNo < 1024
        invariant seqNo <= 1024 && inUse == old(inUse) && regionMap == old(regionMap)
        invariant FreeInShard(inUse, region, tenantShard, seqNo) == FreeInShard(inUse, region, tenantShard, 0)
      {
        var vni := EncodeVNI(region, tenantShard, seqNo);
        if !(vni < MIN_VNI || vni >= MAX_VNI) {
          if vni !in inUse {
            inUse := inUse + {vni};
            return Ok(vni);
          }
        }
        seqNo := seqNo + 1;
      }
      var shard := 0;
      while shard < 1024
        invariant shard <= 1024 && inUse == old(inUse) && regionMap == old(regionMap)
        invariant FreeInRegion(inUse, region, shard) == FreeInRegion(inUse, region, 0)
      {
        seqNo := 0;
        while seqNo < 1024
          invariant seqNo <= 1024 && inUse == old(inUse) && regionMap == old(regionMap)
          invariant FreeInShard(inUse, region, shard, seqNo) == FreeInShard(inUse, region, shard, 0)
        {
          var vni := EncodeVNI(region, shard, seqNo);
          if !(vni < MIN_VNI || vni >= MAX_VNI) {
            if vni !in inUse {
              inUse := inUse + {vni};
              return Ok(vni);
            }
          }
          seqNo := seqNo + 1;
        }
        shard := shard + 1;
      }
      return Err(PoolExhausted);
    }

    method Release(vni: nat)
      modifies this
      ensures inUse == old(inUse) - {vni} && regionMap == old(regionMap)
    {
      inUse := inUse - {vni};
    }
  }

  // ---- allocation is complete and lowest-first ----

  lemma {:induction false} FreeInShardMeaning(inUse: set<nat>, region: nat, shard: nat, from: nat)
    requires Fields(region, shard, 0)
    ensures var r := FreeInShard(inUse, region, shard, from);
            && (r.Some? ==> LegalInShard(r.value, region, shard) && r.value !in inUse)
            && forall v: nat | LegalInShard(v, region, shard) && DecodeVNI(v).seqNo >= from && v !in inUse ::
                 r.Some? && r.value <= v
    decreases 1024 - from
  {
    var r := FreeInShard(inUse, region, shard, from);
    if from < 1024 {
      DecodeEncode(region, shard, from);
      FreeInShardMeaning(inUse, region, shard, from + 1);
    }
    forall v: nat | LegalInShard(v, region, shard) && DecodeVNI(v).seqNo >= from && v !in inUse
      ensures r.Some? && r.value <= v
    {
      EncodeDecode(v);
      EncodeMonotone(VniParts(region, shard, from), DecodeVNI(v));
    }
  }

  lemma {:induction false} FreeInRegionMeaning(inUse: set<nat>, region: nat, from: nat)
    requires region < 16
    ensures var r := FreeInRegion(inUse, region, from);
            && (r.Some? ==> LegalInRegion(r.value, region) && r.value !in inUse && from <= DecodeVNI(r.value).shard)
            && forall v: nat | LegalInRegion(v, region) && DecodeVNI(v).shard >= from && v !in inUse ::
                 r.Some? && r.value <= v
    decreases 1024 - from
  {
    var r := FreeInRegion(inUse, region, from);
    if from < 1024 {
      FreeInShardMeaning(inUse, region, from, 0);
      FreeInRegionMeaning(inUse, region, from + 1);
    }
    forall v: nat | LegalInRegion(v, region) && DecodeVNI(v).shard >= from && v !in inUse
      ensures r.Some? && r.value <= v
    {
      EncodeDecode(v);
      if DecodeVNI(v).shard == from {
        assert LegalInShard(v, region, from);
      } else if r == FreeInShard(inUse, region, from, 0) && r.Some? {
        EncodeDecode(r.value);
        EncodeMonotone(DecodeVNI(r.value), DecodeVNI(v));
      }
    }
  }

  ghost predicate SmallestFree(vni: nat, legal: nat -> bool, inUse: set<nat>) {
    legal(vni) && vni !in inUse && forall v: nat | legal(v) && v !in inUse :: vni <= v
  }

  ghost predicate AllTaken(legal: nat -> bool, inUse: set<nat>) {
    forall v: nat | legal(v) :: v in inUse
  }

  /**
   * `Allocate` returns the smallest free legal VNI of the tenant's shard, else the smallest free
   * legal VNI of the region, and fails for a known region exactly when all its legal VNIs are taken.
   */
  lemma AllocateIsCompleteAndLowestFirst(inUse: set<nat>, regions: map<string, nat>, regionID: string, shard: nat)
    requires shard < 1024 && forall n | n in regions :: regions[n] < 16
    ensures var r := AllocateResult(inUse, regions, regionID, shard);
            && (r == Err(UnknownRegion) <==> regionID !in regions)
            && (regionID in regions ==>
                  var inShard := (v: nat) => LegalInShard(v, regions[regionID], shard);
                  var inRegion := (v: nat) => LegalInRegion(v, regions[regionID]);
                  && (r == Err(PoolExhausted) <==> AllTaken(inRegion, inUse))
                  && (!AllTaken(inShard, inUse) ==> r.Ok? && SmallestFree(r.value, inShard, inUse))
                  && (AllTaken(inShard, inUse) && r.Ok? ==> SmallestFree(r.value, inRegion, inUse)))
  {
    if regionID in regions {
      FreeInShardMeaning(inUse, regions[regionID], shard, 0);
      FreeInRegionMeaning(inUse, regions[regionID], 0);
    }
  }

  /** The part other modules use: a granted VNI was free, in range, and decodes to the region asked for. */
  lemma AllocateGrantsFreeLegal(inUse: set<nat>, regions: map<string, nat>, regionID: string, shard: nat)
    requires shard < 1024 && forall n | n in regions :: regions[n] < 16
    requires AllocateResult(inUse, regions, regionID, shard).Ok?
    ensures var v := AllocateResult(inUse, regions, regionID, shard).value;
            regionID in regions && LegalInRegion(v, regions[regionID]) && v !in inUse
  {
    FreeInShardMeaning(inUse, regions[regionID], shard, 0);
    FreeInRegionMeaning(inUse, regions[regionID], 0);
  }

  lemma AllocateErrors(inUse: set<nat>, regions: map<string, nat>, regionID: string, shard: nat)
    ensures var r := AllocateResult(inUse, regions, regionID, shard);
            if regionID in regions then r.Ok? || r == Err(PoolExhausted) else r == Err(UnknownRegion)
  {
  }

  ghost function RegionPool(region: nat): set<int> {
    set v | v in Interval(0, 0x100_0000) && LegalInRegion(v, region)
  }

  function Capacity(region: nat): nat {
    if region == 0 then 1_044_480 else if region < 15 then 1_048_576 else 271_360
  }

  /** How many VNIs a region has. */
  lemma RegionCapacity(region: nat)
    requires region < 16
    ensures |RegionPool(region)| == Capacity(region)
  {
    hide DecodeVNI, Interval;
    var lo, hi := RegionLow(region), RegionHigh(region);
    forall v ensures v in RegionPool(region) <==> v in Interval(lo, hi) {
      if 0 <= v < 0x100_0000 { InRegionMeaning(v, region); }
    }
    assert RegionPool(region) == Interval(lo, hi);
    IntervalSize(lo, hi);
  }

  function RegionLow(region: nat): nat {
    if region == 0 then MIN_VNI else region * 0x10_0000
  }

  function RegionHigh(region: nat): nat {
    if region == 15 then MAX_VNI else (region + 1) * 0x10_0000
  }

  /** The legal VNIs of a region are one interval. */
  lemma InRegionMeaning(v: nat, region: nat)
    requires region < 16 && v < 0x100_0000
    ensures DecodeVNI(v).region == region && InRange(v) <==> RegionLow(region) <= v < RegionHigh(region)
  {
    DecodeIsPositional(v);
    RegionDigit(v, region);
  }

  lemma RegionDigit(v: nat, region: nat)
    requires v < 0x100_0000
    ensures v / 0x10_0000 % 16 == region <==> region * 0x10_0000 <= v < (region + 1) * 0x10_0000
  {
  }

  /** Both reserved bounds fall on a shard boundary: a shard is wholly usable or wholly reserved. */
  lemma BoundsCutAtShards(a: nat, b: nat)
    requires a < 0x100_0000 && b < 0x100_0000
    requires DecodeVNI(a).region == DecodeVNI(b).region && DecodeVNI(a).shard == DecodeVNI(b).shard
    ensures InRange(a) <==> InRange(b)
  {
    hide DecodeVNI;
    DecodeIsPositional(a);
    DecodeIsPositional(b);
    DigitsPositional(a);
    DigitsPositional(b);
  }
}
