/**
 * CIDR validation and overlap (internal/model/cidr.go), with the meaning of every check as a
 * statement about sets of addresses.
 */
module Cidr {
  import opened Common
  import opened Prefixes

  datatype CidrError = WrongCount | InvalidPrefix | NotIPv4 | BadLength | NotPrivate | BlocksOverlap

  /** The private ranges of section 3 of RFC 1918. */
  const RFC1918_RANGES: seq<Prefix> := [
    Prefix(IPv4, 0x0A00_0000, 8),   // 10.0.0.0/8
    Prefix(IPv4, 0xAC10_0000, 12),  // 172.16.0.0/12
    Prefix(IPv4, 0xC0A8_0000, 16)   // 192.168.0.0/16
  ]

  const MAX_BLOCKS: nat := 5

  /** Only the base address is looked at. */
  predicate IsRFC1918(cidr: Prefix) {
    exists i | 0 <= i < |RFC1918_RANGES| :: RFC1918_RANGES[i].Contains(cidr.Addr())
  }

  function ValidateCIDR(cidr: Prefix): Result<Prefix, CidrError> {
    if !cidr.Valid() then Err(InvalidPrefix)
    else
      var cidr := cidr.Masked();
      if cidr.family != IPv4 then Err(NotIPv4)
      else if cidr.bits < 16 || cidr.bits > 28 then Err(BadLength)
      else if !IsRFC1918(cidr) then Err(NotPrivate)
      else Ok(cidr)
  }

  predicate CIDRsOverlap(a: seq<Prefix>, b: seq<Prefix>) {
    exists i, j | 0 <= i < |a| && 0 <= j < |b| :: a[i].Overlaps(b[j])
  }

  predicate PairwiseApart(blocks: seq<Prefix>) {
    forall i, j | 0 <= i < j < |blocks| :: !blocks[i].Overlaps(blocks[j])
  }

  /** Every block validated and masked, or the error of the first one refused. */
  function NormalizeAll(cidrs: seq<Prefix>): Result<seq<Prefix>, CidrError> {
    if cidrs == [] then Ok([])
    else
      match NormalizeAll(cidrs[..|cidrs| - 1])
      case Err(e) => Err(e)
      case Ok(before) =>
        match ValidateCIDR(cidrs[|cidrs| - 1])
        case Err(e) => Err(e)
        case Ok(n) => Ok(before + [n])
  }

  function ValidatedBlocks(cidrs: seq<Prefix>): Result<seq<Prefix>, CidrError> {
    if |cidrs| == 0 || |cidrs| > MAX_BLOCKS then Err(WrongCount)
    else
      match NormalizeAll(cidrs)
      case Err(e) => Err(e)
      case Ok(blocks) => if PairwiseApart(blocks) then Ok(blocks) else Err(BlocksOverlap)
  }

  lemma {:induction false} NormalizeAllStops(cidrs: seq<Prefix>, k: nat)
    requires k < |cidrs| && NormalizeAll(cidrs[..k]).Ok? && ValidateCIDR(cidrs[k]).Err?
    ensures NormalizeAll(cidrs) == Err(ValidateCIDR(cidrs[k]).error)
  {
    if k == |cidrs| - 1 {
    } else {
      var init := cidrs[..|cidrs| - 1];
      assert init[..k] == cidrs[..k];
      NormalizeAllStops(init, k);
    }
  }

  /** Masks each block into an array; the error of the first refused block ends the loop. */
  method NormalizeBlocks(cidrs: seq<Prefix>) returns (r: Result<seq<Prefix>, CidrError>)
    ensures r == NormalizeAll(cidrs)
  {
    var normalized := new Prefix[|cidrs|](i => Prefix(IPv4, 0, 0));
    var k := 0;
    while k < |cidrs|
      invariant 0 <= k <= |cidrs|
      invariant NormalizeAll(cidrs[..k]) == Ok(normalized[..k])
    {
      var one := ValidateCIDR(cidrs[k]);
      if one.Err? {
        NormalizeAllStops(cidrs, k);
        return Err(one.error);
      }
      assert cidrs[..k + 1][..k] == cidrs[..k];
      normalized[k] := one.value;
      assert normalized[..k + 1] == normalized[..k] + [one.value];
      k := k + 1;
    }
    assert cidrs[..k] == cidrs;
    assert normalized[..k] == normalized[..];
    return Ok(normalized[..]);
  }

  /** Compares every pair of blocks. */
  method CheckApart(blocks: seq<Prefix>) returns (apart: bool)
    ensures apart == PairwiseApart(blocks)
  {
    var i := 0;
    while i < |blocks|
      invariant 0 <= i <= |blocks|
      invariant forall p, q | 0 <= p < q < |blocks| && p < i :: !blocks[p].Overlaps(blocks[q])
    {
      var j := i + 1;
      while j < |blocks|
        invariant i < j <= |blocks|
        invariant forall q | i < q < j :: !blocks[i].Overlaps(blocks[q])
      {
        if blocks[i].Overlaps(blocks[j]) {
          return false;
        }
        j := j + 1;
      }
      i := i + 1;
    }
    return true;
  }

  method ValidateCIDRBlocks(cidrs: seq<Prefix>) returns (r: Result<seq<Prefix>, CidrError>)
    ensures r == ValidatedBlocks(cidrs)
  {
    if |cidrs| == 0 || |cidrs| > MAX_BLOCKS {
      return Err(WrongCount);
    }
    var n := NormalizeBlocks(cidrs);
    if n.Err? {
      return Err(n.error);
    }
    var apart := CheckApart(n.value);
    if !apart {
      return Err(BlocksOverlap);
    }
    return n;
  }

  // ---- what the checks mean ----

  /** The union of the blocks' addresses. */
  ghost predicate CoveredBy(blocks: seq<Prefix>, a: Address) {
    exists i :: 0 <= i < |blocks| && a in blocks[i].Addresses()
  }

  ghost predicate AllValid(blocks: seq<Prefix>) {
    forall i | 0 <= i < |blocks| :: blocks[i].Valid()
  }

  /** The two unions have an address in common. */
  ghost predicate UnionsMeet(a: seq<Prefix>, b: seq<Prefix>) {
    exists x: Address :: CoveredBy(a, x) && CoveredBy(b, x)
  }

  /** `CIDRsOverlap` holds exactly when the two unions share an address. */
  lemma CIDRsOverlapMeaning(a: seq<Prefix>, b: seq<Prefix>)
    requires AllValid(a) && AllValid(b)
    ensures CIDRsOverlap(a, b) <==> UnionsMeet(a, b)
  {
    if CIDRsOverlap(a, b) {
      var i, j :| 0 <= i < |a| && 0 <= j < |b| && a[i].Overlaps(b[j]);
      OverlapsIsSharing(a[i], b[j]);
      var x: Address :| x in a[i].Addresses() && x in b[j].Addresses();
      assert CoveredBy(a, x) && CoveredBy(b, x);
    }
    if UnionsMeet(a, b) {
      var x: Address :| CoveredBy(a, x) && CoveredBy(b, x);
      var i :| 0 <= i < |a| && x in a[i].Addresses();
      var j :| 0 <= j < |b| && x in b[j].Addresses();
      OverlapsIsSharing(a[i], b[j]);
    }
  }

  /**
   * Section 3 of RFC 1918: 10.0.0.0 to 10.255.255.255, 172.16.0.0 to 172.31.255.255, and
   * 192.168.0.0 to 192.168.255.255.
   */
  predicate InPrivateSpace(a: Address) {
    && a.family == IPv4
    && (0x0A00_0000 <= a.value <= 0x0AFF_FFFF
        || 0xAC10_0000 <= a.value <= 0xAC1F_FFFF
        || 0xC0A8_0000 <= a.value <= 0xC0A8_FFFF)
  }

  /** The three prefixes cover exactly those addresses. */
  lemma RangesArePrivateSpace(a: Address)
    ensures CoveredBy(RFC1918_RANGES, a) <==> InPrivateSpace(a)
  {
    Pow2Values();
    forall i | 0 <= i < 3
      ensures RFC1918_RANGES[i].Size() == [0x100_0000, 0x10_0000, 0x1_0000][i]
      ensures BlockBase(RFC1918_RANGES[i].value, RFC1918_RANGES[i].Size()) == RFC1918_RANGES[i].value
    {
    }
    if InPrivateSpace(a) {
      var i := if a.value <= 0x0AFF_FFFF then 0 else if a.value <= 0xAC1F_FFFF then 1 else 2;
      assert a in RFC1918_RANGES[i].Addresses();
    }
  }

  /** What a usable block is, said about all of its addresses. */
  ghost predicate Acceptable(c: Prefix) {
    && c.Valid() && c.family == IPv4 && 16 <= c.bits <= 28
    && forall a | a in c.Addresses() :: InPrivateSpace(a)
  }

  lemma RangesValid()
    ensures AllValid(RFC1918_RANGES)
    ensures forall i | 0 <= i < |RFC1918_RANGES| :: RFC1918_RANGES[i].family == IPv4 && RFC1918_RANGES[i].bits <= 16
  {
    Pow2Values();
  }

  /** Why a block that is not acceptable is refused. */
  function Unusable(c: Prefix): CidrError {
    if !c.Valid() then InvalidPrefix
    else if c.family == IPv6 then NotIPv4
    else if c.bits < 16 || 28 < c.bits then BadLength
    else NotPrivate
  }

  /** Testing the base address alone decides whether the whole block is private. */
  lemma ValidateCIDRMeaning(c: Prefix)
    ensures ValidateCIDR(c).Ok? <==> Acceptable(c)
    ensures ValidateCIDR(c).Ok? ==> ValidateCIDR(c).value == c.Masked() && c.Masked().Valid()
                                    && c.Masked().Addresses() == c.Addresses()
    ensures ValidateCIDR(c).Err? ==> ValidateCIDR(c).error == Unusable(c)
  {
    MaskedSameAddresses(c);
    RangesValid();
    var m := c.Masked();
    if ValidateCIDR(c).Ok? {
      var i :| 0 <= i < |RFC1918_RANGES| && RFC1918_RANGES[i].Contains(m.Addr());
      ContainsBaseContainsAll(RFC1918_RANGES[i], m);
      forall a | a in c.Addresses() ensures InPrivateSpace(a) {
        assert a in RFC1918_RANGES[i].Addresses();
        RangesArePrivateSpace(a);
      }
    }
    if Acceptable(c) {
      BaseIsMember(m);
      RangesArePrivateSpace(m.Addr());
      var i :| 0 <= i < |RFC1918_RANGES| && m.Addr() in RFC1918_RANGES[i].Addresses();
      ContainsIsMembership(RFC1918_RANGES[i], m.Addr());
    }
  }

  lemma {:induction false} NormalizeAllMeaning(cidrs: seq<Prefix>)
    ensures NormalizeAll(cidrs).Ok? <==> forall i | 0 <= i < |cidrs| :: Acceptable(cidrs[i])
    ensures NormalizeAll(cidrs).Ok? ==>
              var n := NormalizeAll(cidrs).value;
              && |n| == |cidrs| && AllValid(n)
              && forall i | 0 <= i < |n| :: n[i] == cidrs[i].Masked() && n[i].Addresses() == cidrs[i].Addresses()
  {
    hide ValidateCIDR, Acceptable;
    if cidrs != [] {
      var init := cidrs[..|cidrs| - 1];
      NormalizeAllMeaning(init);
      ValidateCIDRMeaning(cidrs[|cidrs| - 1]);
      forall i | 0 <= i < |init| ensures init[i] == cidrs[i] {}
    }
  }

  /**
   * The whole validation, said about addresses: a request is accepted exactly when it has one to
   * five blocks, every block lies inside the private ranges, and no address lies in two blocks;
   * what is stored stands for the same addresses.
   */
  lemma ValidatedBlocksMeaning(cidrs: seq<Prefix>)
    ensures ValidatedBlocks(cidrs).Ok? <==>
              && 1 <= |cidrs| <= 5
              && (forall i | 0 <= i < |cidrs| :: Acceptable(cidrs[i]))
              && (forall i, j | 0 <= i < j < |cidrs| :: !ShareAddress(cidrs[i], cidrs[j]))
    ensures ValidatedBlocks(cidrs).Ok? ==>
              var n := ValidatedBlocks(cidrs).value;
              && |n| == |cidrs| && AllValid(n) && PairwiseApart(n)
              && (forall i | 0 <= i < |n| :: n[i] == cidrs[i].Masked() && Acceptable(n[i]))
              && (forall a :: CoveredBy(n, a) <==> CoveredBy(cidrs, a))
  {
    NormalizeAllMeaning(cidrs);
    if NormalizeAll(cidrs).Ok? {
      var n := NormalizeAll(cidrs).value;
      forall i, j | 0 <= i < j < |n| ensures n[i].Overlaps(n[j]) <==> ShareAddress(cidrs[i], cidrs[j]) {
        OverlapsIsSharing(n[i], n[j]);
      }
      forall i | 0 <= i < |n| ensures Acceptable(n[i]) {
        assert Acceptable(cidrs[i]);
      }
      forall a ensures CoveredBy(n, a) <==> CoveredBy(cidrs, a) {
        if CoveredBy(n, a) { var i :| 0 <= i < |n| && a in n[i].Addresses(); assert a in cidrs[i].Addresses(); }
        if CoveredBy(cidrs, a) { var i :| 0 <= i < |n| && a in cidrs[i].Addresses(); assert a in n[i].Addresses(); }
      }
    }
  }

  /** Block `k` is the first that is not acceptable. */
  ghost predicate FirstRefused(cidrs: seq<Prefix>, k: nat) {
    k < |cidrs| && !Acceptable(cidrs[k]) && forall i | 0 <= i < k :: Acceptable(cidrs[i])
  }

  lemma {:induction false} FirstUnusable(cidrs: seq<Prefix>) returns (k: nat)
    requires NormalizeAll(cidrs).Err?
    ensures FirstRefused(cidrs, k) && NormalizeAll(cidrs).error == Unusable(cidrs[k])
  {
    hide ValidateCIDR, Acceptable, Unusable;
    var init := cidrs[..|cidrs| - 1];
    ValidateCIDRMeaning(cidrs[|cidrs| - 1]);
    NormalizeAllMeaning(init);
    assert forall i | 0 <= i < |init| :: init[i] == cidrs[i];
    if NormalizeAll(init).Err? {
      k := FirstUnusable(init);
    } else {
      k := |cidrs| - 1;
    }
  }

  /** Every refused request, with its error: the count, the first unusable block, or a shared address. */
  lemma ValidationErrors(cidrs: seq<Prefix>)
    requires ValidatedBlocks(cidrs).Err?
    ensures var e := ValidatedBlocks(cidrs).error;
            if |cidrs| == 0 || |cidrs| > 5 then e == WrongCount
            else if forall i | 0 <= i < |cidrs| :: Acceptable(cidrs[i]) then e == BlocksOverlap
            else exists k: nat :: FirstRefused(cidrs, k) && e == Unusable(cidrs[k])
  {
    hide Acceptable, Unusable, NormalizeAll;
    NormalizeAllMeaning(cidrs);
    if NormalizeAll(cidrs).Err? { var k := FirstUnusable(cidrs); }
  }

  // ---- how many addresses a VPC has ----

  /** The sum of 2^(32 - bits) over the blocks. */
  function SumOfSizes(blocks: seq<Prefix>): nat {
    if blocks == [] then 0 else SumOfSizes(blocks[..|blocks| - 1]) + blocks[|blocks| - 1].Size()
  }

  ghost function UnionValues(blocks: seq<Prefix>): set<int> {
    set x | 0 <= x < Pow2(32) && CoveredBy(blocks, Address(IPv4, x))
  }

  lemma BlockFitsFamily(p: Prefix)
    requires p.Valid()
    ensures BlockBase(p.value, p.Size()) + p.Size() <= Pow2(Width(p.family))
  {
    Pow2Add(Width(p.family) - p.bits, p.bits);
    BlockFits(p.value, p.Size(), Pow2(p.bits));
  }

  ghost function BlockValues(p: Prefix): set<int> {
    Interval(BlockBase(p.value, p.Size()), BlockBase(p.value, p.Size()) + p.Size())
  }

  lemma BlockValuesMeaning(p: Prefix, x: int)
    requires p.Valid() && p.family == IPv4
    ensures x in BlockValues(p) <==> 0 <= x < Pow2(32) && Address(IPv4, x) in p.Addresses()
  {
    BlockFitsFamily(p);
  }

  lemma CoveredSnoc(init: seq<Prefix>, last: Prefix, a: Address)
    ensures CoveredBy(init + [last], a) <==> CoveredBy(init, a) || a in last.Addresses()
  {
    var blocks := init + [last];
    if CoveredBy(blocks, a) {
      var i :| 0 <= i < |blocks| && a in blocks[i].Addresses();
      if i < |init| { assert a in init[i].Addresses(); }
    }
    if a in last.Addresses() { assert a in blocks[|init|].Addresses(); }
    if CoveredBy(init, a) {
      var i :| 0 <= i < |init| && a in init[i].Addresses();
      assert a in blocks[i].Addresses();
    }
  }

  lemma UnionValuesStep(init: seq<Prefix>, last: Prefix)
    requires last.Valid() && last.family == IPv4
    ensures UnionValues(init + [last]) == UnionValues(init) + BlockValues(last)
  {
    hide BlockValues, CoveredBy;
    forall x: int | x >= 0
      ensures x in UnionValues(init + [last]) <==> x in UnionValues(init) || x in BlockValues(last)
    {
      BlockValuesMeaning(last, x);
      CoveredSnoc(init, last, Address(IPv4, x));
    }
    forall x: int | x in BlockValues(last) ensures x >= 0 {
      BlockValuesMeaning(last, x);
    }
  }

  lemma ApartFromUnion(init: seq<Prefix>, last: Prefix)
    requires last.Valid() && last.family == IPv4 && AllValid(init)
    requires forall i | 0 <= i < |init| :: !init[i].Overlaps(last)
    ensures UnionValues(init) !! BlockValues(last)
  {
    forall x | x in UnionValues(init) && x in BlockValues(last) ensures false {
      BlockValuesMeaning(last, x);
      var i :| 0 <= i < |init| && Address(IPv4, x) in init[i].Addresses();
      OverlapsIsSharing(init[i], last);
    }
  }

  lemma BlockValuesSize(p: Prefix)
    ensures |BlockValues(p)| == p.Size()
  {
    IntervalSize(BlockBase(p.value, p.Size()), BlockBase(p.value, p.Size()) + p.Size());
  }

  lemma ApartSplit(init: seq<Prefix>, last: Prefix)
    requires PairwiseApart(init + [last])
    ensures PairwiseApart(init)
    ensures forall i | 0 <= i < |init| :: !init[i].Overlaps(last)
  {
    var blocks := init + [last];
    forall i, j | 0 <= i < j < |init| ensures !init[i].Overlaps(init[j]) {
      assert !blocks[i].Overlaps(blocks[j]);
    }
    forall i | 0 <= i < |init| ensures !init[i].Overlaps(last) {
      assert !blocks[i].Overlaps(blocks[|init|]);
    }
  }

  /** Blocks that pass validation together cover exactly the sum of their sizes. */
  lemma {:induction false} UnionSize(blocks: seq<Prefix>)
    requires AllValid(blocks) && PairwiseApart(blocks)
    requires forall i | 0 <= i < |blocks| :: blocks[i].family == IPv4
    ensures |UnionValues(blocks)| == SumOfSizes(blocks)
  {
    if blocks == [] {
      assert UnionValues(blocks) == {};
    } else {
      var last := blocks[|blocks| - 1];
      var init := blocks[..|blocks| - 1];
      assert init + [last] == blocks;
      ApartSplit(init, last);
      UnionSize(init);
      BlockValuesSize(last);
      UnionValuesStep(init, last);
      ApartFromUnion(init, last);
    }
  }
}
