/** When the handlers grant a request, said about addresses, the graph and capacities. */
module Grants {
  import opened Common
  import opened Prefixes
  import Cidr
  import Vni
  import opened Lifecycle
  import opened Invariant
  import opened Preservation
  import opened Runs
  import opened Reachable

  /** The request itself: one to five private blocks with no address in two of them. */
  ghost predicate UsableBlocks(cidrs: seq<Prefix>) {
    && 1 <= |cidrs| <= 5
    && (forall i | 0 <= i < |cidrs| :: Cidr.Acceptable(cidrs[i]))
    && (forall i, j | 0 <= i < j < |cidrs| :: !ShareAddress(cidrs[i], cidrs[j]))
  }

  /** No live VPC of the account has the name in the region, or an address in common with the blocks. */
  ghost predicate RoomInAccount(vpcs: Vpcs, account: Uuid, region: string, name: string, cidrs: seq<Prefix>) {
    forall v | v in LiveVpcs(vpcs) && vpcs[v].account == account ::
      !(vpcs[v].region == region && vpcs[v].name == name) && !Cidr.UnionsMeet(vpcs[v].cidrs, cidrs)
  }

  lemma SameUnionsMeet(a: seq<Prefix>, b: seq<Prefix>, c: seq<Prefix>)
    requires forall x: Address :: Cidr.CoveredBy(b, x) <==> Cidr.CoveredBy(c, x)
    ensures Cidr.UnionsMeet(a, b) <==> Cidr.UnionsMeet(a, c)
  {
    if Cidr.UnionsMeet(a, b) {
      var x: Address :| Cidr.CoveredBy(a, x) && Cidr.CoveredBy(b, x);
      assert Cidr.CoveredBy(c, x);
    }
    if Cidr.UnionsMeet(a, c) {
      var x: Address :| Cidr.CoveredBy(a, x) && Cidr.CoveredBy(c, x);
      assert Cidr.CoveredBy(b, x);
    }
  }

  lemma LiveVpcBlocks(s: State, v: Uuid)
    requires Inv(s) && v in s.vpcs
    ensures Cidr.AllValid(s.vpcs[v].cidrs)
  {
    assert VpcWf(s.vpcs[v], v, s.regions);
  }

  lemma MeetsStored(s: State, v: Uuid, cidrs: seq<Prefix>)
    requires Inv(s) && v in s.vpcs && Cidr.ValidatedBlocks(cidrs).Ok?
    ensures Cidr.CIDRsOverlap(s.vpcs[v].cidrs, Cidr.ValidatedBlocks(cidrs).value)
            <==> Cidr.UnionsMeet(s.vpcs[v].cidrs, cidrs)
  {
    hide Inv, Cidr.CIDRsOverlap, Cidr.UnionsMeet, Cidr.ValidatedBlocks, Cidr.CoveredBy;
    var blocks := Cidr.ValidatedBlocks(cidrs).value;
    LiveVpcBlocks(s, v);
    Cidr.ValidatedBlocksMeaning(cidrs);
    Cidr.CIDRsOverlapMeaning(s.vpcs[v].cidrs, blocks);
    SameUnionsMeet(s.vpcs[v].cidrs, blocks, cidrs);
  }

  /** The two store searches find nothing exactly when the account has room. */
  lemma SearchesMeanRoom(s: State, account: Uuid, region: string, name: string, cidrs: seq<Prefix>)
    requires Inv(s) && Cidr.ValidatedBlocks(cidrs).Ok?
    ensures RoomInAccount(s.vpcs, account, region, name, cidrs)
        <==> !NameTaken(s.vpcs, account, region, name)
             && !AddressesTaken(s.vpcs, account, Cidr.ValidatedBlocks(cidrs).value)
  {
    hide Inv, Cidr.CIDRsOverlap, Cidr.UnionsMeet, Cidr.ValidatedBlocks;
    var blocks := Cidr.ValidatedBlocks(cidrs).value;
    forall v | v in s.vpcs
      ensures !HasName(s.vpcs[v], account, region, name) && !UsesAddresses(s.vpcs[v], account, blocks)
              <==> (v in LiveVpcs(s.vpcs) && s.vpcs[v].account == account ==>
                      !(s.vpcs[v].region == region && s.vpcs[v].name == name)
                      && !Cidr.UnionsMeet(s.vpcs[v].cidrs, cidrs))
    {
      MeetsStored(s, v, cidrs);
    }
  }

  lemma CreateVpcByParts(s: State, caller: Option<Uuid>, region: string, name: string, cidrs: seq<Prefix>, shard: nat,
                         id: Uuid, now: int)
    requires id !in s.vpcs
    ensures CreateVpc(s, caller, region, name, Some(cidrs), shard, id, now).1.Ok? <==>
              && caller.Some? && 1 <= |name| <= MAX_NAME && region != ""
              && Cidr.ValidatedBlocks(cidrs).Ok?
              && !NameTaken(s.vpcs, caller.value, region, name)
              && !AddressesTaken(s.vpcs, caller.value, Cidr.ValidatedBlocks(cidrs).value)
              && Vni.AllocateResult(s.inUse, s.regions, region, shard).Ok?
  {
  }

  lemma AllocationMeansCapacity(s: State, region: string, shard: nat)
    requires Reaches(s) && shard < 1024
    ensures Vni.AllocateResult(s.inUse, s.regions, region, shard).Ok?
            <==> region in s.regions && |VnisIn(s, s.regions[region]).Keys| < Vni.Capacity(s.regions[region])
  {
    hide Reaches;
    if region in s.regions {
      RegionIds(s, region);
      ExhaustedMeansFull(s, region, shard);
      WithinCapacity(s, s.regions[region]);
      Vni.AllocateErrors(s.inUse, s.regions, region, shard);
    }
  }

  lemma RegionIds(s: State, region: string)
    requires Reaches(s) && region in s.regions
    ensures s.regions[region] < 16
  {
    hide Reaches;
    ReachableInv(s);
  }

  /** A region never has more live VPCs than VNIs. */
  lemma WithinCapacity(s: State, region: nat)
    requires Reaches(s) && region < 16
    ensures |VnisIn(s, region).Keys| <= Vni.Capacity(region)
  {
    hide Reaches, Vni.RegionPool;
    ReachableInv(s);
    VnisInPool(s, region);
    VnisDiffer(s, region);
    Vni.RegionCapacity(region);
    SubsetSize(s.inUse * Vni.RegionPool(region), Vni.RegionPool(region));
  }

  /**
   * In every reachable state a VPC is created exactly for an authenticated caller with a usable name,
   * a registered region that is not full, usable blocks, and room for name and addresses.
   */
  lemma VpcGranted(s: State, caller: Option<Uuid>, region: string, name: string, cidrs: seq<Prefix>, shard: nat,
                   id: Uuid, now: int)
    requires Reaches(s) && id !in s.vpcs && shard < 1024
    ensures CreateVpc(s, caller, region, name, Some(cidrs), shard, id, now).1.Ok? <==>
              && caller.Some? && 1 <= |name| <= 128 && region != ""
              && UsableBlocks(cidrs)
              && RoomInAccount(s.vpcs, caller.value, region, name, cidrs)
              && region in s.regions && |VnisIn(s, s.regions[region]).Keys| < Vni.Capacity(s.regions[region])
  {
    hide Inv, Reaches, CreateVpc, RoomInAccount, NameTaken, AddressesTaken, Vni.AllocateResult, Cidr.ValidatedBlocks;
    ReachableInv(s);
    CreateVpcByParts(s, caller, region, name, cidrs, shard, id, now);
    Cidr.ValidatedBlocksMeaning(cidrs);
    AllocationMeansCapacity(s, region, shard);
    if caller.Some? && Cidr.ValidatedBlocks(cidrs).Ok? {
      SearchesMeanRoom(s, caller.value, region, name, cidrs);
    }
  }

  // ---- peering requests ----

  lemma PairTakenMeansNeighbours(peerings: Peerings, a: Uuid, b: Uuid)
    requires a != b
    ensures PairTaken(peerings, a, b) <==> b in Neighbours(peerings, a).Values
  {
    var edges := Neighbours(peerings, a);
    if PairTaken(peerings, a, b) {
      var id :| id in peerings && Joins(peerings[id], a, b);
      LiveMeans(peerings[id]);
      assert id in edges && edges[id] == b;
    }
    if b in edges.Values {
      var id :| id in edges && edges[id] == b;
      LiveMeans(peerings[id]);
      assert Joins(peerings[id], a, b);
    }
  }

  lemma StoredBlocksMeet(s: State, a: Uuid, b: Uuid)
    requires Inv(s) && a in s.vpcs && b in s.vpcs
    ensures Cidr.CIDRsOverlap(s.vpcs[a].cidrs, s.vpcs[b].cidrs) <==> Cidr.UnionsMeet(s.vpcs[a].cidrs, s.vpcs[b].cidrs)
  {
    hide Inv;
    LiveVpcBlocks(s, a);
    LiveVpcBlocks(s, b);
    Cidr.CIDRsOverlapMeaning(s.vpcs[a].cidrs, s.vpcs[b].cidrs);
  }

  lemma RequestByParts(s: State, caller: Option<Uuid>, requester: Uuid, accepter: Uuid, direction: string,
                       policy: PolicyRequest, id: Uuid, now: int)
    ensures CreatePeering(s, caller, requester, accepter, direction, policy, id, now).1.Ok? <==>
              && caller.Some? && requester != accepter
              && requester in LiveVpcs(s.vpcs) && s.vpcs[requester].account == caller.value
              && accepter in LiveVpcs(s.vpcs)
              && !Cidr.CIDRsOverlap(s.vpcs[requester].cidrs, s.vpcs[accepter].cidrs)
              && !PairTaken(s.peerings, requester, accepter)
              && CountByVpc(s.peerings, requester) < MAX_PEERINGS && CountByVpc(s.peerings, accepter) < MAX_PEERINGS
              && (direction == "" || IsValidDirection(direction)) && policy != Unparseable
  {
  }

  /**
   * In every reachable state a peering request is granted exactly when the caller owns the live
   * requester VPC, the accepter is another live VPC without common addresses, the two are not
   * neighbours yet, both have fewer than 125, and direction and policy can be read.
   */
  lemma RequestGranted(s: State, caller: Option<Uuid>, requester: Uuid, accepter: Uuid, direction: string,
                       policy: PolicyRequest, id: Uuid, now: int)
    requires Reaches(s)
    ensures CreatePeering(s, caller, requester, accepter, direction, policy, id, now).1.Ok? <==>
              && caller.Some? && requester != accepter
              && requester in LiveVpcs(s.vpcs) && s.vpcs[requester].account == caller.value
              && accepter in LiveVpcs(s.vpcs)
              && !Cidr.UnionsMeet(s.vpcs[requester].cidrs, s.vpcs[accepter].cidrs)
              && accepter !in Neighbours(s.peerings, requester).Values
              && |Neighbours(s.peerings, requester).Values| < 125 && |Neighbours(s.peerings, accepter).Values| < 125
              && direction in {"", "bidirectional", "requester_to_accepter", "accepter_to_requester"}
              && policy != Unparseable
  {
    hide Inv, Reaches, CreatePeering, Neighbours, PairTaken, CountByVpc, Cidr.CIDRsOverlap, Cidr.UnionsMeet;
    ReachableInv(s);
    RequestByParts(s, caller, requester, accepter, direction, policy, id, now);
    if requester != accepter && requester in s.vpcs && accepter in s.vpcs {
      StoredBlocksMeet(s, requester, accepter);
      PairTakenMeansNeighbours(s.peerings, requester, accepter);
    }
    SimpleGraph(s, requester);
    SimpleGraph(s, accepter);
  }

  /** A VPC is deleted exactly by its owner while it has no neighbours. */
  lemma DeletionGranted(s: State, caller: Option<Uuid>, id: Uuid)
    ensures DeleteVpc(s, caller, id).1 == None <==>
              id in LiveVpcs(s.vpcs) && caller == Some(s.vpcs[id].account) && Neighbours(s.peerings, id).Values == {}
  {
    LiveAtMeans(s.peerings, id);
    assert LiveAt(s.peerings, id) == Neighbours(s.peerings, id).Keys;
  }
}
