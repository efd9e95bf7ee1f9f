/** The peering graph, the VNIs and the address spaces of an invariant state. */
module Reachable {
  import opened Common
  import opened Prefixes
  import opened Model
  import Cidr
  import Vni
  import opened Lifecycle
  import opened Invariant
  import opened Runs
  import opened Preservation

  lemma {:induction false} InjectiveSize<K, V>(m: map<K, V>)
    requires forall a, b | a in m && b in m && a != b :: m[a] != m[b]
    ensures |m.Values| == |m.Keys|
    decreases |m|
  {
    if m.Keys == {} {
      assert m.Values == {};
    } else {
      var k :| k in m.Keys;
      var less := m - {k};
      InjectiveSize(less);
      ValuesSplit(m, k);
      assert less.Keys == m.Keys - {k};
    }
  }

  lemma ValuesSplit<K, V>(m: map<K, V>, k: K)
    requires k in m && forall a, b | a in m && b in m && a != b :: m[a] != m[b]
    ensures m.Values == (m - {k}).Values + {m[k]} && m[k] !in (m - {k}).Values
  {
    var less := m - {k};
    forall v ensures v in m.Values <==> v in less.Values || v == m[k] {
      if v in m.Values {
        var a :| a in m && m[a] == v;
        if a != k { assert a in less && less[a] == v; }
      }
    }
  }

  // ---- a simple graph ----

  const LIVE_STATES: set<PeeringState> := {PendingAcceptance, Provisioning, Active, Degraded, Deleting, Failed}

  /** What `FindByVPCs` and `CountByVPC` skip are exactly the states that are not among those. */
  lemma LiveMeans(p: Peering)
    ensures p.Live() <==> p.state in LIVE_STATES
  {
    match p.state
    case PendingAcceptance => case Provisioning => case Active => case Degraded => case Deleting =>
    case Failed => case Rejected => case Expired => case Deleted =>
  }

  function LivePeerings(peerings: Peerings): set<Uuid> {
    set id | id in peerings && peerings[id].state in LIVE_STATES
  }

  lemma LiveAtMeans(peerings: Peerings, vpc: Uuid)
    ensures LiveAt(peerings, vpc) == set id | id in LivePeerings(peerings) && peerings[id].Touches(vpc)
  {
    forall id | id in peerings ensures peerings[id].Live() <==> peerings[id].state in LIVE_STATES {
      LiveMeans(peerings[id]);
    }
  }

  function LiveVpcs(vpcs: Vpcs): set<Uuid> {
    set id | id in vpcs && LiveVpc(vpcs[id])
  }

  function OtherEnd(p: Peering, vpc: Uuid): Uuid {
    if p.requester == vpc then p.accepter else p.requester
  }

  function Neighbours(peerings: Peerings, vpc: Uuid): map<Uuid, Uuid> {
    map id | id in LivePeerings(peerings) && (peerings[id].requester == vpc || peerings[id].accepter == vpc) ::
      OtherEnd(peerings[id], vpc)
  }

  /**
   * Live peerings form a simple graph on the live VPCs: no loops, no parallel edges, so a VPC has
   * as many neighbours as `CountByVPC` counts, and never more than 125.
   */
  lemma SimpleGraph(s: State, vpc: Uuid)
    requires Reaches(s)
    ensures var around := Neighbours(s.peerings, vpc).Values;
            vpc !in around && around <= LiveVpcs(s.vpcs) && |around| == CountByVpc(s.peerings, vpc) <= 125
  {
    ReachableInv(s);
    NeighboursLive(s.peerings, s.vpcs, vpc);
    NeighboursDiffer(s.peerings, s.vpcs, vpc);
    NeighboursCounted(s.peerings, vpc);
    assert CountByVpc(s.peerings, vpc) <= MAX_PEERINGS;
  }

  lemma NeighboursLive(peerings: Peerings, vpcs: Vpcs, vpc: Uuid)
    requires PeeringsOk(peerings, vpcs)
    ensures vpc !in Neighbours(peerings, vpc).Values && Neighbours(peerings, vpc).Values <= LiveVpcs(vpcs)
  {
    var edges := Neighbours(peerings, vpc);
    forall id | id in edges ensures edges[id] != vpc && edges[id] in LiveVpcs(vpcs) {
      LiveMeans(peerings[id]);
      assert PeeringWf(peerings[id], id, vpcs);
    }
  }

  lemma NeighboursCounted(peerings: Peerings, vpc: Uuid)
    requires var edges := Neighbours(peerings, vpc);
             forall i, j | i in edges && j in edges && i != j :: edges[i] != edges[j]
    ensures |Neighbours(peerings, vpc).Values| == CountByVpc(peerings, vpc)
  {
    var edges := Neighbours(peerings, vpc);
    InjectiveSize(edges);
    LiveAtMeans(peerings, vpc);
    assert edges.Keys == LiveAt(peerings, vpc);
  }

  lemma NeighboursDiffer(peerings: Peerings, vpcs: Vpcs, vpc: Uuid)
    requires PeeringsOk(peerings, vpcs) && PairsUnique(peerings)
    ensures var edges := Neighbours(peerings, vpc);
            forall i, j | i in edges && j in edges && i != j :: edges[i] != edges[j]
  {
    var edges := Neighbours(peerings, vpc);
    forall i, j | i in edges && j in edges && i != j ensures edges[i] != edges[j] {
      LiveMeans(peerings[i]);
      LiveMeans(peerings[j]);
      assert !SamePair(peerings[i], peerings[j]);
    }
  }

  // ---- the degrees add up to twice the edges ----

  function SumOfCounts(peerings: Peerings, list: seq<Uuid>): nat {
    if list == [] then 0 else CountByVpc(peerings, list[0]) + SumOfCounts(peerings, list[1..])
  }

  ghost function Incidences(peerings: Peerings, among: seq<Uuid>): set<(Uuid, Uuid)> {
    set id, v | id in LivePeerings(peerings) && v in among && peerings[id].Touches(v) :: (id, v)
  }

  ghost function IncidencesAt(peerings: Peerings, vpc: Uuid): map<Uuid, (Uuid, Uuid)> {
    map id | id in LiveAt(peerings, vpc) :: (id, vpc)
  }

  lemma IncidencesCons(peerings: Peerings, list: seq<Uuid>)
    requires list != [] && list[0] !in list[1..]
    ensures |Incidences(peerings, list)| == CountByVpc(peerings, list[0]) + |Incidences(peerings, list[1..])|
  {
    var here, rest := IncidencesAt(peerings, list[0]), Incidences(peerings, list[1..]);
    InjectiveSize(here);
    assert here.Keys == LiveAt(peerings, list[0]);
    HereAndRest(peerings, list);
    assert here.Values !! rest;
  }

  lemma HereAndRest(peerings: Peerings, list: seq<Uuid>)
    requires list != []
    ensures Incidences(peerings, list) == IncidencesAt(peerings, list[0]).Values + Incidences(peerings, list[1..])
  {
    var here := IncidencesAt(peerings, list[0]);
    LiveAtMeans(peerings, list[0]);
    assert list == [list[0]] + list[1..];
    forall x: (Uuid, Uuid)
      ensures x in Incidences(peerings, list) <==> x in here.Values + Incidences(peerings, list[1..])
    {
      if x in Incidences(peerings, list) && x.1 == list[0] { assert x.0 in here && here[x.0] == x; }
    }
  }

  lemma {:induction false} SumIsIncidences(peerings: Peerings, list: seq<Uuid>)
    requires forall i, j | 0 <= i < j < |list| :: list[i] != list[j]
    ensures SumOfCounts(peerings, list) == |Incidences(peerings, list)|
  {
    if list == [] {
      assert Incidences(peerings, list) == {};
    } else {
      SumIsIncidences(peerings, list[1..]);
      IncidencesCons(peerings, list);
    }
  }

  ghost function EndsOn(peerings: Peerings, requesterSide: bool): map<Uuid, (Uuid, Uuid)> {
    map id | id in LivePeerings(peerings) ::
      (id, if requesterSide then peerings[id].requester else peerings[id].accepter)
  }

  lemma IncidencesAreEnds(peerings: Peerings, vpcs: Vpcs, list: seq<Uuid>)
    requires PeeringsOk(peerings, vpcs) && Enumerates(list, LiveVpcs(vpcs))
    ensures Incidences(peerings, list) == EndsOn(peerings, true).Values + EndsOn(peerings, false).Values
    ensures EndsOn(peerings, true).Values !! EndsOn(peerings, false).Values
  {
    var req, acc := EndsOn(peerings, true), EndsOn(peerings, false);
    forall id | id in LivePeerings(peerings)
      ensures peerings[id].requester in list && peerings[id].accepter in list
      ensures peerings[id].requester != peerings[id].accepter
      ensures (id, peerings[id].requester) in req.Values && (id, peerings[id].accepter) in acc.Values
    {
      LiveMeans(peerings[id]);
      assert PeeringWf(peerings[id], id, vpcs);
      assert req[id] == (id, peerings[id].requester) && acc[id] == (id, peerings[id].accepter);
    }
  }

  /** Summed over the live VPCs, in any order, `CountByVPC` is twice the number of live peerings. */
  lemma Handshake(s: State, list: seq<Uuid>)
    requires Reaches(s) && Enumerates(list, LiveVpcs(s.vpcs))
    ensures SumOfCounts(s.peerings, list) == 2 * |LivePeerings(s.peerings)|
  {
    ReachableInv(s);
    SumIsIncidences(s.peerings, list);
    IncidencesAreEnds(s.peerings, s.vpcs, list);
    TwoEndsEach(s.peerings);
  }

  lemma TwoEndsEach(peerings: Peerings)
    requires EndsOn(peerings, true).Values !! EndsOn(peerings, false).Values
    ensures |EndsOn(peerings, true).Values + EndsOn(peerings, false).Values| == 2 * |LivePeerings(peerings)|
  {
    InjectiveSize(EndsOn(peerings, true));
    InjectiveSize(EndsOn(peerings, false));
    assert EndsOn(peerings, true).Keys == LivePeerings(peerings) == EndsOn(peerings, false).Keys;
  }

  // ---- VNIs ----

  /** The live VPCs whose region has numeric ID `region`, with their VNIs. */
  function VnisIn(s: State, region: nat): map<Uuid, nat> {
    map id | id in LiveVpcs(s.vpcs) && s.vpcs[id].region in s.regions && s.regions[s.vpcs[id].region] == region
      :: s.vpcs[id].vni
  }

  function VnisOf(vpcs: Vpcs): map<Uuid, nat> {
    map id | id in LiveVpcs(vpcs) :: vpcs[id].vni
  }

  lemma VnisOfValues(vpcs: Vpcs, inUse: set<nat>)
    requires VnisAgree(vpcs, inUse)
    ensures inUse == VnisOf(vpcs).Values && |inUse| == |LiveVpcs(vpcs)|
  {
    var all := VnisOf(vpcs);
    InjectiveSize(all);
    assert all.Keys == LiveVpcs(vpcs);
    forall v ensures v in inUse <==> v in all.Values {
      if v in LiveVnis(vpcs) {
        var id: Uuid :| id in vpcs && LiveVpc(vpcs[id]) && vpcs[id].vni == v;
        assert id in all && all[id] == v;
      }
    }
  }

  /** The allocator knows exactly the live VPCs' VNIs; each is in range and decodes to its VPC's region. */
  lemma AllocatorAgreesWithStore(s: State)
    requires Reaches(s)
    ensures s.inUse == VnisOf(s.vpcs).Values && |s.inUse| == |LiveVpcs(s.vpcs)|
    ensures forall id | id in LiveVpcs(s.vpcs) ::
              && s.vpcs[id].region in s.regions
              && Vni.DecodeVNI(s.vpcs[id].vni).region == s.regions[s.vpcs[id].region]
              && 4096 <= s.vpcs[id].vni < 16_000_000
  {
    ReachableInv(s);
    VnisOfValues(s.vpcs, s.inUse);
    hide LiveVnis, VnisOf;
    forall id | id in LiveVpcs(s.vpcs) ensures VpcWf(s.vpcs[id], id, s.regions) {
    }
  }

  lemma VnisDiffer(s: State, region: nat)
    requires VnisAgree(s.vpcs, s.inUse)
    ensures |VnisIn(s, region).Values| == |VnisIn(s, region).Keys|
  {
    InjectiveSize(VnisIn(s, region));
  }

  lemma OwnerOfVni(s: State, v: nat) returns (id: Uuid)
    requires VnisAgree(s.vpcs, s.inUse) && VpcsOk(s.vpcs, s.regions) && v in s.inUse
    ensures id in LiveVpcs(s.vpcs) && s.vpcs[id].vni == v && VpcWf(s.vpcs[id], id, s.regions)
  {
    id :| id in s.vpcs && LiveVpc(s.vpcs[id]) && s.vpcs[id].vni == v;
  }

  lemma VnisInPool(s: State, region: nat)
    requires InvVpcs(s) && region < 16
    ensures VnisIn(s, region).Values == s.inUse * Vni.RegionPool(region)
  {
    hide InvVpcs, LiveVnis, Vni.DecodeVNI;
    var here := VnisIn(s, region);
    forall id: Uuid | id in here ensures here[id] in s.inUse && here[id] in Vni.RegionPool(region) {
      StoredVni(s, id);
    }
    forall v | v in s.inUse && v in Vni.RegionPool(region) ensures v in here.Values {
      var id := OwnerOfStoredVni(s, v);
      assert id in here && here[id] == v;
    }
  }

  lemma StoredVni(s: State, id: Uuid)
    requires InvVpcs(s) && id in LiveVpcs(s.vpcs)
    ensures var v := s.vpcs[id];
            v.vni in s.inUse && v.region in s.regions && s.regions[v.region] < 16
            && v.vni in Vni.RegionPool(s.regions[v.region])
  {
    assert VpcWf(s.vpcs[id], id, s.regions);
  }

  lemma OwnerOfStoredVni(s: State, v: nat) returns (id: Uuid)
    requires InvVpcs(s) && v in s.inUse
    ensures id in LiveVpcs(s.vpcs) && s.vpcs[id].vni == v
    ensures s.vpcs[id].region in s.regions && Vni.LegalInRegion(v, s.regions[s.vpcs[id].region])
  {
    id := OwnerOfVni(s, v);
  }

  lemma FullMeansContained<T>(pool: set<T>, used: set<T>)
    ensures pool <= used <==> |used * pool| == |pool|
  {
    if pool <= used { assert used * pool == pool; }
    if |used * pool| == |pool| { SubsetOfSameSize(used * pool, pool); }
  }

  lemma SubsetOfSameSize<T>(a: set<T>, b: set<T>)
    requires a <= b && |a| == |b|
    ensures a == b
  {
    assert b == a + (b - a);
  }

  lemma AllTakenIsContained(region: nat, inUse: set<nat>)
    ensures Vni.AllTaken((v: nat) => Vni.LegalInRegion(v, region), inUse) <==> Vni.RegionPool(region) <= inUse
  {
    if Vni.RegionPool(region) <= inUse {
      forall v: nat | Vni.LegalInRegion(v, region) ensures v in inUse {
        assert v in Vni.RegionPool(region);
      }
    }
  }

  /** Allocation in a region fails exactly when its live VPCs number the region's capacity. */
  lemma ExhaustedMeansFull(s: State, regionID: string, shard: nat)
    requires Reaches(s) && regionID in s.regions && shard < 1024
    ensures var region := s.regions[regionID];
            Vni.AllocateResult(s.inUse, s.regions, regionID, shard) == Err(Vni.PoolExhausted)
            <==> |VnisIn(s, region).Keys| == Vni.Capacity(region)
  {
    ReachableInv(s);
    var region := s.regions[regionID];
    Vni.AllocateIsCompleteAndLowestFirst(s.inUse, s.regions, regionID, shard);
    AllTakenIsContained(region, s.inUse);
    VnisInPool(s, region);
    VnisDiffer(s, region);
    FullMeansContained(Vni.RegionPool(region), s.inUse);
    Vni.RegionCapacity(region);
  }

  // ---- address spaces ----

  /** No address lies in two blocks of one account's live VPCs, within a VPC or across VPCs. */
  lemma AccountSpacesApart(s: State, a: Uuid, b: Uuid, i: nat, j: nat)
    requires Reaches(s) && a in LiveVpcs(s.vpcs) && b in LiveVpcs(s.vpcs) && s.vpcs[a].account == s.vpcs[b].account
    requires i < |s.vpcs[a].cidrs| && j < |s.vpcs[b].cidrs| && (a != b || i != j)
    ensures !ShareAddress(s.vpcs[a].cidrs[i], s.vpcs[b].cidrs[j])
  {
    ReachableInv(s);
    var v, w := s.vpcs[a], s.vpcs[b];
    assert VpcWf(v, a, s.regions) && VpcWf(w, b, s.regions);
    OverlapsIsSharing(v.cidrs[i], w.cidrs[j]);
    PrefixOverlapSymmetric(v.cidrs[i], w.cidrs[j]);
    if a != b {
      assert !Cidr.CIDRsOverlap(v.cidrs, w.cidrs);
    }
  }

  /** The two VPCs of every stored peering, dead ones included, have no address in common. */
  lemma PeeredSpacesApart(s: State, id: Uuid)
    requires Reaches(s) && id in s.peerings
    ensures var p := s.peerings[id];
            && p.requester in s.vpcs && p.accepter in s.vpcs
            && !Cidr.UnionsMeet(s.vpcs[p.requester].cidrs, s.vpcs[p.accepter].cidrs)
  {
    ReachableInv(s);
    var p := s.peerings[id];
    assert PeeringWf(p, id, s.vpcs);
    assert VpcWf(s.vpcs[p.requester], p.requester, s.regions) && VpcWf(s.vpcs[p.accepter], p.accepter, s.regions);
    Cidr.CIDRsOverlapMeaning(s.vpcs[p.requester].cidrs, s.vpcs[p.accepter].cidrs);
  }
}
