/** Who sees whose routes: the BGP state of an invariant state against its provisioned peerings. */
module Fabric {
  import opened Common
  import opened Prefixes
  import opened Model
  import Bgp
  import opened Lifecycle
  import opened Invariant
  import opened Runs

  // ---- names built from truncated IDs ----

  /** The first 8 characters of a UUID, all that names of VRFs and route targets keep of it. */
  function ShortId(id: Uuid): string {
    id[..8]
  }

  lemma TargetParts(a: string, b: string, c: string, d: string)
    requires |a| == 8 && |c| == 8
    ensures "target:" + a + ":" + b == "target:" + c + ":" + d <==> a == c && b == d
  {
    var left, right := "target:" + a + ":" + b, "target:" + c + ":" + d;
    assert left[7..15] == a && left[16..] == b;
    assert right[7..15] == c && right[16..] == d;
  }

  lemma VrfNameParts(a: string, b: string)
    ensures "vpc-" + a == "vpc-" + b <==> a == b
  {
    assert ("vpc-" + a)[4..] == a && ("vpc-" + b)[4..] == b;
  }

  /** The IDs agree as far as a VRF name shows. */
  predicate SameVrfName(v: Vpc, w: Vpc) {
    ShortId(v.id) == ShortId(w.id)
  }

  /** The IDs and accounts agree as far as a route target shows. */
  predicate SameTarget(v: Vpc, w: Vpc) {
    ShortId(v.id) == ShortId(w.id) && ShortId(v.account) == ShortId(w.account)
  }

  lemma NamesMean(vpcs: Vpcs, regions: map<string, nat>, v: Uuid, w: Uuid)
    requires VpcsOk(vpcs, regions) && v in vpcs && w in vpcs
    ensures vpcs[v].vrfName == vpcs[w].vrfName <==> SameVrfName(vpcs[v], vpcs[w])
    ensures vpcs[v].exportRT == vpcs[w].exportRT <==> SameTarget(vpcs[v], vpcs[w])
  {
    assert VpcWf(vpcs[v], v, regions) && VpcWf(vpcs[w], w, regions);
    VrfNameParts(v[..8], w[..8]);
    TargetParts(vpcs[v].account[..8], v[..8], vpcs[w].account[..8], w[..8]);
  }

  /** `BuildType5Routes` rebuilds exactly the RD and the export target stored with the VPC. */
  lemma AdvertMatchesStored(v: Vpc, id: Uuid, regions: map<string, nat>, cidr: Prefix)
    requires VpcWf(v, id, regions)
    ensures var r := AdvertOf(v, cidr);
            r.rd == v.rd && r.routeTarget == v.exportRT && r.vni == v.vni && r.prefix == cidr
            && r.prefixLen == cidr.bits && r.ethernetTag == 0 && r.gateway == Address(IPv4, 0)
  {
  }

  // ---- visibility ----

  /** A route of `owner` that BGP advertises. */
  predicate Advertised(s: State, owner: Uuid, r: Bgp.Type5Route) {
    r in At(s.bgp.routes, owner)
  }

  /** The viewer's VRF imports the route's target. */
  predicate Sees(s: State, viewer: Uuid, r: Bgp.Type5Route) {
    viewer in s.vpcs && r.routeTarget in At(s.bgp.imports, s.vpcs[viewer].vrfName)
  }

  predicate Ends(p: Peering, a: Uuid, b: Uuid) {
    (p.requester == a && p.accepter == b) || (p.requester == b && p.accepter == a)
  }

  predicate SharePeering(peerings: Peerings, a: Uuid, b: Uuid) {
    exists id | id in peerings :: Provisioned(peerings[id]) && Ends(peerings[id], a, b)
  }

  /** Provisioned peering `p` joins VPCs that go by the names of `viewer` and `owner`, in some order. */
  predicate JoinsNamesakes(p: Peering, vpcs: Vpcs, viewer: Vpc, owner: Vpc) {
    && Provisioned(p) && p.requester in vpcs && p.accepter in vpcs
    && ((SameVrfName(vpcs[p.requester], viewer) && SameTarget(vpcs[p.accepter], owner))
        || (SameVrfName(vpcs[p.accepter], viewer) && SameTarget(vpcs[p.requester], owner)))
  }

  lemma ImportedMeans(imports: map<string, seq<string>>, peerings: Peerings, vpcs: Vpcs, vrf: string, rt: string)
    requires ImportsAgree(imports, peerings, vpcs)
    ensures rt in At(imports, vrf)
            <==> exists id, side: bool :: id in peerings && ImportsBy(peerings[id], side, vpcs, vrf, rt)
  {
    var pairs := Importers(peerings, vpcs, vrf, rt);
    assert multiset(At(imports, vrf))[rt] == |pairs|;
    if pairs != {} {
      var x :| x in pairs;
      assert x.0 in peerings && ImportsBy(peerings[x.0], x.1, vpcs, vrf, rt);
      assert rt in multiset(At(imports, vrf));
    } else {
      assert rt !in multiset(At(imports, vrf));
      forall id, side: bool | id in peerings ensures !ImportsBy(peerings[id], side, vpcs, vrf, rt) {
        assert (id, side) !in pairs;
      }
    }
  }

  lemma SideMeans(s: State, id: Uuid, viewer: Uuid, owner: Uuid)
    requires VpcsOk(s.vpcs, s.regions) && id in s.peerings && viewer in s.vpcs && owner in s.vpcs
    ensures JoinsNamesakes(s.peerings[id], s.vpcs, s.vpcs[viewer], s.vpcs[owner])
            <==> exists side: bool ::
                   ImportsBy(s.peerings[id], side, s.vpcs, s.vpcs[viewer].vrfName, s.vpcs[owner].exportRT)
  {
    var p := s.peerings[id];
    if p.requester in s.vpcs && p.accepter in s.vpcs {
      NamesMean(s.vpcs, s.regions, p.requester, viewer);
      NamesMean(s.vpcs, s.regions, p.accepter, owner);
      NamesMean(s.vpcs, s.regions, p.accepter, viewer);
      NamesMean(s.vpcs, s.regions, p.requester, owner);
      var vrf, rt := s.vpcs[viewer].vrfName, s.vpcs[owner].exportRT;
      assert JoinsNamesakes(p, s.vpcs, s.vpcs[viewer], s.vpcs[owner])
             <==> ImportsBy(p, true, s.vpcs, vrf, rt) || ImportsBy(p, false, s.vpcs, vrf, rt);
    }
  }

  /** What a VRF imports, exactly, with nothing assumed about the truncations. */
  lemma ImportsExactly(s: State, viewer: Uuid, owner: Uuid)
    requires Inv(s) && viewer in s.vpcs && owner in s.vpcs
    ensures s.vpcs[owner].exportRT in At(s.bgp.imports, s.vpcs[viewer].vrfName)
            <==> exists id | id in s.peerings :: JoinsNamesakes(s.peerings[id], s.vpcs, s.vpcs[viewer], s.vpcs[owner])
  {
    ImportedMeans(s.bgp.imports, s.peerings, s.vpcs, s.vpcs[viewer].vrfName, s.vpcs[owner].exportRT);
    forall id | id in s.peerings
      ensures JoinsNamesakes(s.peerings[id], s.vpcs, s.vpcs[viewer], s.vpcs[owner])
              <==> exists side: bool ::
                ImportsBy(s.peerings[id], side, s.vpcs, s.vpcs[viewer].vrfName, s.vpcs[owner].exportRT)
    {
      SideMeans(s, id, viewer, owner);
    }
  }

  lemma AdvertisedMeans(s: State, owner: Uuid, r: Bgp.Type5Route)
    requires Inv(s) && Advertised(s, owner, r)
    ensures owner in s.vpcs && r.prefix in s.vpcs[owner].cidrs && r.routeTarget == s.vpcs[owner].exportRT
            && r.rd == s.vpcs[owner].rd
  {
    assert VpcWf(s.vpcs[owner], owner, s.regions);
    AdvertMatchesStored(s.vpcs[owner], owner, s.regions, r.prefix);
  }

  /**
   * A VPC sees an advertised route exactly when a provisioned peering joins VPCs going by the names
   * of the viewer and of the route's owner.
   */
  lemma SeesExactly(s: State, viewer: Uuid, owner: Uuid, r: Bgp.Type5Route)
    requires Reaches(s) && viewer in s.vpcs && Advertised(s, owner, r)
    ensures Sees(s, viewer, r) <==>
              owner in s.vpcs
              && exists id | id in s.peerings :: JoinsNamesakes(s.peerings[id], s.vpcs, s.vpcs[viewer], s.vpcs[owner])
  {
    ReachableInv(s);
    AdvertisedMeans(s, owner, r);
    ImportsExactly(s, viewer, owner);
  }

  /** The truncated IDs of the stored VPCs tell them apart. */
  predicate ShortIdsDistinct(vpcs: Vpcs) {
    forall a, b | a in vpcs && b in vpcs && a != b :: ShortId(a) != ShortId(b)
  }

  lemma NamesakesAreThemselves(s: State, id: Uuid, viewer: Uuid, owner: Uuid)
    requires InvVpcs(s) && ShortIdsDistinct(s.vpcs) && id in s.peerings && viewer in s.vpcs && owner in s.vpcs
    requires s.peerings[id].requester in s.vpcs && s.peerings[id].accepter in s.vpcs
    ensures JoinsNamesakes(s.peerings[id], s.vpcs, s.vpcs[viewer], s.vpcs[owner])
            <==> Provisioned(s.peerings[id]) && Ends(s.peerings[id], viewer, owner)
  {
    var p := s.peerings[id];
    forall v | v in {viewer, owner, p.requester, p.accepter} ensures s.vpcs[v].id == v {
      assert VpcWf(s.vpcs[v], v, s.regions);
    }
  }

  /**
   * Isolation: where truncated IDs are distinct, a VPC sees an advertised route exactly when it
   * shares a provisioned peering (deleted ones included) with the route's owner.
   */
  lemma Isolation(s: State, viewer: Uuid, owner: Uuid, r: Bgp.Type5Route)
    requires Reaches(s) && ShortIdsDistinct(s.vpcs) && viewer in s.vpcs && Advertised(s, owner, r)
    ensures Sees(s, viewer, r) <==> SharePeering(s.peerings, viewer, owner)
  {
    ReachableInv(s);
    SeesExactly(s, viewer, owner, r);
    AdvertisedMeans(s, owner, r);
    forall id | id in s.peerings
      ensures JoinsNamesakes(s.peerings[id], s.vpcs, s.vpcs[viewer], s.vpcs[owner])
              <==> Provisioned(s.peerings[id]) && Ends(s.peerings[id], viewer, owner)
    {
      assert PeeringWf(s.peerings[id], id, s.vpcs);
      NamesakesAreThemselves(s, id, viewer, owner);
    }
  }

  /** No stored VPC sees an advertised route of a VPC it shares no provisioned peering with. */
  ghost predicate Isolated(s: State) {
    forall viewer, owner, r | viewer in s.vpcs && Advertised(s, owner, r) && Sees(s, viewer, r) ::
      SharePeering(s.peerings, viewer, owner)
  }

  /** A peering between namesakes of two VPCs, one of which has routes injected, leaves them peers. */
  ghost predicate NamesakesArePeers(s: State) {
    forall viewer, owner, id | viewer in s.vpcs && owner in s.vpcs && id in s.peerings
                               && JoinsNamesakes(s.peerings[id], s.vpcs, s.vpcs[viewer], s.vpcs[owner])
                               && Injectors(s.peerings, s.vpcs, owner) != {} ::
      SharePeering(s.peerings, viewer, owner)
  }

  lemma AdvertCount(s: State, v: Uuid, cidr: Prefix)
    requires Inv(s) && v in s.vpcs && cidr in s.vpcs[v].cidrs
    ensures multiset(At(s.bgp.routes, v))[AdvertOf(s.vpcs[v], cidr)] == |Injectors(s.peerings, s.vpcs, v)|
    ensures AdvertOf(s.vpcs[v], cidr).routeTarget == s.vpcs[v].exportRT
  {
    assert VpcWf(s.vpcs[v], v, s.regions);
    AdvertMatchesStored(s.vpcs[v], v, s.regions, cidr);
  }

  lemma InjectedMeansAdvertised(s: State, owner: Uuid)
    requires Inv(s) && owner in s.vpcs
    ensures Injectors(s.peerings, s.vpcs, owner) != {} <==> exists r :: Advertised(s, owner, r)
  {
    assert VpcWf(s.vpcs[owner], owner, s.regions);
    if Injectors(s.peerings, s.vpcs, owner) != {} {
      var r := AdvertOf(s.vpcs[owner], s.vpcs[owner].cidrs[0]);
      AdvertCount(s, owner, s.vpcs[owner].cidrs[0]);
      assert r in multiset(At(s.bgp.routes, owner));
      assert Advertised(s, owner, r);
    }
    if r :| Advertised(s, owner, r) {
      assert r.prefix in s.vpcs[owner].cidrs && r == AdvertOf(s.vpcs[owner], r.prefix);
      AdvertCount(s, owner, r.prefix);
      assert r in multiset(At(s.bgp.routes, owner));
    }
  }

  /** The exact condition for a whole reachable state, with nothing assumed about the truncations. */
  lemma IsolatedExactly(s: State)
    requires Reaches(s)
    ensures Isolated(s) <==> NamesakesArePeers(s)
  {
    hide Inv, Reaches, Advertised, Sees, SharePeering, JoinsNamesakes, Injectors;
    ReachableInv(s);
    if Isolated(s) {
      forall viewer, owner, id | viewer in s.vpcs && owner in s.vpcs && id in s.peerings
                                 && JoinsNamesakes(s.peerings[id], s.vpcs, s.vpcs[viewer], s.vpcs[owner])
                                 && Injectors(s.peerings, s.vpcs, owner) != {}
        ensures SharePeering(s.peerings, viewer, owner)
      {
        InjectedMeansAdvertised(s, owner);
        var r :| Advertised(s, owner, r);
        SeesExactly(s, viewer, owner, r);
      }
    }
    if NamesakesArePeers(s) {
      forall viewer, owner, r | viewer in s.vpcs && Advertised(s, owner, r) && Sees(s, viewer, r)
        ensures SharePeering(s.peerings, viewer, owner)
      {
        SeesExactly(s, viewer, owner, r);
        InjectedMeansAdvertised(s, owner);
      }
    }
  }

  // ---- reachability ----

  lemma ImportsPeer(s: State, id: Uuid)
    requires Inv(s) && id in s.peerings && Provisioned(s.peerings[id])
    ensures var p := s.peerings[id];
            && p.requester in s.vpcs && p.accepter in s.vpcs
            && s.vpcs[p.accepter].exportRT in At(s.bgp.imports, s.vpcs[p.requester].vrfName)
            && s.vpcs[p.requester].exportRT in At(s.bgp.imports, s.vpcs[p.accepter].vrfName)
  {
    var p := s.peerings[id];
    assert PeeringWf(p, id, s.vpcs);
    var r, a := s.vpcs[p.requester], s.vpcs[p.accepter];
    assert ImportsBy(p, true, s.vpcs, r.vrfName, a.exportRT) && ImportsBy(p, false, s.vpcs, a.vrfName, r.exportRT);
    ImportedMeans(s.bgp.imports, s.peerings, s.vpcs, r.vrfName, a.exportRT);
    ImportedMeans(s.bgp.imports, s.peerings, s.vpcs, a.vrfName, r.exportRT);
  }

  /** The peerings whose provisioning injected the VPC's routes because it is their accepter. */
  ghost function AccepterOf(peerings: Peerings, vpcs: Vpcs, v: Uuid): set<Uuid> {
    set id | id in peerings && InjectedBy(peerings[id], true, vpcs, v)
  }

  /** Those that did so because it is their requester and the direction asked for its routes. */
  ghost function SendingRequesterOf(peerings: Peerings, vpcs: Vpcs, v: Uuid): set<Uuid> {
    set id | id in peerings && InjectedBy(peerings[id], false, vpcs, v)
  }

  /**
   * Each block of a VPC is advertised exactly as often as there are provisioned peerings with the VPC
   * as accepter, plus those with it as requester whose route count exceeds the accepter's blocks.
   */
  lemma AdvertsAreTheSum(s: State, v: Uuid, cidr: Prefix)
    requires Reaches(s) && v in s.vpcs && cidr in s.vpcs[v].cidrs
    ensures multiset(At(s.bgp.routes, v))[AdvertOf(s.vpcs[v], cidr)]
         == |AccepterOf(s.peerings, s.vpcs, v)| + |SendingRequesterOf(s.peerings, s.vpcs, v)|
  {
    hide Inv, Reaches;
    ReachableInv(s);
    AdvertCount(s, v, cidr);
    SplitBySide(Injectors(s.peerings, s.vpcs, v), AccepterOf(s.peerings, s.vpcs, v),
                SendingRequesterOf(s.peerings, s.vpcs, v));
  }

  /**
   * Reachability: the requester of every provisioned peering sees every block of the accepter,
   * advertised under the accepter's own RD, VNI and target.
   */
  lemma Reachability(s: State, id: Uuid, cidr: Prefix)
    requires Reaches(s) && id in s.peerings && Provisioned(s.peerings[id])
    requires s.peerings[id].accepter in s.vpcs ==> cidr in s.vpcs[s.peerings[id].accepter].cidrs
    ensures var p := s.peerings[id];
            && p.accepter in s.vpcs
            && var r := AdvertOf(s.vpcs[p.accepter], cidr);
               && Advertised(s, p.accepter, r) && Sees(s, p.requester, r)
               && r.prefix == cidr && r.rd == s.vpcs[p.accepter].rd && r.vni == s.vpcs[p.accepter].vni
  {
    hide Inv, Reaches;
    ReachableInv(s);
    var p := s.peerings[id];
    ImportsPeer(s, id);
    AdvertCount(s, p.accepter, cidr);
    assert (id, true) in Injectors(s.peerings, s.vpcs, p.accepter);
    var r := AdvertOf(s.vpcs[p.accepter], cidr);
    assert r in multiset(At(s.bgp.routes, p.accepter));
    AdvertisedMeans(s, p.accepter, r);
  }

  /**
   * The other half: the accepter imports the requester's target as well, so it sees a block of the
   * requester exactly when some provisioning has injected the requester's routes, its own for the
   * directions that send them or another peering's.
   */
  lemma AccepterReachability(s: State, id: Uuid, cidr: Prefix)
    requires Reaches(s) && id in s.peerings && Provisioned(s.peerings[id])
    requires s.peerings[id].requester in s.vpcs ==> cidr in s.vpcs[s.peerings[id].requester].cidrs
    ensures var p := s.peerings[id];
            && p.requester in s.vpcs
            && var r := AdvertOf(s.vpcs[p.requester], cidr);
               && Sees(s, p.accepter, r)
               && (Advertised(s, p.requester, r) <==>
                     AccepterOf(s.peerings, s.vpcs, p.requester) != {}
                     || SendingRequesterOf(s.peerings, s.vpcs, p.requester) != {})
  {
    hide Inv, Reaches, AccepterOf, SendingRequesterOf;
    ReachableInv(s);
    var v := s.peerings[id].requester;
    ImportsPeer(s, id);
    AdvertCount(s, v, cidr);
    AdvertsAreTheSum(s, v, cidr);
    assert AdvertOf(s.vpcs[v], cidr) in multiset(At(s.bgp.routes, v)) <==> Advertised(s, v, AdvertOf(s.vpcs[v], cidr));
  }

  /** One VRF's imports as a multiset: the sum of the other side's target over the provisioned peerings. */
  lemma ImportsAreTheSum(s: State, vrf: string, rt: string)
    requires Reaches(s)
    ensures multiset(At(s.bgp.imports, vrf))[rt]
         == |Importing(s.peerings, true, s.vpcs, vrf, rt)| + |Importing(s.peerings, false, s.vpcs, vrf, rt)|
  {
    ReachableInv(s);
    assert multiset(At(s.bgp.imports, vrf))[rt] == |Importers(s.peerings, s.vpcs, vrf, rt)|;
    SplitBySide(Importers(s.peerings, s.vpcs, vrf, rt),
                Importing(s.peerings, true, s.vpcs, vrf, rt), Importing(s.peerings, false, s.vpcs, vrf, rt));
  }

  /** The peerings that make `vrf` import `rt` on the given side. */
  ghost function Importing(peerings: Peerings, requesterSide: bool, vpcs: Vpcs, vrf: string, rt: string): set<Uuid> {
    set id | id in peerings && ImportsBy(peerings[id], requesterSide, vpcs, vrf, rt)
  }

  ghost function OnSide(side: bool, ids: set<Uuid>): set<(Uuid, bool)> {
    set id | id in ids :: (id, side)
  }

  lemma {:induction false} OnSideSize(side: bool, ids: set<Uuid>)
    ensures |OnSide(side, ids)| == |ids|
  {
    if ids == {} {
      assert OnSide(side, ids) == {};
    } else {
      var id :| id in ids;
      OnSideSize(side, ids - {id});
      assert OnSide(side, ids) == OnSide(side, ids - {id}) + {(id, side)};
    }
  }

  lemma SplitBySide(pairs: set<(Uuid, bool)>, r: set<Uuid>, a: set<Uuid>)
    requires forall x: (Uuid, bool) :: x in pairs <==> if x.1 then x.0 in r else x.0 in a
    ensures |pairs| == |r| + |a|
  {
    forall x: (Uuid, bool) ensures x in pairs <==> x in OnSide(true, r) + OnSide(false, a) {
      assert x == (x.0, x.1);
    }
    assert pairs == OnSide(true, r) + OnSide(false, a);
    SidesAdd(r, a);
  }

  lemma SidesAdd(r: set<Uuid>, a: set<Uuid>)
    ensures |OnSide(true, r) + OnSide(false, a)| == |r| + |a|
  {
    OnSideSize(true, r);
    OnSideSize(false, a);
    assert OnSide(true, r) !! OnSide(false, a);
  }
}
