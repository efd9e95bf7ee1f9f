/** What holds in every reachable state of the control plane. */
module Invariant {
  import opened Common
  import opened Prefixes
  import opened Model
  import Cidr
  import Vni
  import Bgp
  import opened Lifecycle

  type Vpcs = map<Uuid, Vpc>
  type Peerings = map<Uuid, Peering>

  predicate LiveVpc(v: Vpc) {
    v.state != VpcDeleted
  }

  // ---- VPCs, their VNIs and their addresses ----

  /** Names derive from the ID, the blocks passed validation, the VNI belongs to the region. */
  ghost predicate VpcWf(v: Vpc, id: Uuid, regions: map<string, nat>) {
    && v.id == id
    && v.vrfName == "vpc-" + id[..8]
    && v.rd == v.region + ":" + id[..8]
    && v.exportRT == "target:" + v.account[..8] + ":" + id[..8]
    && 1 <= |v.cidrs| <= 5 && Cidr.AllValid(v.cidrs) && Cidr.PairwiseApart(v.cidrs)
    && (forall i | 0 <= i < |v.cidrs| :: Cidr.Acceptable(v.cidrs[i]))
    && v.region in regions && Vni.LegalInRegion(v.vni, regions[v.region])
  }

  ghost predicate VpcsOk(vpcs: Vpcs, regions: map<string, nat>) {
    forall id | id in vpcs :: VpcWf(vpcs[id], id, regions)
  }

  predicate RegionsOk(regions: map<string, nat>) {
    forall n | n in regions :: regions[n] < 16
  }

  ghost function LiveVnis(vpcs: Vpcs): set<nat> {
    set id | id in vpcs && LiveVpc(vpcs[id]) :: vpcs[id].vni
  }

  /** The allocator's set is exactly the VNIs of the live VPCs, and no two of them share one. */
  ghost predicate VnisAgree(vpcs: Vpcs, inUse: set<nat>) {
    && inUse == LiveVnis(vpcs)
    && forall a, b | a in vpcs && b in vpcs && a != b && LiveVpc(vpcs[a]) && LiveVpc(vpcs[b]) ::
         vpcs[a].vni != vpcs[b].vni
  }

  /** Live VPCs of one account overlap nowhere, and their names are unique per region. */
  ghost predicate SpacesApart(vpcs: Vpcs) {
    forall a, b | a in vpcs && b in vpcs && a != b && LiveVpc(vpcs[a]) && LiveVpc(vpcs[b])
                  && vpcs[a].account == vpcs[b].account ::
      && !Cidr.CIDRsOverlap(vpcs[a].cidrs, vpcs[b].cidrs)
      && !(vpcs[a].region == vpcs[b].region && vpcs[a].name == vpcs[b].name)
  }

  ghost predicate InvVpcs(s: State) {
    RegionsOk(s.regions) && VpcsOk(s.vpcs, s.regions) && VnisAgree(s.vpcs, s.inUse) && SpacesApart(s.vpcs)
  }

  // ---- the peering graph ----

  /** The states a run can reach, each with whether the peering has been provisioned. */
  predicate StateOk(p: Peering) {
    match p.state
    case PendingAcceptance => p.provisionedAt == None
    case Provisioning => p.provisionedAt == None
    case Active => p.provisionedAt != None
    case Rejected => p.provisionedAt == None
    case Expired => p.provisionedAt == None
    case Deleted => true
    case Degraded => false
    case Deleting => false
    case Failed => false
  }

  /** A stored peering joins two different stored VPCs without common addresses; a live one, live VPCs. */
  ghost predicate PeeringWf(p: Peering, id: Uuid, vpcs: Vpcs) {
    && p.id == id
    && p.requester != p.accepter && p.requester in vpcs && p.accepter in vpcs
    && p.account == vpcs[p.requester].account
    && !Cidr.CIDRsOverlap(vpcs[p.requester].cidrs, vpcs[p.accepter].cidrs)
    && StateOk(p)
    && (p.Live() ==> LiveVpc(vpcs[p.requester]) && LiveVpc(vpcs[p.accepter]))
  }

  ghost predicate PeeringsOk(peerings: Peerings, vpcs: Vpcs) {
    forall id | id in peerings :: PeeringWf(peerings[id], id, vpcs)
  }

  predicate SamePair(p: Peering, q: Peering) {
    (p.requester == q.requester && p.accepter == q.accepter) || (p.requester == q.accepter && p.accepter == q.requester)
  }

  /** At most one live peering per unordered pair of VPCs. */
  predicate PairsUnique(peerings: Peerings) {
    forall i, j | i in peerings && j in peerings && i != j && peerings[i].Live() && peerings[j].Live() ::
      !SamePair(peerings[i], peerings[j])
  }

  ghost predicate QuotaOk(peerings: Peerings) {
    forall v: Uuid :: CountByVpc(peerings, v) <= MAX_PEERINGS
  }

  ghost predicate InvGraph(s: State) {
    PeeringsOk(s.peerings, s.vpcs) && PairsUnique(s.peerings) && QuotaOk(s.peerings)
  }

  // ---- BGP state against the peering store ----

  predicate Provisioned(p: Peering) {
    p.provisionedAt != None
  }

  /** The provisioned peering `p` makes VRF `vrf` import target `rt`, on its requester side or its accepter side. */
  predicate ImportsBy(p: Peering, requesterSide: bool, vpcs: Vpcs, vrf: string, rt: string) {
    && Provisioned(p) && p.requester in vpcs && p.accepter in vpcs
    && if requesterSide
       then vpcs[p.requester].vrfName == vrf && vpcs[p.accepter].exportRT == rt
       else vpcs[p.accepter].vrfName == vrf && vpcs[p.requester].exportRT == rt
  }

  ghost function Importers(peerings: Peerings, vpcs: Vpcs, vrf: string, rt: string): set<(Uuid, bool)> {
    set id, side: bool | id in peerings && ImportsBy(peerings[id], side, vpcs, vrf, rt) :: (id, side)
  }

  /** Each VRF imports a target as often as provisioned peerings, deleted ones included, call for it. */
  ghost predicate ImportsAgree(imports: map<string, seq<string>>, peerings: Peerings, vpcs: Vpcs) {
    forall vrf: string, rt: string ::
      multiset(At(imports, vrf))[rt] == |Importers(peerings, vpcs, vrf, rt)|
  }

  function AdvertOf(v: Vpc, cidr: Prefix): Bgp.Type5Route {
    Bgp.Type5For(v.id, v.region, v.account, v.vni, cidr)
  }

  /** Every advertised route is one of its VPC's blocks in the form provisioning builds. */
  ghost predicate AdvertsSound(routes: map<Uuid, seq<Bgp.Type5Route>>, vpcs: Vpcs) {
    forall id | id in routes ::
      id in vpcs && forall r | r in routes[id] :: r.prefix in vpcs[id].cidrs && r == AdvertOf(vpcs[id], r.prefix)
  }

  /**
   * Provisioning `p` injected the routes of VPC `v`: those of the accepter always, those of the
   * requester if the direction asked for them, which the route count records.
   */
  predicate InjectedBy(p: Peering, accepterSide: bool, vpcs: Vpcs, v: Uuid) {
    && Provisioned(p) && p.requester in vpcs && p.accepter in vpcs
    && if accepterSide then p.accepter == v else p.requester == v && p.routeCount > |vpcs[p.accepter].cidrs|
  }

  ghost function Injectors(peerings: Peerings, vpcs: Vpcs, v: Uuid): set<(Uuid, bool)> {
    set id, side: bool | id in peerings && InjectedBy(peerings[id], side, vpcs, v) :: (id, side)
  }

  /** Each block is advertised as often as provisioned peerings have injected its VPC's routes. */
  ghost predicate AdvertsAgree(routes: map<Uuid, seq<Bgp.Type5Route>>, peerings: Peerings, vpcs: Vpcs) {
    forall v, c | v in vpcs && c in vpcs[v].cidrs ::
      multiset(At(routes, v))[AdvertOf(vpcs[v], c)] == |Injectors(peerings, vpcs, v)|
  }

  ghost predicate InvBgp(s: State) {
    && ImportsAgree(s.bgp.imports, s.peerings, s.vpcs)
    && AdvertsSound(s.bgp.routes, s.vpcs)
    && AdvertsAgree(s.bgp.routes, s.peerings, s.vpcs)
  }

  // ---- events and stored routes ----

  /** One provisioned event exactly for the provisioned peerings; every event is about a stored peering. */
  ghost predicate EventsOk(events: seq<Event>, peerings: Peerings) {
    && (forall i | 0 <= i < |events| :: events[i].peering in peerings)
    && (forall id | id in peerings :: Provisioned(peerings[id]) <==> Event(id, PeeringProvisioned) in events)
    && (forall i, j | 0 <= i < j < |events| :: events[i].kind == PeeringProvisioned ==> events[i] != events[j])
  }

  /** One entry per peering and prefix; direct entries only for provisioned peerings. */
  ghost predicate RoutesOk(routes: seq<RouteEntry>, peerings: Peerings) {
    && (forall i, j | 0 <= i < j < |routes| :: !SameRoute(routes[i], routes[j]))
    && (forall i | 0 <= i < |routes| :: RouteOk(routes[i], peerings))
  }

  predicate RouteOk(r: RouteEntry, peerings: Peerings) {
    r.peering in peerings && (r.origin == Direct ==> Provisioned(peerings[r.peering]))
  }

  ghost predicate InvLogs(s: State) {
    EventsOk(s.events, s.peerings) && RoutesOk(s.routes, s.peerings)
  }

  ghost predicate Inv(s: State) {
    InvVpcs(s) && InvGraph(s) && InvBgp(s) && InvLogs(s)
  }

  /** At start-up nothing is stored; the regions are registered with IDs 0 to 15. */
  ghost predicate Init(s: State) {
    RegionsOk(s.regions) && s == State(map[], map[], [], [], Bgp.EMPTY_BGP, {}, s.regions)
  }

  lemma InitInv(s: State)
    requires Init(s)
    ensures Inv(s)
  {
    forall vrf: string, rt: string ensures |Importers(s.peerings, s.vpcs, vrf, rt)| == 0 {
      assert Importers(s.peerings, s.vpcs, vrf, rt) == {};
    }
    forall v: Uuid ensures CountByVpc(s.peerings, v) == 0 {
      assert LiveAt(s.peerings, v) == {};
    }
  }
}
