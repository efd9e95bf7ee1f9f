/** Every handler call and provisioning keeps the invariant. */
module Preservation {
  import opened Common
  import opened Prefixes
  import opened Model
  import Cidr
  import Vni
  import opened Lifecycle
  import opened Invariant

  lemma SubsetSize<T>(a: set<T>, b: set<T>)
    requires a <= b
    ensures |a| <= |b|
  {
    assert b == a + (b - a);
  }

  // ---- VPC create ----

  lemma NewVpcWf(s: State, account: Uuid, region: string, name: string, request: seq<Prefix>, shard: nat, id: Uuid,
                 now: int)
    requires RegionsOk(s.regions) && shard < 1024
    requires Cidr.ValidatedBlocks(request).Ok? && Vni.AllocateResult(s.inUse, s.regions, region, shard).Ok?
    ensures var vni := Vni.AllocateResult(s.inUse, s.regions, region, shard).value;
            vni !in s.inUse && VpcWf(NewVpc(account, region, name, Cidr.ValidatedBlocks(request).value, vni, id, now),
                                     id, s.regions)
  {
    Cidr.ValidatedBlocksMeaning(request);
    Vni.AllocateGrantsFreeLegal(s.inUse, s.regions, region, shard);
  }

  lemma InsertVpcSpaces(vpcs: Vpcs, v: Vpc)
    requires SpacesApart(vpcs) && v.id !in vpcs
    requires !NameTaken(vpcs, v.account, v.region, v.name) && !AddressesTaken(vpcs, v.account, v.cidrs)
    ensures SpacesApart(vpcs[v.id := v])
  {
    forall a | a in vpcs && LiveVpc(vpcs[a]) && vpcs[a].account == v.account
      ensures !Cidr.CIDRsOverlap(vpcs[a].cidrs, v.cidrs) && !Cidr.CIDRsOverlap(v.cidrs, vpcs[a].cidrs)
      ensures !(vpcs[a].region == v.region && vpcs[a].name == v.name)
    {
      assert !HasName(vpcs[a], v.account, v.region, v.name);
      assert !UsesAddresses(vpcs[a], v.account, v.cidrs);
      OverlapSymmetric(vpcs[a].cidrs, v.cidrs);
    }
  }

  lemma OverlapSymmetric(a: seq<Prefix>, b: seq<Prefix>)
    ensures Cidr.CIDRsOverlap(a, b) <==> Cidr.CIDRsOverlap(b, a)
  {
    if Cidr.CIDRsOverlap(a, b) {
      var i, j :| 0 <= i < |a| && 0 <= j < |b| && a[i].Overlaps(b[j]);
      PrefixOverlapSymmetric(a[i], b[j]);
    }
    if Cidr.CIDRsOverlap(b, a) {
      var i, j :| 0 <= i < |b| && 0 <= j < |a| && b[i].Overlaps(a[j]);
      PrefixOverlapSymmetric(b[i], a[j]);
    }
  }

  lemma PrefixOverlapSymmetric(p: Prefix, q: Prefix)
    ensures p.Overlaps(q) ==> q.Overlaps(p)
  {
  }

  lemma InsertVpcVnis(vpcs: Vpcs, inUse: set<nat>, v: Vpc)
    requires VnisAgree(vpcs, inUse) && v.id !in vpcs && LiveVpc(v) && v.vni !in inUse
    ensures VnisAgree(vpcs[v.id := v], inUse + {v.vni})
  {
    var more := vpcs[v.id := v];
    forall a | a in vpcs && LiveVpc(vpcs[a]) ensures vpcs[a].vni in inUse {
    }
    forall n ensures n in LiveVnis(more) <==> n in inUse + {v.vni} {
      if n in inUse {
        var a :| a in vpcs && LiveVpc(vpcs[a]) && vpcs[a].vni == n;
        assert a in more && more[a].vni == n;
      }
      if n == v.vni { assert v.id in more && more[v.id].vni == n; }
    }
  }

  /** Peerings and BGP only look at VPCs that were already there. */
  ghost predicate VpcsExtend(vpcs: Vpcs, more: Vpcs) {
    forall id | id in vpcs :: id in more && more[id] == vpcs[id]
  }

  lemma ExtendVpcsKeepsRest(s: State, t: State)
    requires InvGraph(s) && InvBgp(s) && InvLogs(s) && VpcsExtend(s.vpcs, t.vpcs)
    requires t.peerings == s.peerings && t.bgp == s.bgp && t.events == s.events && t.routes == s.routes
    ensures InvGraph(t) && InvBgp(t) && InvLogs(t)
  {
    forall id | id in t.peerings ensures PeeringWf(t.peerings[id], id, t.vpcs) {
      assert PeeringWf(s.peerings[id], id, s.vpcs);
    }
    BgpFrame(s, t);
  }

  /** VPC records are still there; only their states may differ. */
  ghost predicate VpcsKept(vpcs: Vpcs, more: Vpcs) {
    forall id | id in vpcs :: id in more && more[id] == vpcs[id].(state := more[id].state)
  }

  /** Peerings still have their ends and what was provisioned; new ones are not provisioned. */
  ghost predicate PeeringsKept(peerings: Peerings, more: Peerings) {
    && (forall id | id in peerings :: id in more && SameEnds(peerings[id], more[id]))
    && (forall id | id in more && id !in peerings :: !Provisioned(more[id]))
  }

  lemma SameImporters(s: State, t: State, vrf: string, rt: string)
    requires PeeringsOk(s.peerings, s.vpcs) && VpcsKept(s.vpcs, t.vpcs) && PeeringsKept(s.peerings, t.peerings)
    ensures Importers(t.peerings, t.vpcs, vrf, rt) == Importers(s.peerings, s.vpcs, vrf, rt)
  {
    forall id, side: bool | id in s.peerings
      ensures ImportsBy(t.peerings[id], side, t.vpcs, vrf, rt) <==> ImportsBy(s.peerings[id], side, s.vpcs, vrf, rt)
    {
      assert PeeringWf(s.peerings[id], id, s.vpcs);
    }
  }

  lemma SameInjectors(s: State, t: State, v: Uuid)
    requires PeeringsOk(s.peerings, s.vpcs) && VpcsKept(s.vpcs, t.vpcs) && PeeringsKept(s.peerings, t.peerings)
    ensures Injectors(t.peerings, t.vpcs, v) == Injectors(s.peerings, s.vpcs, v)
    ensures v !in s.vpcs ==> Injectors(s.peerings, s.vpcs, v) == {}
  {
    forall id, side: bool | id in s.peerings
      ensures InjectedBy(t.peerings[id], side, t.vpcs, v) <==> InjectedBy(s.peerings[id], side, s.vpcs, v)
    {
      assert PeeringWf(s.peerings[id], id, s.vpcs);
    }
  }

  lemma ImportsFrame(s: State, t: State)
    requires PeeringsOk(s.peerings, s.vpcs) && VpcsKept(s.vpcs, t.vpcs) && PeeringsKept(s.peerings, t.peerings)
    requires ImportsAgree(s.bgp.imports, s.peerings, s.vpcs) && t.bgp == s.bgp
    ensures ImportsAgree(t.bgp.imports, t.peerings, t.vpcs)
  {
    hide Importers, PeeringsOk, VpcsKept, PeeringsKept;
    forall vrf: string, rt: string
      ensures multiset(At(t.bgp.imports, vrf))[rt] == |Importers(t.peerings, t.vpcs, vrf, rt)|
    {
      assert multiset(At(s.bgp.imports, vrf))[rt] == |Importers(s.peerings, s.vpcs, vrf, rt)|;
      SameImporters(s, t, vrf, rt);
    }
  }

  lemma AdvertsFrame(s: State, t: State)
    requires PeeringsOk(s.peerings, s.vpcs) && VpcsKept(s.vpcs, t.vpcs) && PeeringsKept(s.peerings, t.peerings)
    requires AdvertsSound(s.bgp.routes, s.vpcs) && AdvertsAgree(s.bgp.routes, s.peerings, s.vpcs) && t.bgp == s.bgp
    ensures AdvertsAgree(t.bgp.routes, t.peerings, t.vpcs)
  {
    hide Injectors, PeeringsOk, PeeringsKept;
    forall v, c | v in t.vpcs && c in t.vpcs[v].cidrs
      ensures multiset(At(t.bgp.routes, v))[AdvertOf(t.vpcs[v], c)] == |Injectors(t.peerings, t.vpcs, v)|
    {
      SameInjectors(s, t, v);
      if v in s.vpcs {
        assert multiset(At(s.bgp.routes, v))[AdvertOf(s.vpcs[v], c)] == |Injectors(s.peerings, s.vpcs, v)|;
      }
    }
  }

  /** BGP agrees as before with VPCs and peerings that changed only where it does not look. */
  lemma BgpFrame(s: State, t: State)
    requires InvGraph(s) && InvBgp(s) && t.bgp == s.bgp && VpcsKept(s.vpcs, t.vpcs)
            && PeeringsKept(s.peerings, t.peerings)
    ensures InvBgp(t)
  {
    hide PeeringsOk, PeeringsKept, ImportsAgree, AdvertsAgree;
    ImportsFrame(s, t);
    AdvertsFrame(s, t);
  }

  predicate SameEnds(p: Peering, q: Peering) {
    && q.requester == p.requester && q.accepter == p.accepter && q.routeCount == p.routeCount
    && (Provisioned(q) <==> Provisioned(p))
  }

  lemma CreateVpcKeeps(s: State, caller: Option<Uuid>, region: string, name: string, cidrs: Option<seq<Prefix>>,
                       shard: nat, id: Uuid, now: int)
    requires Inv(s) && shard < 1024 && id !in s.vpcs
    ensures Inv(CreateVpc(s, caller, region, name, cidrs, shard, id, now).0)
  {
    hide Cidr.ValidatedBlocks, Vni.AllocateResult, Cidr.CIDRsOverlap, InvGraph, InvBgp, InvLogs;
    var (t, r) := CreateVpc(s, caller, region, name, cidrs, shard, id, now);
    if r.Ok? {
      var v := r.value;
      NewVpcWf(s, caller.value, region, name, cidrs.value, shard, id, now);
      InsertVpcVnis(s.vpcs, s.inUse, v);
      InsertVpcSpaces(s.vpcs, v);
      ExtendVpcsKeepsRest(s, t);
    }
  }

  // ---- VPC delete ----

  lemma RetireVpcVnis(vpcs: Vpcs, inUse: set<nat>, id: Uuid)
    requires VnisAgree(vpcs, inUse) && id in vpcs && LiveVpc(vpcs[id])
    ensures VnisAgree(vpcs[id := vpcs[id].(state := VpcDeleted)], inUse - {vpcs[id].vni})
  {
    var less := vpcs[id := vpcs[id].(state := VpcDeleted)];
    forall n ensures n in LiveVnis(less) <==> n in inUse - {vpcs[id].vni} {
      if n in inUse - {vpcs[id].vni} {
        var a :| a in vpcs && LiveVpc(vpcs[a]) && vpcs[a].vni == n;
        assert a in less && LiveVpc(less[a]) && less[a].vni == n;
      }
      if n in LiveVnis(less) {
        var a :| a in less && LiveVpc(less[a]) && less[a].vni == n;
        assert a in vpcs && LiveVpc(vpcs[a]) && vpcs[a].vni == n && a != id;
      }
    }
  }

  lemma RetireVpcVpcs(s: State, t: State, id: Uuid)
    requires InvVpcs(s) && id in s.vpcs && LiveVpc(s.vpcs[id]) && t.regions == s.regions
    requires t.vpcs == s.vpcs[id := s.vpcs[id].(state := VpcDeleted)] && t.inUse == s.inUse - {s.vpcs[id].vni}
    ensures InvVpcs(t)
  {
    RetireVpcVnis(s.vpcs, s.inUse, id);
    forall i | i in t.vpcs ensures VpcWf(t.vpcs[i], i, t.regions) {
      assert VpcWf(s.vpcs[i], i, s.regions);
    }
    forall a, b | a in t.vpcs && b in t.vpcs && a != b && LiveVpc(t.vpcs[a]) && LiveVpc(t.vpcs[b])
                  && t.vpcs[a].account == t.vpcs[b].account
      ensures !Cidr.CIDRsOverlap(t.vpcs[a].cidrs, t.vpcs[b].cidrs)
      ensures !(t.vpcs[a].region == t.vpcs[b].region && t.vpcs[a].name == t.vpcs[b].name)
    {
      assert t.vpcs[a] == s.vpcs[a] && t.vpcs[b] == s.vpcs[b];
    }
  }

  lemma NoLivePeering(peerings: Peerings, vpc: Uuid, id: Uuid)
    requires CountByVpc(peerings, vpc) == 0 && id in peerings && peerings[id].Live()
    ensures !peerings[id].Touches(vpc)
  {
    assert LiveAt(peerings, vpc) == {};
    assert id !in LiveAt(peerings, vpc);
  }

  lemma RetireVpcGraph(s: State, t: State, id: Uuid)
    requires InvGraph(s) && id in s.vpcs && CountByVpc(s.peerings, id) == 0
    requires t.peerings == s.peerings && t.vpcs == s.vpcs[id := s.vpcs[id].(state := VpcDeleted)]
    ensures InvGraph(t)
  {
    forall i | i in t.peerings ensures PeeringWf(t.peerings[i], i, t.vpcs) {
      assert PeeringWf(s.peerings[i], i, s.vpcs);
      if s.peerings[i].Live() { NoLivePeering(s.peerings, id, i); }
    }
  }

  lemma RetireVpcBgp(s: State, t: State, id: Uuid)
    requires InvGraph(s) && InvBgp(s) && id in s.vpcs && t.bgp == s.bgp
    requires t.peerings == s.peerings && t.vpcs == s.vpcs[id := s.vpcs[id].(state := VpcDeleted)]
    ensures InvBgp(t)
  {
    BgpFrame(s, t);
  }

  lemma DeleteVpcKeeps(s: State, caller: Option<Uuid>, id: Uuid)
    requires Inv(s)
    ensures Inv(DeleteVpc(s, caller, id).0)
  {
    hide InvVpcs, InvGraph, InvBgp, CountByVpc;
    var (t, r) := DeleteVpc(s, caller, id);
    if r == None {
      RetireVpcVpcs(s, t, id);
      RetireVpcGraph(s, t, id);
      RetireVpcBgp(s, t, id);
    }
  }

  // ---- a new peering ----

  lemma InsertPeeringCount(peerings: Peerings, p: Peering, v: Uuid)
    requires p.id !in peerings
    ensures CountByVpc(peerings[p.id := p], v)
         == CountByVpc(peerings, v) + (if p.Live() && p.Touches(v) then 1 else 0)
  {
    if p.Live() && p.Touches(v) {
      assert LiveAt(peerings[p.id := p], v) == LiveAt(peerings, v) + {p.id};
    } else {
      assert LiveAt(peerings[p.id := p], v) == LiveAt(peerings, v);
    }
  }

  lemma InsertPeeringQuota(peerings: Peerings, p: Peering)
    requires QuotaOk(peerings) && p.id !in peerings
    requires CountByVpc(peerings, p.requester) < MAX_PEERINGS && CountByVpc(peerings, p.accepter) < MAX_PEERINGS
    ensures QuotaOk(peerings[p.id := p])
  {
    var more := peerings[p.id := p];
    forall v: Uuid ensures CountByVpc(more, v) <= MAX_PEERINGS {
      assert CountByVpc(peerings, v) <= MAX_PEERINGS;
      InsertPeeringCount(peerings, p, v);
    }
  }

  lemma InsertPeeringPairs(peerings: Peerings, p: Peering)
    requires PairsUnique(peerings) && p.id !in peerings && !PairTaken(peerings, p.requester, p.accepter)
    ensures PairsUnique(peerings[p.id := p])
  {
    forall i | i in peerings && peerings[i].Live() ensures !SamePair(peerings[i], p) && !SamePair(p, peerings[i]) {
      assert !Joins(peerings[i], p.requester, p.accepter);
    }
  }

  lemma NewPeeringWf(s: State, caller: Option<Uuid>, requester: Uuid, accepter: Uuid, direction: string,
                     policy: PolicyRequest, id: Uuid, now: int)
    requires CreateRefusal(s, caller, requester, accepter, direction, policy) == None
    ensures var p := NewPeering(s, requester, accepter, direction, ParsePolicy(policy).value, id, now);
            PeeringWf(p, id, s.vpcs) && p.Live() && !Provisioned(p)
  {
  }

  lemma InsertPeeringGraph(s: State, t: State, p: Peering)
    requires InvGraph(s) && t.vpcs == s.vpcs && t.peerings == s.peerings[p.id := p] && p.id !in s.peerings
    requires PeeringWf(p, p.id, s.vpcs) && !PairTaken(s.peerings, p.requester, p.accepter)
    requires CountByVpc(s.peerings, p.requester) < MAX_PEERINGS && CountByVpc(s.peerings, p.accepter) < MAX_PEERINGS
    ensures InvGraph(t)
  {
    InsertPeeringQuota(s.peerings, p);
    InsertPeeringPairs(s.peerings, p);
    forall id | id in t.peerings ensures PeeringWf(t.peerings[id], id, t.vpcs) {
      if id != p.id { assert PeeringWf(s.peerings[id], id, s.vpcs); }
    }
  }

  /** A stored peering changed or a new one added, BGP and provisioning as they were. */
  lemma PutPeeringBgp(s: State, t: State, p: Peering)
    requires InvGraph(s) && InvBgp(s) && t.bgp == s.bgp && t.vpcs == s.vpcs && t.peerings == s.peerings[p.id := p]
    requires if p.id in s.peerings then SameEnds(s.peerings[p.id], p) else !Provisioned(p)
    ensures InvBgp(t)
  {
    BgpFrame(s, t);
  }

  lemma PutPeeringLogs(s: State, t: State, p: Peering, kind: EventKind)
    requires InvLogs(s) && t.routes == s.routes && t.peerings == s.peerings[p.id := p]
    requires t.events == s.events || (t.events == s.events + [Event(p.id, kind)] && kind != PeeringProvisioned)
    requires if p.id in s.peerings then SameEnds(s.peerings[p.id], p) else !Provisioned(p)
    ensures InvLogs(t)
  {
    forall e | e in s.events ensures e.peering in s.peerings {
      var i :| 0 <= i < |s.events| && s.events[i] == e;
    }
    forall i | 0 <= i < |t.routes| ensures RouteOk(t.routes[i], t.peerings) {
      assert RouteOk(s.routes[i], s.peerings);
    }
  }

  lemma AddPeeringKeeps(s: State, t: State, p: Peering)
    requires Inv(s) && t == Log(PutPeering(s, p), p.id, PeeringCreated) && p.id !in s.peerings && !Provisioned(p)
    requires PeeringWf(p, p.id, s.vpcs) && !PairTaken(s.peerings, p.requester, p.accepter)
    requires CountByVpc(s.peerings, p.requester) < MAX_PEERINGS && CountByVpc(s.peerings, p.accepter) < MAX_PEERINGS
    ensures Inv(t)
  {
    InsertPeeringGraph(s, t, p);
    PutPeeringBgp(s, t, p);
    PutPeeringLogs(s, t, p, PeeringCreated);
  }

  lemma CreatePeeringKeeps(s: State, caller: Option<Uuid>, requester: Uuid, accepter: Uuid, direction: string,
                           policy: PolicyRequest, id: Uuid, now: int)
    requires Inv(s) && id !in s.peerings
    ensures Inv(CreatePeering(s, caller, requester, accepter, direction, policy, id, now).0)
  {
    hide Inv;
    var (t, r) := CreatePeering(s, caller, requester, accepter, direction, policy, id, now);
    if r.Ok? {
      var p := r.value;
      NewPeeringWf(s, caller, requester, accepter, direction, policy, id, now);
      AddPeeringKeeps(s, t, p);
    }
  }

  // ---- a stored peering changes state, policy or direction ----

  /** A change that keeps the ends and what was provisioned and brings nothing back to life. */
  predicate TameChange(p: Peering, q: Peering) {
    SameGraph(p, q) && SameEnds(p, q)
  }

  predicate SameGraph(p: Peering, q: Peering) {
    && q.id == p.id && q.account == p.account && q.requester == p.requester && q.accepter == p.accepter
    && (q.Live() ==> p.Live()) && StateOk(q)
  }

  lemma ChangeGraph(s: State, t: State, q: Peering)
    requires InvGraph(s) && t.vpcs == s.vpcs && t.peerings == s.peerings[q.id := q]
    requires q.id in s.peerings && SameGraph(s.peerings[q.id], q)
    ensures InvGraph(t)
  {
    ChangeQuota(s.peerings, q);
    ChangePairs(s.peerings, q);
    assert PeeringWf(s.peerings[q.id], q.id, s.vpcs);
  }

  lemma ChangeQuota(peerings: Peerings, q: Peering)
    requires QuotaOk(peerings) && q.id in peerings && SameGraph(peerings[q.id], q)
    ensures QuotaOk(peerings[q.id := q])
  {
    var after := peerings[q.id := q];
    forall v: Uuid ensures CountByVpc(after, v) <= MAX_PEERINGS {
      assert CountByVpc(peerings, v) <= MAX_PEERINGS;
      SubsetSize(LiveAt(after, v), LiveAt(peerings, v));
    }
  }

  lemma ChangePairs(peerings: Peerings, q: Peering)
    requires PairsUnique(peerings) && q.id in peerings && SameGraph(peerings[q.id], q)
    ensures PairsUnique(peerings[q.id := q])
  {
    var after := peerings[q.id := q];
    forall i, j | i in after && j in after && i != j && after[i].Live() && after[j].Live()
      ensures !SamePair(after[i], after[j])
    {
      assert !SamePair(peerings[i], peerings[j]);
    }
  }

  lemma ChangeKeeps(s: State, t: State, q: Peering, kind: EventKind)
    requires Inv(s) && q.id in s.peerings && TameChange(s.peerings[q.id], q)
    requires t == PutPeering(s, q) || (t == Log(PutPeering(s, q), q.id, kind) && kind != PeeringProvisioned)
    ensures Inv(t)
  {
    ChangeGraph(s, t, q);
    PutPeeringBgp(s, t, q);
    PutPeeringLogs(s, t, q, kind);
  }

  lemma StoredWf(s: State, id: Uuid)
    requires Inv(s) && id in s.peerings
    ensures PeeringWf(s.peerings[id], id, s.vpcs)
  {
  }

  lemma AcceptKeeps(s: State, caller: Option<Uuid>, id: Uuid)
    requires Inv(s)
    ensures Inv(AcceptPeering(s, caller, id).0)
  {
    hide Inv;
    var (t, r) := AcceptPeering(s, caller, id);
    if r == None {
      StoredWf(s, id);
      ChangeKeeps(s, t, s.peerings[id].(state := Provisioning), PeeringAccepted);
    }
  }

  lemma RejectKeeps(s: State, caller: Option<Uuid>, id: Uuid)
    requires Inv(s)
    ensures Inv(RejectPeering(s, caller, id).0)
  {
    hide Inv;
    var (t, r) := RejectPeering(s, caller, id);
    if r == None {
      StoredWf(s, id);
      ChangeKeeps(s, t, s.peerings[id].(state := Rejected), PeeringAccepted);
    }
  }

  lemma UpdateKeeps(s: State, caller: Option<Uuid>, id: Uuid, direction: Option<string>, policy: PolicyRequest)
    requires Inv(s)
    ensures Inv(UpdatePeering(s, caller, id, direction, policy).0)
  {
    hide Inv;
    var (t, r) := UpdatePeering(s, caller, id, direction, policy);
    if r == None {
      StoredWf(s, id);
      ChangeKeeps(s, t, Updated(s.peerings[id], direction, policy), PolicyUpdated);
    }
  }

  lemma DeletePeeringKeeps(s: State, caller: Option<Uuid>, id: Uuid)
    requires Inv(s)
    ensures Inv(DeletePeering(s, caller, id).0)
  {
    hide Inv;
    var (t, r) := DeletePeering(s, caller, id);
    if r == None {
      StoredWf(s, id);
      ChangeKeeps(s, t, s.peerings[id].(state := Deleted), PeeringDeleted);
    }
  }

  // ---- route overrides ----

  lemma {:induction false} UpsertMembers(routes: seq<RouteEntry>, e: RouteEntry)
    requires forall i, j | 0 <= i < j < |routes| :: !SameRoute(routes[i], routes[j])
    ensures var u := Upsert(routes, e);
            && (forall i, j | 0 <= i < j < |u| :: !SameRoute(u[i], u[j]))
            && (forall x :: x in u <==> x == e || (x in routes && !SameRoute(x, e)))
  {
    if routes != [] {
      assert routes == [routes[0]] + routes[1..];
      UpsertMembers(routes[1..], e);
      var tail := Upsert(routes[1..], e);
      if SameRoute(routes[0], e) {
        forall x | x in routes[1..] ensures !SameRoute(x, e) {
          var k :| 0 <= k < |routes[1..]| && routes[1..][k] == x;
          assert routes[k + 1] == x && !SameRoute(routes[0], routes[k + 1]);
        }
      } else {
        forall j | 0 <= j < |tail| ensures !SameRoute(routes[0], tail[j]) {
          assert tail[j] in tail;
          if tail[j] != e {
            var k :| 0 <= k < |routes[1..]| && routes[1..][k] == tail[j];
            assert !SameRoute(routes[0], routes[k + 1]);
          }
        }
      }
    }
  }

  lemma {:induction false} DeleteRouteMembers(routes: seq<RouteEntry>, peering: Uuid, prefix: Prefix)
    requires forall i, j | 0 <= i < j < |routes| :: !SameRoute(routes[i], routes[j])
    ensures var u := DeleteRoute(routes, peering, prefix);
            && (forall i, j | 0 <= i < j < |u| :: !SameRoute(u[i], u[j]))
            && (forall x :: x in u <==> x in routes && !(x.peering == peering && x.prefix == prefix))
  {
    if routes != [] {
      assert routes == [routes[0]] + routes[1..];
      DeleteRouteMembers(routes[1..], peering, prefix);
      var tail := DeleteRoute(routes[1..], peering, prefix);
      if routes[0].peering == peering && routes[0].prefix == prefix {
        forall x | x in routes[1..] ensures !(x.peering == peering && x.prefix == prefix) {
          var k :| 0 <= k < |routes[1..]| && routes[1..][k] == x;
          assert !SameRoute(routes[0], routes[k + 1]);
        }
      } else {
        forall j | 0 <= j < |tail| ensures !SameRoute(routes[0], tail[j]) {
          assert tail[j] in tail;
          var k :| 0 <= k < |routes[1..]| && routes[1..][k] == tail[j];
          assert !SameRoute(routes[0], routes[k + 1]);
        }
      }
    }
  }

  lemma LogEvent(events: seq<Event>, peerings: Peerings, id: Uuid, kind: EventKind)
    requires EventsOk(events, peerings) && id in peerings && kind != PeeringProvisioned
    ensures EventsOk(events + [Event(id, kind)], peerings)
  {
  }

  lemma RoutesOkFromMembers(routes: seq<RouteEntry>, peerings: Peerings)
    requires forall i, j | 0 <= i < j < |routes| :: !SameRoute(routes[i], routes[j])
    requires forall x | x in routes :: RouteOk(x, peerings)
    ensures RoutesOk(routes, peerings)
  {
    forall i | 0 <= i < |routes| ensures RouteOk(routes[i], peerings) {
      assert routes[i] in routes;
    }
  }

  lemma UpsertRoutesOk(routes: seq<RouteEntry>, peerings: Peerings, e: RouteEntry)
    requires RoutesOk(routes, peerings) && RouteOk(e, peerings)
    ensures RoutesOk(Upsert(routes, e), peerings)
  {
    UpsertMembers(routes, e);
    RoutesOkFromMembers(Upsert(routes, e), peerings);
  }

  /** The place of a stored entry. */
  predicate Elsewhere(x: RouteEntry, peering: Uuid, prefix: Prefix) {
    x.peering != peering || x.prefix != prefix
  }

  /** The first entry with the same peering and prefix is replaced where it stands; else the new one comes last. */
  lemma UpsertInPlace(routes: seq<RouteEntry>, e: RouteEntry) returns (i: nat)
    ensures i <= |routes| && forall j | 0 <= j < i :: Elsewhere(routes[j], e.peering, e.prefix)
    ensures i < |routes| ==> !Elsewhere(routes[i], e.peering, e.prefix) && Upsert(routes, e) == routes[i := e]
    ensures i == |routes| ==> Upsert(routes, e) == routes + [e]
  {
    i := 0;
    while i < |routes| && Elsewhere(routes[i], e.peering, e.prefix)
      invariant i <= |routes| && forall j | 0 <= j < i :: Elsewhere(routes[j], e.peering, e.prefix)
    {
      i := i + 1;
    }
    UpsertAt(routes, e, i);
  }

  /** The first entry at the place leaves the list, and the others keep their order. */
  lemma DeleteInPlace(routes: seq<RouteEntry>, peering: Uuid, prefix: Prefix) returns (i: nat)
    ensures i <= |routes| && forall j | 0 <= j < i :: Elsewhere(routes[j], peering, prefix)
    ensures i < |routes| ==>
              && !Elsewhere(routes[i], peering, prefix)
              && DeleteRoute(routes, peering, prefix) == routes[..i] + routes[i + 1..]
    ensures i == |routes| ==> DeleteRoute(routes, peering, prefix) == routes
  {
    i := 0;
    while i < |routes| && Elsewhere(routes[i], peering, prefix)
      invariant i <= |routes| && forall j | 0 <= j < i :: Elsewhere(routes[j], peering, prefix)
    {
      i := i + 1;
    }
    DeleteAt(routes, peering, prefix, i);
  }

  lemma DeleteRoutesOk(routes: seq<RouteEntry>, peerings: Peerings, id: Uuid, prefix: Prefix)
    requires RoutesOk(routes, peerings)
    ensures RoutesOk(DeleteRoute(routes, id, prefix), peerings)
  {
    DeleteRouteMembers(routes, id, prefix);
    RoutesOkFromMembers(DeleteRoute(routes, id, prefix), peerings);
  }

  lemma OverrideKeeps(s: State, caller: Option<Uuid>, id: Uuid, action: RouteAction, prefix: Option<Prefix>)
    requires Inv(s)
    ensures Inv(OverrideRoute(s, caller, id, action, prefix).0)
  {
    var (t, r) := OverrideRoute(s, caller, id, action, prefix);
    if r == None {
      if action == AddStatic {
        UpsertRoutesOk(s.routes, s.peerings, StaticEntry(id, prefix.value));
        LogEvent(s.events, s.peerings, id, RouteAdded);
      } else {
        DeleteRoutesOk(s.routes, s.peerings, id, prefix.value);
        LogEvent(s.events, s.peerings, id, RouteWithdrawnEvent);
      }
    }
  }
}
