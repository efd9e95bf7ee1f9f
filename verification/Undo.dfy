/** What provisioning one peering stores, and that deprovisioning undoes what it did to BGP. */
module Undo {
  import opened Common
  import opened Prefixes
  import opened Model
  import Bgp
  import opened Lifecycle
  import opened Invariant
  import opened Runs
  import opened Preservation
  import opened Provisioning
  import Reachable

  // ---- the stored direct routes ----

  predicate DirectOf(x: RouteEntry, id: Uuid) {
    x.peering == id && x.origin == Direct
  }

  function DirectPrefixes(routes: seq<RouteEntry>, id: Uuid): set<Prefix> {
    set x | x in routes && DirectOf(x, id) :: x.prefix
  }

  function PrefixesOf(es: seq<RouteEntry>): set<Prefix> {
    set x | x in es :: x.prefix
  }

  ghost function PrefixAt(es: seq<RouteEntry>): map<int, Prefix> {
    map i | i in Interval(0, |es|) :: es[i].prefix
  }

  /** Entries of one peering that do not collide have as many prefixes. */
  lemma PrefixesCounted(es: seq<RouteEntry>, id: Uuid)
    requires NoneAlike(es) && forall x | x in es :: x.peering == id
    ensures |PrefixesOf(es)| == |es|
  {
    var at := PrefixAt(es);
    forall i, j | i in at && j in at && i != j ensures at[i] != at[j] {
      assert if i < j then !SameRoute(es[i], es[j]) else !SameRoute(es[j], es[i]);
    }
    Reachable.InjectiveSize(at);
    assert at.Keys == Interval(0, |es|);
    IntervalSize(0, |es|);
    PrefixAtValues(es);
  }

  lemma PrefixAtValues(es: seq<RouteEntry>)
    ensures PrefixAt(es).Values == PrefixesOf(es)
  {
    forall p ensures p in PrefixAt(es).Values <==> p in PrefixesOf(es) {
      if p in PrefixesOf(es) {
        var x :| x in es && x.prefix == p;
        var i :| 0 <= i < |es| && es[i] == x;
        assert i in PrefixAt(es) && PrefixAt(es)[i] == p;
      }
    }
  }

  lemma NoDirectBefore(s: State, id: Uuid, x: RouteEntry)
    requires Inv(s) && id in s.peerings && !Provisioned(s.peerings[id]) && x in s.routes
    ensures !DirectOf(x, id)
  {
    var i :| 0 <= i < |s.routes| && s.routes[i] == x;
    assert RouteOk(s.routes[i], s.peerings);
  }

  lemma NewPrefixes(p: Peering, id: Uuid, r: Vpc, a: Vpc)
    ensures PrefixesOf(NewEntries(p, id, r, a))
         == Bgp.Members(a.cidrs) + (if p.AlsoRequesterRoutes() then Bgp.Members(r.cidrs) else {})
  {
    var es, n := NewEntries(p, id, r, a), |a.cidrs|;
    forall c | c in a.cidrs ensures c in PrefixesOf(es) {
      var i :| 0 <= i < n && a.cidrs[i] == c;
      assert es[i].prefix == c;
    }
    if p.AlsoRequesterRoutes() {
      forall c | c in r.cidrs ensures c in PrefixesOf(es) {
        var i :| 0 <= i < |r.cidrs| && r.cidrs[i] == c;
        assert es[n + i].prefix == c;
      }
    }
    forall x | x in es ensures x.prefix in a.cidrs || (p.AlsoRequesterRoutes() && x.prefix in r.cidrs) {
      var i :| 0 <= i < |es| && es[i] == x;
      if i < n { assert x.prefix == a.cidrs[i]; } else { assert x.prefix == r.cidrs[i - n]; }
    }
  }

  lemma DirectAre(routes: seq<RouteEntry>, after: seq<RouteEntry>, es: seq<RouteEntry>, id: Uuid)
    requires forall x :: x in after <==> x in es || (x in routes && Untouched(x, es))
    requires forall x | x in es :: DirectOf(x, id)
    requires forall x | x in routes :: !DirectOf(x, id)
    ensures DirectPrefixes(after, id) == PrefixesOf(es)
  {
  }

  /**
   * Right after provisioning, the peering's direct entries are the accepter's blocks, and the
   * requester's when the direction asks for them; no two stored entries share peering and prefix,
   * the route count is the number of direct ones, and every entry they do not replace is kept.
   */
  lemma ProvisioningStoresDirectRoutes(s: State, id: Uuid, now: int)
    requires Reaches(s) && ProvisionRefusal(s, id) == None
    ensures var t := ProvisionPeering(s, id, now).0;
            var p := s.peerings[id];
            var r, a := s.vpcs[p.requester], s.vpcs[p.accepter];
            && DirectPrefixes(t.routes, id)
               == Bgp.Members(a.cidrs) + (if p.AlsoRequesterRoutes() then Bgp.Members(r.cidrs) else {})
            && id in t.peerings && t.peerings[id].routeCount == |DirectPrefixes(t.routes, id)|
            && NoneAlike(t.routes)
            && (forall x | x in s.routes && (x.peering != id || x.prefix !in DirectPrefixes(t.routes, id)) ::
                x in t.routes)
            && (forall x | x in t.routes && DirectOf(x, id) ::
                  && x.originVpc == (if x.prefix in a.cidrs then p.accepter else p.requester)
                  && x.preference == 100 && x.state == RouteActive)
  {
    hide Inv;
    ReachableInv(s);
    StoresDirectRoutes(s, id, now);
    EndsOf(s, id);
    var p := s.peerings[id];
    var r, a := s.vpcs[p.requester], s.vpcs[p.accepter];
    NewPrefixes(p, id, r, a);
    NewEntriesApart(p, id, r, a);
    NewEntriesShape(p, id, r, a);
    PrefixesCounted(NewEntries(p, id, r, a), id);
    NewOwners(p, id, r, a);
  }

  /** Each new entry comes from the VPC that has the block. */
  lemma NewOwners(p: Peering, id: Uuid, r: Vpc, a: Vpc)
    requires BlocksApart(r, a)
    ensures forall x | x in NewEntries(p, id, r, a) ::
              x.originVpc == (if x.prefix in a.cidrs then a.id else r.id) && x.preference == 100
              && x.state == RouteActive
  {
    var es, n := NewEntries(p, id, r, a), |a.cidrs|;
    forall x | x in es
      ensures x.originVpc == (if x.prefix in a.cidrs then a.id else r.id) && x.preference == 100
              && x.state == RouteActive
    {
      var i :| 0 <= i < |es| && es[i] == x;
      if i < n {
        assert x == DirectEntry(a, id, a.cidrs[i]);
      } else {
        assert x == DirectEntry(r, id, r.cidrs[i - n]);
        forall j | 0 <= j < n ensures a.cidrs[j] != x.prefix { assert !r.cidrs[i - n].Overlaps(a.cidrs[j]); }
      }
    }
  }

  lemma EndsOf(s: State, id: Uuid)
    requires Inv(s) && ProvisionRefusal(s, id) == None
    ensures var p := s.peerings[id];
            && p.id == id && !Provisioned(p) && p.requester != p.accepter
            && s.vpcs[p.requester].id == p.requester && s.vpcs[p.accepter].id == p.accepter
            && BlocksApart(s.vpcs[p.requester], s.vpcs[p.accepter])
  {
    PeeringEnds(s, id);
    assert PeeringWf(s.peerings[id], id, s.vpcs);
  }

  lemma StoredApart(s: State)
    requires Inv(s)
    ensures NoneAlike(s.routes)
  {
  }

  lemma StoresDirectRoutes(s: State, id: Uuid, now: int)
    requires Inv(s) && ProvisionRefusal(s, id) == None
    ensures var t := ProvisionPeering(s, id, now).0;
            var p := s.peerings[id];
            var es := NewEntries(p, id, s.vpcs[p.requester], s.vpcs[p.accepter]);
            && DirectPrefixes(t.routes, id) == PrefixesOf(es)
            && NoneAlike(t.routes)
            && (forall x | x in s.routes && (x.peering != id || x.prefix !in PrefixesOf(es)) :: x in t.routes)
            && (forall x | x in t.routes && DirectOf(x, id) :: x in es)
  {
    hide Inv;
    EndsOf(s, id);
    StoredApart(s);
    var p := s.peerings[id];
    var r, a := s.vpcs[p.requester], s.vpcs[p.accepter];
    forall x | x in s.routes ensures !DirectOf(x, id) { NoDirectBefore(s, id, x); }
    ProvisionedRoutesMembers(s.routes, p, id, r, a);
    NewEntriesShape(p, id, r, a);
    DirectAre(s.routes, ProvisionedRoutes(s.routes, p, id, r, a), NewEntries(p, id, r, a), id);
  }

  /** The entry for block `i` of the accepter, then of the requester. */
  function BlockEntry(id: Uuid, r: Vpc, a: Vpc, i: nat): RouteEntry
    requires i < |a.cidrs| + |r.cidrs|
  {
    if i < |a.cidrs|
    then RouteEntry(a.cidrs[i], a.id, id, Direct, 100, RouteActive)
    else RouteEntry(r.cidrs[i - |a.cidrs|], r.id, id, Direct, 100, RouteActive)
  }

  /**
   * The order of the store after provisioning: a static entry of the peering for one of the blocks is
   * replaced where it stands, every other old entry stays, and the other blocks follow, the accepter's
   * before the requester's.
   */
  lemma ProvisioningKeepsOrder(s: State, id: Uuid, now: int)
    returns (es: seq<RouteEntry>, out: seq<RouteEntry>, added: seq<RouteEntry>, at: seq<nat>)
    requires Reaches(s) && ProvisionRefusal(s, id) == None
    ensures var p := s.peerings[id];
            var r, a := s.vpcs[p.requester], s.vpcs[p.accepter];
            && |es| == |a.cidrs| + (if p.direction in {"bidirectional", "accepter_to_requester"} then |r.cidrs| else 0)
            && (forall i | 0 <= i < |es| :: es[i] == BlockEntry(id, r, a, i))
            && ProvisionPeering(s, id, now).0.routes == out + added
            && ReplacedInPlace(out, s.routes, es) && NewPlaces(added, s.routes, es, at)
  {
    hide Inv, Reaches, UpsertAll, ReplacedInPlace, NewPlaces;
    ReachableInv(s);
    EndsOf(s, id);
    StoredApart(s);
    var p := s.peerings[id];
    var r, a := s.vpcs[p.requester], s.vpcs[p.accepter];
    es := NewEntries(p, id, r, a);
    NewEntriesApart(p, id, r, a);
    ProvisionedRoutesAre(s.routes, p, id, r, a);
    out, added, at := UpsertAllShape(s.routes, es);
  }

  // ---- route overrides ----

  /** The place of an entry in the store. */
  predicate LiesAt(x: RouteEntry, id: Uuid, prefix: Prefix) {
    x.peering == id && x.prefix == prefix
  }

  /**
   * A granted override leaves exactly one static entry at the peering and prefix, or none, and every
   * other stored entry as it was; a refused one changes nothing.
   */
  lemma OverrideChangesOneEntry(s: State, caller: Option<Uuid>, id: Uuid, action: RouteAction, prefix: Prefix)
    requires Reaches(s)
    ensures var (t, error) := OverrideRoute(s, caller, id, action, Some(prefix));
            && NoneAlike(t.routes)
            && (error != None ==> t == s)
            && (error == None ==> forall x :: x in t.routes <==>
                  if LiesAt(x, id, prefix)
                  then action == AddStatic && x.origin == Static && x.preference == 200 && x.state == RouteActive
                  && x.originVpc == NIL
                  else x in s.routes)
  {
    hide Inv, Reaches;
    ReachableInv(s);
    StoredApart(s);
    UpsertMembers(s.routes, StaticEntry(id, prefix));
    DeleteRouteMembers(s.routes, id, prefix);
  }

  // ---- provision, then deprovision ----

  lemma RemoveImportMultiset(b: Bgp.BgpState, vrf: string, rt: string, v: string)
    ensures multiset(At(Bgp.Configured(b, Bgp.RTConfig(vrf, Bgp.RemoveImport, rt)).imports, v))
         == multiset(At(b.imports, v)) - One(rt, v == vrf)
  {
    var list := At(b.imports, vrf);
    Bgp.RemoveFirstMultiset(list, rt);
    if rt !in list { assert rt !in multiset(list); }
  }

  /** Both sides' imports lose one occurrence of the other side's target; nothing else changes. */
  lemma ConfigureBothRemoves(b: Bgp.BgpState, r: Vpc, a: Vpc, v: string)
    ensures var c := ConfigureBoth(b, r, a, Bgp.RemoveImport);
            && multiset(At(c.imports, v))
               == multiset(At(b.imports, v)) - One(a.exportRT, v == r.vrfName) - One(r.exportRT, v == a.vrfName)
            && c.routes == b.routes
  {
    RemoveImportMultiset(b, r.vrfName, a.exportRT, v);
    var mid := Bgp.Configured(b, Bgp.RTConfig(r.vrfName, Bgp.RemoveImport, a.exportRT));
    RemoveImportMultiset(mid, a.vrfName, r.exportRT, v);
  }

  /** Deprovisioning empties both sides' advertised lists when every route is one of its VPC's blocks. */
  lemma DeprovisionedAdverts(b: Bgp.BgpState, r: Vpc, a: Vpc, vpcs: Vpcs)
    requires AdvertsSound(b.routes, vpcs) && r.id != a.id
    requires r.id in vpcs && vpcs[r.id] == r && a.id in vpcs && vpcs[a.id] == a
    ensures var c := DeprovisionedBgp(b, Some(r), Some(a));
            && At(c.routes, r.id) == [] && At(c.routes, a.id) == []
            && forall v: Uuid | v != r.id && v != a.id :: At(c.routes, v) == At(b.routes, v)
  {
    Bgp.RemainingNone(At(b.routes, a.id), Bgp.Members(a.cidrs));
    var b1 := WithdrawAll(b, a);
    Bgp.RemainingNone(At(b1.routes, r.id), Bgp.Members(r.cidrs));
    ConfigureBothRemoves(WithdrawAll(b1, r), r, a, r.vrfName);
  }

  lemma DeprovisionedImports(b: Bgp.BgpState, r: Vpc, a: Vpc, v: string)
    ensures multiset(At(DeprovisionedBgp(b, Some(r), Some(a)).imports, v))
         == multiset(At(b.imports, v)) - One(a.exportRT, v == r.vrfName) - One(r.exportRT, v == a.vrfName)
  {
    var b2 := WithdrawAll(WithdrawAll(b, a), r);
    ConfigureBothRemoves(b2, r, a, v);
  }

  lemma ImportsRestored(b: Bgp.BgpState, p: Peering, r: Vpc, a: Vpc, v: string)
    ensures multiset(At(DeprovisionedBgp(ProvisionedBgp(b, p, r, a), Some(r), Some(a)).imports, v))
            == multiset(At(b.imports, v))
  {
    var mid := ProvisionedBgp(b, p, r, a);
    ProvisionedImports(b, p, r, a);
    ConfigureBothAdds(b, r, a, v);
    DeprovisionedImports(mid, r, a, v);
    AddThenRemove(multiset(At(b.imports, v)), One(a.exportRT, v == r.vrfName), One(r.exportRT, v == a.vrfName));
  }

  lemma AddThenRemove<T>(m: multiset<T>, x: multiset<T>, y: multiset<T>)
    ensures m + x + y - x - y == m
  {
  }

  lemma OthersUntouched(b: Bgp.BgpState, p: Peering, r: Vpc, a: Vpc, v: Uuid)
    requires v != r.id && v != a.id
    ensures At(ProvisionedBgp(b, p, r, a).routes, v) == At(b.routes, v)
  {
    ConfigureBothAdds(b, r, a, r.vrfName);
  }

  /** The state after provisioning and then deprovisioning a peering. */
  function ProvisionedThenNot(s: State, id: Uuid, now: int): State {
    DeprovisionPeering(ProvisionPeering(s, id, now).0, id).0
  }

  lemma UndoneBgp(s: State, id: Uuid, now: int)
    requires Inv(s) && ProvisionRefusal(s, id) == None
    ensures var (t, p) := (ProvisionPeering(s, id, now).0, s.peerings[id]);
            var r, a := s.vpcs[p.requester], s.vpcs[p.accepter];
            && DeprovisionPeering(t, id).1 == None
            && ProvisionedThenNot(s, id, now)
               == t.(bgp := DeprovisionedBgp(ProvisionedBgp(s.bgp, p, r, a), Some(r), Some(a)))
  {
    hide Inv;
    EndsOf(s, id);
    DeprovisionsProvisioned(s, id, now);
  }

  /** Provisioning and then deprovisioning a peering restores every VRF's import multiset. */
  lemma DeprovisionRestoresImports(s: State, id: Uuid, now: int, vrf: string)
    requires Reaches(s) && ProvisionRefusal(s, id) == None
    ensures multiset(At(ProvisionedThenNot(s, id, now).bgp.imports, vrf)) == multiset(At(s.bgp.imports, vrf))
  {
    hide Inv, Reaches, ProvisionedThenNot, ProvisionPeering, DeprovisionPeering;
    ReachableInv(s);
    UndoneBgp(s, id, now);
    var p := s.peerings[id];
    ImportsRestored(s.bgp, p, s.vpcs[p.requester], s.vpcs[p.accepter], vrf);
  }

  /**
   * It leaves both VPCs' advertised lists empty, all other VPCs' lists as they were, and everything
   * but BGP as provisioning left it.
   */
  lemma DeprovisionEmptiesAdverts(s: State, id: Uuid, now: int, v: Uuid)
    requires Reaches(s) && ProvisionRefusal(s, id) == None
    ensures var u, p := ProvisionedThenNot(s, id, now), s.peerings[id];
            && At(u.bgp.routes, v) == (if p.Touches(v) then [] else At(s.bgp.routes, v))
            && u == ProvisionPeering(s, id, now).0.(bgp := u.bgp)
            && DeprovisionPeering(ProvisionPeering(s, id, now).0, id).1 == None
  {
    hide Inv, Reaches, ProvisionedThenNot, ProvisionPeering, DeprovisionPeering;
    ReachableInv(s);
    EndsOf(s, id);
    SoundAdverts(s);
    UndoneBgp(s, id, now);
    var p := s.peerings[id];
    UndoneAdverts(s.bgp, p, s.vpcs[p.requester], s.vpcs[p.accepter], s.vpcs, v);
  }

  lemma UndoneAdverts(b: Bgp.BgpState, p: Peering, r: Vpc, a: Vpc, vpcs: Vpcs, v: Uuid)
    requires AdvertsSound(b.routes, vpcs) && r.id != a.id
    requires r.id in vpcs && vpcs[r.id] == r && a.id in vpcs && vpcs[a.id] == a
    ensures At(DeprovisionedBgp(ProvisionedBgp(b, p, r, a), Some(r), Some(a)).routes, v)
         == if v == r.id || v == a.id then [] else At(b.routes, v)
  {
    ProvisionedBgpSound(b, p, r, a, vpcs);
    DeprovisionedAdverts(ProvisionedBgp(b, p, r, a), r, a, vpcs);
    if v != r.id && v != a.id { OthersUntouched(b, p, r, a, v); }
  }

  lemma SoundAdverts(s: State)
    requires Inv(s)
    ensures AdvertsSound(s.bgp.routes, s.vpcs)
  {
  }

  lemma DeprovisionsProvisioned(s: State, id: Uuid, now: int)
    requires ProvisionRefusal(s, id) == None && s.peerings[id].id == id
    ensures var t := ProvisionPeering(s, id, now).0;
            var p := s.peerings[id];
            var r, a := s.vpcs[p.requester], s.vpcs[p.accepter];
            DeprovisionPeering(t, id)
            == (t.(bgp := DeprovisionedBgp(ProvisionedBgp(s.bgp, p, r, a), Some(r), Some(a))), None)
  {
  }

  // ---- deprovisioning any active peering ----

  lemma ActiveEnds(s: State, id: Uuid)
    requires Inv(s) && id in s.peerings && s.peerings[id].state == Active
    ensures var p := s.peerings[id];
            && Provisioned(p) && p.requester != p.accepter
            && GetVpc(s.vpcs, p.requester) == Some(s.vpcs[p.requester]) && s.vpcs[p.requester].id == p.requester
            && GetVpc(s.vpcs, p.accepter) == Some(s.vpcs[p.accepter]) && s.vpcs[p.accepter].id == p.accepter
            && DeprovisionPeering(s, id)
               == (s.(bgp := DeprovisionedBgp(s.bgp, Some(s.vpcs[p.requester]), Some(s.vpcs[p.accepter]))), None)
  {
    PeeringEnds(s, id);
    assert PeeringWf(s.peerings[id], id, s.vpcs);
  }

  /** Without a provisioned peering there is one importer pair less per side. */
  lemma ImportersLose(peerings: Peerings, vpcs: Vpcs, id: Uuid, vrf: string, rt: string)
    requires id in peerings
    ensures |Importers(peerings, vpcs, vrf, rt)|
            == |Importers(peerings - {id}, vpcs, vrf, rt)|
               + (if ImportsBy(peerings[id], true, vpcs, vrf, rt) then 1 else 0)
               + (if ImportsBy(peerings[id], false, vpcs, vrf, rt) then 1 else 0)
  {
    var p := peerings[id];
    var without := peerings[id := p.(provisionedAt := None)];
    assert Importers(without, vpcs, vrf, rt) == Importers(peerings - {id}, vpcs, vrf, rt);
    assert without[id := p] == peerings;
    ImportersGain(without, vpcs, id, p, vrf, rt);
  }

  /**
   * Deprovisioning an active peering, in any reachable state, leaves every VRF's imports as the sum
   * over the other provisioned peerings.
   */
  lemma DeprovisionLeavesTheOthers(s: State, id: Uuid, vrf: string, rt: string)
    requires Reaches(s) && id in s.peerings && s.peerings[id].state == Active
    ensures multiset(At(DeprovisionPeering(s, id).0.bgp.imports, vrf))[rt]
            == |Importers(s.peerings - {id}, s.vpcs, vrf, rt)|
  {
    hide Inv, Reaches, Importers, DeprovisionPeering, DeprovisionedBgp, One;
    ReachableInv(s);
    ActiveEnds(s, id);
    var p := s.peerings[id];
    var r, a := s.vpcs[p.requester], s.vpcs[p.accepter];
    ImportCount(s, vrf, rt);
    DeprovisionedImports(s.bgp, r, a, vrf);
    ImportersLose(s.peerings, s.vpcs, id, vrf, rt);
    ImportsByOnes(p, s.vpcs, vrf, rt);
    CountLess(multiset(At(s.bgp.imports, vrf)),
              One(a.exportRT, vrf == r.vrfName), One(r.exportRT, vrf == a.vrfName), rt);
  }

  lemma ImportsByOnes(p: Peering, vpcs: Vpcs, vrf: string, rt: string)
    requires Provisioned(p) && p.requester in vpcs && p.accepter in vpcs
    ensures var r, a := vpcs[p.requester], vpcs[p.accepter];
            && One(a.exportRT, vrf == r.vrfName)[rt] == (if ImportsBy(p, true, vpcs, vrf, rt) then 1 else 0)
            && One(r.exportRT, vrf == a.vrfName)[rt] == (if ImportsBy(p, false, vpcs, vrf, rt) then 1 else 0)
  {
  }

  lemma CountLess<T>(m: multiset<T>, x: multiset<T>, y: multiset<T>, e: T)
    requires m[e] >= x[e] + y[e]
    ensures (m - x - y)[e] == m[e] - x[e] - y[e]
  {
  }

  lemma ImportCount(s: State, vrf: string, rt: string)
    requires Inv(s)
    ensures multiset(At(s.bgp.imports, vrf))[rt] == |Importers(s.peerings, s.vpcs, vrf, rt)|
  {
  }

  /** It silences both ends, also for their other peerings, and touches nothing else. */
  lemma DeprovisionSilencesTheEnds(s: State, id: Uuid, v: Uuid)
    requires Reaches(s) && id in s.peerings && s.peerings[id].state == Active
    ensures var (t, error) := DeprovisionPeering(s, id);
            && At(t.bgp.routes, v) == (if s.peerings[id].Touches(v) then [] else At(s.bgp.routes, v))
            && t == s.(bgp := t.bgp) && error == None
  {
    hide Inv, Reaches, DeprovisionPeering;
    ReachableInv(s);
    ActiveEnds(s, id);
    SoundAdverts(s);
    var p := s.peerings[id];
    DeprovisionedAdverts(s.bgp, s.vpcs[p.requester], s.vpcs[p.accepter], s.vpcs);
  }
}
