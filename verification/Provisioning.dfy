/** What provisioning a peering does, and that it keeps the invariant. */
module Provisioning {
  import opened Common
  import opened Prefixes
  import opened Model
  import Cidr
  import Bgp
  import opened Lifecycle
  import opened Invariant
  import opened Preservation

  // ---- blocks ----

  lemma ApartMeansDistinct(blocks: seq<Prefix>, i: nat, j: nat)
    requires Cidr.AllValid(blocks) && Cidr.PairwiseApart(blocks) && i < j < |blocks|
    ensures blocks[i] != blocks[j]
  {
    assert !blocks[i].Overlaps(blocks[j]);
  }

  /** Both VPCs' blocks are valid and no two of them overlap. */
  ghost predicate BlocksApart(r: Vpc, a: Vpc) {
    && Cidr.AllValid(r.cidrs) && Cidr.PairwiseApart(r.cidrs)
    && Cidr.AllValid(a.cidrs) && Cidr.PairwiseApart(a.cidrs)
    && !Cidr.CIDRsOverlap(r.cidrs, a.cidrs)
  }

  // ---- imports ----

  function One(rt: string, here: bool): multiset<string> {
    if here then multiset{rt} else multiset{}
  }

  lemma AddImportMultiset(b: Bgp.BgpState, vrf: string, rt: string, v: string)
    ensures multiset(At(Bgp.Configured(b, Bgp.RTConfig(vrf, Bgp.AddImport, rt)).imports, v))
         == multiset(At(b.imports, v)) + One(rt, v == vrf)
  {
  }

  /** Both sides' imports gain the other side's target; nothing else changes. */
  lemma ConfigureBothAdds(b: Bgp.BgpState, r: Vpc, a: Vpc, v: string)
    ensures var c := ConfigureBoth(b, r, a, Bgp.AddImport);
            && multiset(At(c.imports, v))
               == multiset(At(b.imports, v)) + One(a.exportRT, v == r.vrfName) + One(r.exportRT, v == a.vrfName)
            && c.routes == b.routes
  {
    AddImportMultiset(b, r.vrfName, a.exportRT, v);
    var mid := Bgp.Configured(b, Bgp.RTConfig(r.vrfName, Bgp.AddImport, a.exportRT));
    AddImportMultiset(mid, a.vrfName, r.exportRT, v);
  }

  lemma ProvisionedImports(b: Bgp.BgpState, p: Peering, r: Vpc, a: Vpc)
    ensures ProvisionedBgp(b, p, r, a).imports == ConfigureBoth(b, r, a, Bgp.AddImport).imports
  {
  }

  /** `more` is `had` with the pairs of `id` on the sides asked for. */
  ghost predicate GainsPairs(had: set<(Uuid, bool)>, more: set<(Uuid, bool)>, id: Uuid, left: bool, right: bool) {
    forall x: (Uuid, bool) :: x in more <==> x in had || (x.0 == id && if x.1 then left else right)
  }

  function PairIf(id: Uuid, side: bool, here: bool): set<(Uuid, bool)> {
    if here then {(id, side)} else {}
  }

  lemma GainedPairs(had: set<(Uuid, bool)>, more: set<(Uuid, bool)>, id: Uuid, left: bool, right: bool)
    requires GainsPairs(had, more, id, left, right)
    ensures more == had + PairIf(id, true, left) + PairIf(id, false, right)
  {
    forall x: (Uuid, bool)
      ensures x in PairIf(id, true, left) <==> left && x.0 == id && x.1
      ensures x in PairIf(id, false, right) <==> right && x.0 == id && !x.1
    {
      assert x == (x.0, x.1);
    }
  }

  lemma OneMoreIf(had: set<(Uuid, bool)>, id: Uuid, side: bool, here: bool)
    requires (id, side) !in had
    ensures |had + PairIf(id, side, here)| == |had| + if here then 1 else 0
  {
    if !here { assert had + {} == had; }
  }

  lemma PairsAdd(had: set<(Uuid, bool)>, more: set<(Uuid, bool)>, id: Uuid, left: bool, right: bool)
    requires (id, true) !in had && (id, false) !in had && GainsPairs(had, more, id, left, right)
    ensures |more| == |had| + (if left then 1 else 0) + (if right then 1 else 0)
  {
    GainedPairs(had, more, id, left, right);
    OneMoreIf(had, id, true, left);
    OneMoreIf(had + PairIf(id, true, left), id, false, right);
  }

  /** Provisioning adds the peering's two importer pairs, one per side. */
  lemma ImportersGain(peerings: Peerings, vpcs: Vpcs, id: Uuid, q: Peering, vrf: string, rt: string)
    requires id in peerings && !Provisioned(peerings[id])
    ensures |Importers(peerings[id := q], vpcs, vrf, rt)|
            == |Importers(peerings, vpcs, vrf, rt)|
               + (if ImportsBy(q, true, vpcs, vrf, rt) then 1 else 0)
               + (if ImportsBy(q, false, vpcs, vrf, rt) then 1 else 0)
  {
    var left, right := ImportsBy(q, true, vpcs, vrf, rt), ImportsBy(q, false, vpcs, vrf, rt);
    PairsAdd(Importers(peerings, vpcs, vrf, rt), Importers(peerings[id := q], vpcs, vrf, rt), id, left, right);
  }

  lemma ProvisionImportsAgree(s: State, t: State, id: Uuid, now: int)
    requires InvGraph(s) && ImportsAgree(s.bgp.imports, s.peerings, s.vpcs) && ProvisionRefusal(s, id) == None
    requires t == ProvisionPeering(s, id, now).0
    ensures ImportsAgree(t.bgp.imports, t.peerings, t.vpcs)
  {
    var p := s.peerings[id];
    assert PeeringWf(p, id, s.vpcs);
    var r, a := s.vpcs[p.requester], s.vpcs[p.accepter];
    ProvisionedImports(s.bgp, p, r, a);
    ImportsStillAgree(s.bgp, s.peerings, s.vpcs, id, ProvisionedPeering(p, r, a, now), r, a);
  }

  lemma ImportsStillAgree(b: Bgp.BgpState, peerings: Peerings, vpcs: Vpcs, id: Uuid, q: Peering, r: Vpc, a: Vpc)
    requires ImportsAgree(b.imports, peerings, vpcs) && id in peerings && !Provisioned(peerings[id]) && Provisioned(q)
    requires q.requester in vpcs && q.accepter in vpcs && vpcs[q.requester] == r && vpcs[q.accepter] == a
    ensures ImportsAgree(ConfigureBoth(b, r, a, Bgp.AddImport).imports, peerings[id := q], vpcs)
  {
    hide ConfigureBoth, Importers;
    forall vrf: string, rt: string
      ensures multiset(At(ConfigureBoth(b, r, a, Bgp.AddImport).imports, vrf))[rt]
              == |Importers(peerings[id := q], vpcs, vrf, rt)|
    {
      assert multiset(At(b.imports, vrf))[rt] == |Importers(peerings, vpcs, vrf, rt)|;
      ConfigureBothAdds(b, r, a, vrf);
      ImportersGain(peerings, vpcs, id, q, vrf, rt);
    }
  }

  // ---- advertised routes ----

  lemma RoutesOfMembers(v: Vpc)
    ensures forall c | c in v.cidrs :: AdvertOf(v, c) in RoutesOf(v)
    ensures forall x | x in RoutesOf(v) :: x.prefix in v.cidrs && x == AdvertOf(v, x.prefix)
  {
    forall c | c in v.cidrs ensures AdvertOf(v, c) in RoutesOf(v) {
      var i :| 0 <= i < |v.cidrs| && v.cidrs[i] == c;
      assert RoutesOf(v)[i] == AdvertOf(v, c);
    }
  }

  lemma InjectKeepsSound(b: Bgp.BgpState, vpcs: Vpcs, v: Vpc)
    requires AdvertsSound(b.routes, vpcs) && v.id in vpcs && vpcs[v.id] == v
    ensures AdvertsSound(Bgp.Injected(b, v.id, RoutesOf(v)).routes, vpcs)
  {
    RoutesOfMembers(v);
  }

  lemma ProvisionedBgpSound(b: Bgp.BgpState, p: Peering, r: Vpc, a: Vpc, vpcs: Vpcs)
    requires AdvertsSound(b.routes, vpcs)
    requires r.id in vpcs && vpcs[r.id] == r && a.id in vpcs && vpcs[a.id] == a
    ensures AdvertsSound(ProvisionedBgp(b, p, r, a).routes, vpcs)
  {
    var b1 := ConfigureBoth(b, r, a, Bgp.AddImport);
    ConfigureBothAdds(b, r, a, r.vrfName);
    InjectKeepsSound(b1, vpcs, a);
    var b2 := Bgp.Injected(b1, a.id, RoutesOf(a));
    InjectKeepsSound(b2, vpcs, r);
  }

  lemma {:induction false} DistinctOnce<T>(s: seq<T>, i: nat)
    requires i < |s| && forall j, k | 0 <= j < k < |s| :: s[j] != s[k]
    ensures multiset(s)[s[i]] == 1
  {
    assert s == [s[0]] + s[1..];
    if i == 0 {
      if s[0] in s[1..] { RepeatsHead(s); }
    } else {
      DistinctOnce(s[1..], i - 1);
    }
  }

  lemma RepeatsHead<T>(s: seq<T>)
    requires s != [] && s[0] in s[1..]
    ensures exists k :: 0 < k < |s| && s[k] == s[0]
  {
    var k :| 0 <= k < |s[1..]| && s[1..][k] == s[0];
    assert s[k + 1] == s[0];
  }

  /** Each block gives one route. */
  lemma RoutesOfCount(v: Vpc, c: Prefix)
    requires Cidr.AllValid(v.cidrs) && Cidr.PairwiseApart(v.cidrs) && c in v.cidrs
    ensures multiset(RoutesOf(v))[AdvertOf(v, c)] == 1
  {
    var routes := RoutesOf(v);
    forall j, k | 0 <= j < k < |routes| ensures routes[j] != routes[k] {
      ApartMeansDistinct(v.cidrs, j, k);
    }
    var i :| 0 <= i < |v.cidrs| && v.cidrs[i] == c;
    assert routes[i] == AdvertOf(v, c);
    DistinctOnce(routes, i);
  }

  lemma InjectCounts(b: Bgp.BgpState, vpcs: Vpcs, w: Uuid, v: Uuid, c: Prefix)
    requires w in vpcs && vpcs[w].id == w && Cidr.AllValid(vpcs[w].cidrs) && Cidr.PairwiseApart(vpcs[w].cidrs)
    requires v in vpcs && c in vpcs[v].cidrs
    ensures multiset(At(Bgp.Injected(b, w, RoutesOf(vpcs[w])).routes, v))[AdvertOf(vpcs[v], c)]
         == multiset(At(b.routes, v))[AdvertOf(vpcs[v], c)] + (if v == w then 1 else 0)
  {
    if v == w { RoutesOfCount(vpcs[v], c); }
  }

  lemma ProvisionedBgpCounts(b: Bgp.BgpState, p: Peering, vpcs: Vpcs, v: Uuid, c: Prefix)
    requires p.requester in vpcs && p.accepter in vpcs && v in vpcs && c in vpcs[v].cidrs
    requires vpcs[p.requester].id == p.requester && vpcs[p.accepter].id == p.accepter
    requires BlocksApart(vpcs[p.requester], vpcs[p.accepter])
    ensures multiset(At(ProvisionedBgp(b, p, vpcs[p.requester], vpcs[p.accepter]).routes, v))[AdvertOf(vpcs[v], c)]
         == multiset(At(b.routes, v))[AdvertOf(vpcs[v], c)]
            + (if v == p.accepter then 1 else 0) + (if p.AlsoRequesterRoutes() && v == p.requester then 1 else 0)
  {
    hide Bgp.Injected, RoutesOf, AdvertOf;
    var r, a := vpcs[p.requester], vpcs[p.accepter];
    var b1 := ConfigureBoth(b, r, a, Bgp.AddImport);
    ConfigureBothAdds(b, r, a, r.vrfName);
    InjectCounts(b1, vpcs, p.accepter, v, c);
    InjectCounts(Bgp.Injected(b1, a.id, RoutesOf(a)), vpcs, p.requester, v, c);
  }

  /** Provisioning adds the peering's injections, one or two. */
  lemma InjectorsGain(peerings: Peerings, vpcs: Vpcs, id: Uuid, q: Peering, v: Uuid)
    requires id in peerings && !Provisioned(peerings[id])
    ensures |Injectors(peerings[id := q], vpcs, v)|
            == |Injectors(peerings, vpcs, v)|
               + (if InjectedBy(q, true, vpcs, v) then 1 else 0)
               + (if InjectedBy(q, false, vpcs, v) then 1 else 0)
  {
    var left, right := InjectedBy(q, true, vpcs, v), InjectedBy(q, false, vpcs, v);
    PairsAdd(Injectors(peerings, vpcs, v), Injectors(peerings[id := q], vpcs, v), id, left, right);
  }

  lemma ProvisionAdverts(b: Bgp.BgpState, peerings: Peerings, vpcs: Vpcs, id: Uuid, q: Peering)
    requires AdvertsSound(b.routes, vpcs) && AdvertsAgree(b.routes, peerings, vpcs)
    requires id in peerings && !Provisioned(peerings[id]) && Provisioned(q)
    requires q.requester in vpcs && q.accepter in vpcs && vpcs[q.requester].id == q.requester
            && vpcs[q.accepter].id == q.accepter
    requires BlocksApart(vpcs[q.requester], vpcs[q.accepter])
    requires q.AlsoRequesterRoutes() <==> q.routeCount > |vpcs[q.accepter].cidrs|
    ensures var after := ProvisionedBgp(b, q, vpcs[q.requester], vpcs[q.accepter]).routes;
            AdvertsSound(after, vpcs) && AdvertsAgree(after, peerings[id := q], vpcs)
  {
    hide Injectors, AdvertsSound, ProvisionedBgp;
    var r, a := vpcs[q.requester], vpcs[q.accepter];
    ProvisionedBgpSound(b, q, r, a, vpcs);
    forall v, c | v in vpcs && c in vpcs[v].cidrs
      ensures multiset(At(ProvisionedBgp(b, q, r, a).routes, v))[AdvertOf(vpcs[v], c)]
              == |Injectors(peerings[id := q], vpcs, v)|
    {
      ProvisionedBgpCounts(b, q, vpcs, v, c);
      InjectorsGain(peerings, vpcs, id, q, v);
    }
  }

  /** Changing state, time and count of a peering does not change what provisioning it would inject. */
  lemma SameInjection(b: Bgp.BgpState, p: Peering, r: Vpc, a: Vpc, now: int)
    ensures ProvisionedBgp(b, ProvisionedPeering(p, r, a, now), r, a) == ProvisionedBgp(b, p, r, a)
    ensures var q := ProvisionedPeering(p, r, a, now);
            |r.cidrs| > 0 ==> (q.AlsoRequesterRoutes() <==> q.routeCount > |a.cidrs|)
  {
  }

  // ---- the stored direct routes ----

  ghost predicate NoneAlike(routes: seq<RouteEntry>) {
    forall i, j | 0 <= i < j < |routes| :: !SameRoute(routes[i], routes[j])
  }

  /** `x` is neither replaced by one of the entries nor one of them. */
  predicate Untouched(x: RouteEntry, entries: seq<RouteEntry>) {
    forall k | 0 <= k < |entries| :: !SameRoute(x, entries[k])
  }

  lemma SnocNoneAlike(init: seq<RouteEntry>, last: RouteEntry)
    requires NoneAlike(init + [last])
    ensures NoneAlike(init) && forall x | x in init :: !SameRoute(x, last)
  {
    var all := init + [last];
    forall i, j | 0 <= i < j < |init| ensures !SameRoute(init[i], init[j]) { assert !SameRoute(all[i], all[j]); }
    forall x | x in init ensures !SameRoute(x, last) {
      var i :| 0 <= i < |init| && init[i] == x;
      assert !SameRoute(all[i], all[|init|]);
    }
  }

  /** Upserting entries that do not collide among themselves: all of them, and the untouched old ones. */
  lemma {:induction false} UpsertAllMembers(routes: seq<RouteEntry>, entries: seq<RouteEntry>)
    requires NoneAlike(routes) && NoneAlike(entries)
    ensures NoneAlike(UpsertAll(routes, entries))
    ensures forall x :: x in UpsertAll(routes, entries) <==> x in entries || (x in routes && Untouched(x, entries))
  {
    if entries != [] {
      var init, last := entries[..|entries| - 1], entries[|entries| - 1];
      assert entries == init + [last];
      SnocNoneAlike(init, last);
      UpsertAllMembers(routes, init);
      UpsertMembers(UpsertAll(routes, init), last);
      forall x ensures x in UpsertAll(routes, entries) <==> x in entries || (x in routes && Untouched(x, entries)) {
        UntouchedSnoc(x, init, last);
      }
    }
  }

  lemma UntouchedSnoc(x: RouteEntry, init: seq<RouteEntry>, last: RouteEntry)
    ensures Untouched(x, init + [last]) <==> Untouched(x, init) && !SameRoute(x, last)
  {
    var all := init + [last];
    if Untouched(x, all) {
      forall k | 0 <= k < |init| ensures !SameRoute(x, init[k]) { assert all[k] == init[k]; }
      assert all[|init|] == last;
    }
  }

  // ---- where upserted entries go ----

  /** Each old entry as it was, or replaced where it stands by the entry for its place. */
  ghost predicate ReplacedInPlace(out: seq<RouteEntry>, routes: seq<RouteEntry>, es: seq<RouteEntry>) {
    && |out| == |routes|
    && forall i | 0 <= i < |routes| ::
         && !Elsewhere(out[i], routes[i].peering, routes[i].prefix)
         && (out[i] in es || (out[i] == routes[i] && Untouched(routes[i], es)))
  }

  /** The entries for places the old list does not have. */
  ghost predicate NewPlaces(added: seq<RouteEntry>, routes: seq<RouteEntry>, es: seq<RouteEntry>, at: seq<nat>) {
    && PickedAt(added, es, at)
    && forall j: nat :: j in at <==> j < |es| && forall x | x in routes :: Elsewhere(x, es[j].peering, es[j].prefix)
  }

  /**
   * Upserting entries for different places: old ones are replaced where they stand, and those for new
   * places follow in their order.
   */
  lemma {:induction false} UpsertAllShape(routes: seq<RouteEntry>, es: seq<RouteEntry>)
    returns (out: seq<RouteEntry>, added: seq<RouteEntry>, at: seq<nat>)
    requires NoneAlike(routes) && NoneAlike(es)
    ensures UpsertAll(routes, es) == out + added && ReplacedInPlace(out, routes, es) && NewPlaces(added, routes, es, at)
  {
    hide ReplacedInPlace, NewPlaces, NoneAlike, UpsertAll, Upsert;
    if es == [] {
      out, added, at := routes, [], [];
      NothingUpserted(routes);
    } else {
      var init, last := es[..|es| - 1], es[|es| - 1];
      assert es == init + [last];
      SnocNoneAlike(init, last);
      var out0, added0, at0 := UpsertAllShape(routes, init);
      var i := UpsertInPlace(out0 + added0, last);
      UpsertAllSnoc(routes, init, last);
      AddedAreApart(added0, routes, init, at0, last);
      if i < |out0| {
        out, added, at := out0[i := last], added0, at0;
        assert (out0 + added0)[i := last] == out + added;
        SamePlaces(out0, routes, init);
        ReplacedOne(out0, routes, init, last, i);
        NotNewPlace(added0, routes, init, at0, last, i);
      } else {
        out, added, at := out0, added0 + [last], at0 + [|init|];
        assert out0 + added0 + [last] == out + added;
        forall j | 0 <= j < |out0| ensures Elsewhere(out0[j], last.peering, last.prefix) {
          assert (out0 + added0)[j] == out0[j];
        }
        NewPlace(out0, added0, routes, init, at0, last);
      }
    }
  }

  lemma UpsertAllSnoc(routes: seq<RouteEntry>, init: seq<RouteEntry>, last: RouteEntry)
    ensures UpsertAll(routes, init + [last]) == Upsert(UpsertAll(routes, init), last)
  {
    assert (init + [last])[..|init|] == init;
  }

  lemma NothingUpserted(routes: seq<RouteEntry>)
    ensures UpsertAll(routes, []) == routes + [] && ReplacedInPlace(routes, routes, []) && NewPlaces([], routes, [], [])
  {
    PickedNone<RouteEntry>();
  }

  lemma SamePlaces(out: seq<RouteEntry>, routes: seq<RouteEntry>, es: seq<RouteEntry>)
    requires ReplacedInPlace(out, routes, es)
    ensures |out| == |routes| && forall i | 0 <= i < |routes| :: !Elsewhere(out[i], routes[i].peering, routes[i].prefix)
  {
  }

  lemma AddedAreApart(added: seq<RouteEntry>, routes: seq<RouteEntry>, init: seq<RouteEntry>, at: seq<nat>,
                      last: RouteEntry)
    requires NewPlaces(added, routes, init, at) && forall x | x in init :: !SameRoute(x, last)
    ensures forall x | x in added :: Elsewhere(x, last.peering, last.prefix)
  {
    forall x | x in added ensures Elsewhere(x, last.peering, last.prefix) {
      var k :| 0 <= k < |added| && added[k] == x;
      assert init[at[k]] in init;
    }
  }

  lemma ReplacedOne(out: seq<RouteEntry>, routes: seq<RouteEntry>, init: seq<RouteEntry>, last: RouteEntry, i: nat)
    requires ReplacedInPlace(out, routes, init) && NoneAlike(routes)
    requires i < |out| && !Elsewhere(out[i], last.peering, last.prefix)
    ensures ReplacedInPlace(out[i := last], routes, init + [last])
  {
    forall k | 0 <= k < |routes| && k != i ensures Untouched(routes[k], init) ==> Untouched(routes[k], init + [last]) {
      assert if k < i then !SameRoute(routes[k], routes[i]) else !SameRoute(routes[i], routes[k]);
      UntouchedSnoc(routes[k], init, last);
    }
  }

  lemma NotNewPlace(added: seq<RouteEntry>, routes: seq<RouteEntry>, init: seq<RouteEntry>, at: seq<nat>,
                    last: RouteEntry, i: nat)
    requires NewPlaces(added, routes, init, at)
    requires i < |routes| && !Elsewhere(routes[i], last.peering, last.prefix)
    ensures NewPlaces(added, routes, init + [last], at)
  {
    PickedSnoc(added, init, at, last);
    assert routes[i] in routes;
  }

  lemma NewPlace(out: seq<RouteEntry>, added: seq<RouteEntry>, routes: seq<RouteEntry>, init: seq<RouteEntry>,
                 at: seq<nat>, last: RouteEntry)
    requires ReplacedInPlace(out, routes, init) && NewPlaces(added, routes, init, at)
    requires forall j | 0 <= j < |out| :: Elsewhere(out[j], last.peering, last.prefix)
    ensures ReplacedInPlace(out, routes, init + [last])
    ensures NewPlaces(added + [last], routes, init + [last], at + [|init|])
  {
    PickedSnoc(added, init, at, last);
    forall k | 0 <= k < |routes|
      ensures Elsewhere(routes[k], last.peering, last.prefix)
      ensures Untouched(routes[k], init) ==> Untouched(routes[k], init + [last])
    {
      assert Elsewhere(out[k], last.peering, last.prefix);
      UntouchedSnoc(routes[k], init, last);
    }
    forall x | x in routes ensures Elsewhere(x, last.peering, last.prefix) {
      var k :| 0 <= k < |routes| && routes[k] == x;
    }
  }

  /** The entries a provisioning writes: the accepter's blocks, maybe the requester's. */
  function NewEntries(p: Peering, id: Uuid, r: Vpc, a: Vpc): seq<RouteEntry> {
    DirectEntries(a, id) + (if p.AlsoRequesterRoutes() then DirectEntries(r, id) else [])
  }

  lemma {:induction false} UpsertAllConcat(routes: seq<RouteEntry>, first: seq<RouteEntry>, second: seq<RouteEntry>)
    ensures UpsertAll(routes, first + second) == UpsertAll(UpsertAll(routes, first), second)
  {
    if second == [] {
      assert first + second == first;
    } else {
      var init := second[..|second| - 1];
      UpsertAllConcat(routes, first, init);
      assert (first + second)[..|first + second| - 1] == first + init;
    }
  }

  lemma ProvisionedRoutesAre(routes: seq<RouteEntry>, p: Peering, id: Uuid, r: Vpc, a: Vpc)
    ensures ProvisionedRoutes(routes, p, id, r, a) == UpsertAll(routes, NewEntries(p, id, r, a))
  {
    UpsertAllConcat(routes, DirectEntries(a, id), DirectEntries(r, id));
    assert DirectEntries(a, id) + [] == DirectEntries(a, id);
  }

  lemma PeeringEnds(s: State, id: Uuid)
    requires InvVpcs(s) && InvGraph(s) && id in s.peerings
    ensures var p := s.peerings[id];
            && p.id == id && p.requester in s.vpcs && p.accepter in s.vpcs && p.requester != p.accepter
            && s.vpcs[p.requester].id == p.requester && s.vpcs[p.accepter].id == p.accepter
            && BlocksApart(s.vpcs[p.requester], s.vpcs[p.accepter])
  {
    var p := s.peerings[id];
    assert PeeringWf(p, id, s.vpcs);
    assert VpcWf(s.vpcs[p.requester], p.requester, s.regions) && VpcWf(s.vpcs[p.accepter], p.accepter, s.regions);
  }

  /** Disjoint blocks give entries that do not collide. */
  lemma NewEntriesApart(p: Peering, id: Uuid, r: Vpc, a: Vpc)
    requires BlocksApart(r, a)
    ensures NoneAlike(NewEntries(p, id, r, a))
  {
    var es, n := NewEntries(p, id, r, a), |a.cidrs|;
    forall i, j | 0 <= i < j < |es| ensures !SameRoute(es[i], es[j]) {
      if j < n {
        ApartMeansDistinct(a.cidrs, i, j);
      } else if i >= n {
        ApartMeansDistinct(r.cidrs, i - n, j - n);
      } else {
        assert !r.cidrs[j - n].Overlaps(a.cidrs[i]);
      }
    }
  }

  /** The stored routes after provisioning: the new entries, and the old ones they do not replace. */
  lemma ProvisionedRoutesMembers(routes: seq<RouteEntry>, p: Peering, id: Uuid, r: Vpc, a: Vpc)
    requires NoneAlike(routes) && BlocksApart(r, a)
    ensures var es, after := NewEntries(p, id, r, a), ProvisionedRoutes(routes, p, id, r, a);
            && NoneAlike(es) && NoneAlike(after)
            && forall x :: x in after <==> x in es || (x in routes && Untouched(x, es))
  {
    NewEntriesApart(p, id, r, a);
    ProvisionedRoutesAre(routes, p, id, r, a);
    UpsertAllMembers(routes, NewEntries(p, id, r, a));
  }

  lemma NewEntriesShape(p: Peering, id: Uuid, r: Vpc, a: Vpc)
    ensures forall x | x in NewEntries(p, id, r, a) :: x.peering == id && x.origin == Direct
    ensures |NewEntries(p, id, r, a)| == |a.cidrs| + (if p.AlsoRequesterRoutes() then |r.cidrs| else 0)
  {
  }

  lemma RouteOkAfter(x: RouteEntry, routes: seq<RouteEntry>, before: Peerings, after: Peerings)
    requires RoutesOk(routes, before) && x in routes
    requires forall i | i in before :: i in after && (Provisioned(before[i]) ==> Provisioned(after[i]))
    ensures RouteOk(x, after)
  {
    var i :| 0 <= i < |routes| && routes[i] == x;
    assert RouteOk(routes[i], before);
  }

  lemma MembersRoutesOk(routes: seq<RouteEntry>, stored: seq<RouteEntry>, es: seq<RouteEntry>, id: Uuid,
                        before: Peerings, after: Peerings)
    requires RoutesOk(stored, before) && NoneAlike(routes) && forall x | x in routes :: x in es || x in stored
    requires id in after && Provisioned(after[id]) && forall x | x in es :: x.peering == id
    requires forall i | i in before :: i in after && (Provisioned(before[i]) ==> Provisioned(after[i]))
    ensures RoutesOk(routes, after)
  {
    forall x | x in routes ensures RouteOk(x, after) {
      if x !in es { RouteOkAfter(x, stored, before, after); }
    }
    RoutesOkFromMembers(routes, after);
  }

  lemma ProvisionRoutesOk(routes: seq<RouteEntry>, before: Peerings, p: Peering, id: Uuid, r: Vpc, a: Vpc, q: Peering)
    requires RoutesOk(routes, before) && BlocksApart(r, a) && Provisioned(q)
    ensures RoutesOk(ProvisionedRoutes(routes, p, id, r, a), before[id := q])
  {
    ProvisionedRoutesMembers(routes, p, id, r, a);
    NewEntriesShape(p, id, r, a);
    MembersRoutesOk(ProvisionedRoutes(routes, p, id, r, a), routes, NewEntries(p, id, r, a),
                    id, before, before[id := q]);
  }

  // ---- the invariant ----

  lemma ProvisionGraph(s: State, id: Uuid, now: int)
    requires InvGraph(s) && ProvisionRefusal(s, id) == None
    ensures InvGraph(ProvisionPeering(s, id, now).0)
  {
    var p := s.peerings[id];
    assert PeeringWf(p, id, s.vpcs);
    var q := ProvisionedPeering(p, s.vpcs[p.requester], s.vpcs[p.accepter], now);
    ChangeGraph(s, ProvisionPeering(s, id, now).0, q);
  }

  lemma ProvisionEvents(events: seq<Event>, peerings: Peerings, id: Uuid, q: Peering)
    requires EventsOk(events, peerings) && id in peerings && !Provisioned(peerings[id]) && Provisioned(q)
    ensures EventsOk(events + [Event(id, PeeringProvisioned)], peerings[id := q])
  {
    assert Event(id, PeeringProvisioned) !in events;
  }

  lemma ProvisionKeeps(s: State, id: Uuid, now: int)
    requires Inv(s)
    ensures Inv(ProvisionPeering(s, id, now).0)
  {
    if ProvisionRefusal(s, id) == None {
      PeeringEnds(s, id);
      assert PeeringWf(s.peerings[id], id, s.vpcs);
      var p, t := s.peerings[id], ProvisionPeering(s, id, now).0;
      var r, a := s.vpcs[p.requester], s.vpcs[p.accepter];
      var q := ProvisionedPeering(p, r, a, now);
      ProvisionGraph(s, id, now);
      ProvisionImportsAgree(s, t, id, now);
      SameInjection(s.bgp, p, r, a, now);
      ProvisionAdverts(s.bgp, s.peerings, s.vpcs, id, q);
      ProvisionEvents(s.events, s.peerings, id, q);
      ProvisionRoutesOk(s.routes, s.peerings, p, id, r, a, q);
    }
  }

  /** In an invariant state nothing stands in the way of provisioning a waiting peering. */
  lemma ProvisionCannotFail(s: State, id: Uuid)
    requires InvGraph(s) && id in s.peerings && s.peerings[id].state == Provisioning
    ensures ProvisionRefusal(s, id) == None
  {
    assert PeeringWf(s.peerings[id], id, s.vpcs);
  }
}
