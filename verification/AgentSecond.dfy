/** A second agent pass with no drift in between: when it changes nothing, and what it reports. */
module AgentSecond {
  import opened Common
  import opened Prefixes
  import opened Netlink
  import opened Agent
  import opened AgentVrfs
  import opened AgentRoutes
  import opened AgentPass
  import opened AgentTargets
  import opened AgentRepair
  import opened AgentAcls
  import opened AgentOrder
  import opened AgentTheorems

  lemma VrfStageQuiet(h: Host, d: Desired, o: Orders)
    requires HostInv(h) && ValidOrders(h, d, o) && h.vrfs.Keys == VrfNames(d.vrfs)
    ensures AfterVrfs(h, d, o) == Progress(h, EMPTY_REPORT)
  {
    hide HostInv, ListedBy;
    var start := Progress(h, EMPTY_REPORT);
    ListedNames(o.vrfs, o.vrfKeys, h);
    NothingToCreate(start, h.vrfs.Keys, d.vrfs);
    DeleteStaleEffect(start, VrfNames(d.vrfs), o.vrfs, h.vrfs.Keys);
    assert h.vrfs.Keys - VrfNames(d.vrfs) == {};
    WithoutNone(h);
  }

  lemma {:induction false} NothingToCreate(p: Progress, actual: set<string>, want: seq<VrfConfig>)
    requires VrfNames(want) <= actual
    ensures CreateMissing(p, actual, want) == p
    decreases |want|
  {
    if want != [] {
      VrfNamesStep(want);
      NothingToCreate(p, actual, want[1..]);
    }
  }

  // ---- lists that would change nothing ----

  /** Each route is there already, under the key or where it belongs. */
  ghost predicate NothingToAdd(h: Host, k: string, want: seq<RouteConfig>) {
    forall r | r in want && r.vrfName in h.vrfs :: r.prefix in PrefixesAt(h, k) || r.prefix in PrefixesAt(h, r.vrfName)
  }

  /** Meeting key `k` would change nothing: nothing to add, and its VRF has no prefix its list lacks. */
  ghost predicate Settled(h: Host, k: string, want: seq<RouteConfig>) {
    NothingToAdd(h, k, want) && PrefixesAt(h, k) <= PrefixSet(want)
  }

  lemma {:induction false} AddMissingRefused(p: Progress, actual: set<Prefix>, want: seq<RouteConfig>)
    requires forall r | r in want :: r.prefix in actual || AddRouteError(p.host, r).Some?
    ensures var q := AddMissing(p, actual, want);
            && q.host == p.host && OnlyErrors(p.report, q.report)
            && ErrorsGrow(p.report, q.report, PrefixSet(want) <= actual)
    decreases |want|
  {
    if want != [] {
      assert want == [want[0]] + want[1..];
      PrefixSetCons(want);
      AddMissingRefused(if want[0].prefix in actual then p else AddStep(p, want[0]), actual, want[1..]);
    }
  }

  lemma {:induction false} RemoveNothing(p: Progress, k: string, desired: set<Prefix>, actual: seq<RouteConfig>)
    requires PrefixSet(actual) <= desired
    ensures RemoveStale(p, k, desired, actual) == p
    decreases |actual|
  {
    if actual != [] {
      PrefixSetCons(actual);
      RemoveNothing(p, k, desired, actual[1..]);
    }
  }

  lemma SettledRoutesRefused(h: Host, k: string, want: seq<RouteConfig>)
    requires Settled(h, k, want)
    ensures forall r | r in want :: r.prefix in PrefixesAt(h, k) || AddRouteError(h, r).Some?
  {
    forall r | r in want && r.vrfName in h.vrfs && r.prefix !in PrefixesAt(h, k)
      ensures HasPrefix(At(h.routes, r.vrfName), r.prefix)
    {
      HasPrefixMeaning(At(h.routes, r.vrfName), r.prefix);
    }
  }

  lemma RepairSettled(p: Progress, k: string, want: seq<RouteConfig>)
    requires Settled(p.host, k, want)
    ensures var q := RepairVrf(p, k, want);
            && q.host == p.host && OnlyErrors(p.report, q.report)
            && ErrorsGrow(p.report, q.report, PrefixSet(want) <= PrefixesAt(p.host, k))
  {
    hide NothingToAdd, AddMissing, RemoveStale;
    var actual := At(p.host.routes, k);
    SettledRoutesRefused(p.host, k, want);
    AddMissingRefused(p, PrefixSet(actual), want);
    RemoveNothing(AddMissing(p, PrefixSet(actual), want), k, PrefixSet(want), actual);
  }

  /** Every listed prefix is under its key. */
  ghost predicate AllThere(h: Host, keys: seq<string>, want: map<string, seq<RouteConfig>>) {
    forall k | k in keys :: PrefixSet(At(want, k)) <= PrefixesAt(h, k)
  }

  lemma {:induction false} RepairAllSettled(p: Progress, keys: seq<string>, want: map<string, seq<RouteConfig>>)
    requires forall i | 0 <= i < |keys| :: Settled(p.host, keys[i], At(want, keys[i]))
    ensures var q := RepairAll(p, keys, want);
            && q.host == p.host && OnlyErrors(p.report, q.report)
            && ErrorsGrow(p.report, q.report, AllThere(p.host, keys, want))
    decreases |keys|
  {
    hide Settled, RepairVrf, PrefixesAt, PrefixSet;
    if keys != [] {
      assert keys == [keys[0]] + keys[1..];
      RepairSettled(p, keys[0], At(want, keys[0]));
      RepairAllSettled(RepairVrf(p, keys[0], At(want, keys[0])), keys[1..], want);
    }
  }

  // ---- what a pass leaves is settled ----

  /** Once list `k` has been met, a route of it is there or its key has the prefix. */
  lemma {:induction false} TriedOrThere(p: Progress, keys: seq<string>, want: map<string, seq<RouteConfig>>,
                                        k: string, v: string, x: Prefix)
    requires HostInv(p.host) && k in keys && v in p.host.vrfs && Names(At(want, k), v, x)
    requires v in keys ==> x in PrefixSet(At(want, v))
    ensures var q := RepairAll(p, keys, want).host; x in PrefixesAt(q, k) || x in PrefixesAt(q, v)
    decreases |keys|
  {
    hide HostInv, RepairVrf, PrefixesAt, Names, PrefixSet;
    var j, list := keys[0], At(want, keys[0]);
    var next := RepairVrf(p, j, list);
    assert keys == [j] + keys[1..];
    NamedIsListed(At(want, k), v, x);
    Round(p, j, list, v, x);
    Round(p, j, list, k, x);
    if j == k {
      if x in PrefixesAt(p.host, k) {
        StaysIn(next, keys[1..], want, k, x);
      } else {
        StaysIn(next, keys[1..], want, v, x);
      }
    } else {
      TriedOrThere(next, keys[1..], want, k, v, x);
    }
  }

  lemma NothingLeftToAdd(h: Host, d: Desired, o: Orders, k: string)
    requires HostInv(h) && ValidOrders(h, d, o) && NoListedStrays(d) && k in d.routes
    ensures NothingToAdd(Pass(h, d, o).host, k, d.routes[k])
  {
    hide HostInv, ValidOrders, Pass, PrefixesAt, PrefixSet, AfterVrfs;
    var q := Pass(h, d, o).host;
    VrfStageHost(h, d, o);
    RouteStageDecides(h, d, o);
    forall r | r in d.routes[k] && r.vrfName in q.vrfs
      ensures r.prefix in PrefixesAt(q, k) || r.prefix in PrefixesAt(q, r.vrfName)
    {
      assert Names(d.routes[k], r.vrfName, r.prefix);
      TriedOrThere(AfterVrfs(h, d, o), o.routes, d.routes, k, r.vrfName, r.prefix);
      SameRoutes(h, d, o, k);
      SameRoutes(h, d, o, r.vrfName);
    }
  }

  lemma NothingLeftToRemove(h: Host, d: Desired, o: Orders, k: string)
    requires HostInv(h) && ValidOrders(h, d, o) && NoListedStrays(d) && k in d.routes
    ensures PrefixesAt(Pass(h, d, o).host, k) <= PrefixSet(d.routes[k])
  {
    hide HostInv, ValidOrders, Pass, PrefixesAt, PrefixSet, AfterVrfs, NoListedStrays;
    VrfStageHost(h, d, o);
    RouteStageDecides(h, d, o);
    SameRoutes(h, d, o, k);
    if k !in VrfNames(d.vrfs) {
      NothingUnder(Pass(h, d, o).host, k);
    } else {
      forall x | x !in PrefixSet(d.routes[k]) ensures x !in PrefixesAt(Pass(h, d, o).host, k) {
        NobodyStrays(d, o.routes, k, x);
        GetsRemoved(AfterVrfs(h, d, o), o.routes, d.routes, k, x);
      }
    }
  }

  /** The routes and the report of a second pass. */
  lemma SecondPassRoutes(h: Host, d: Desired, o1: Orders, o2: Orders)
    requires HostInv(h) && ValidOrders(h, d, o1) && NoListedStrays(d) && ValidOrders(Pass(h, d, o1).host, d, o2)
    ensures var q := Pass(h, d, o1).host;
            var r := Pass(q, d, o2);
            && HostInv(q) && q.vrfs.Keys == VrfNames(d.vrfs) && r.host.vrfs == q.vrfs && r.host.routes == q.routes
            && r.report == EMPTY_REPORT.(aclsUpdated := CountAcls(o2.acls, d.acls), errors := r.report.errors)
            && (r.report.errors == [] <==> AllThere(q, o2.routes, d.routes))
  {
    hide HostInv, Settled, RepairAll, ProgramAll, AllThere, NoListedStrays;
    var q := Pass(h, d, o1).host;
    var start := Progress(q, EMPTY_REPORT);
    VrfStageHost(h, d, o1);
    RouteStageDecides(h, d, o1);
    VrfStageQuiet(q, d, o2);
    forall i | 0 <= i < |o2.routes| ensures Settled(q, o2.routes[i], At(d.routes, o2.routes[i])) {
      assert o2.routes[i] in o2.routes;
      PassSettles(h, d, o1, o2.routes[i]);
    }
    RepairAllSettled(start, o2.routes, d.routes);
    ProgramAllRest(AfterRoutes(q, d, o2), o2.acls, d.acls);
  }

  lemma PassSettles(h: Host, d: Desired, o: Orders, k: string)
    requires HostInv(h) && ValidOrders(h, d, o) && NoListedStrays(d) && k in d.routes
    ensures Settled(Pass(h, d, o).host, k, d.routes[k])
  {
    hide HostInv, ValidOrders, Pass, PrefixesAt, PrefixSet, NoListedStrays, NothingToAdd;
    NothingLeftToAdd(h, d, o, k);
    NothingLeftToRemove(h, d, o, k);
  }

  /** What is met for a VRF is met in any order of the keys. */
  lemma {:induction false} MetMeans(keys: seq<string>, want: AclLists, v: string, c: AclConfig)
    ensures c in Gathered(keys, want, v) <==> exists k | k in keys :: c in ForVrf(At(want, k), v)
  {
    if keys != [] {
      assert keys == [keys[0]] + keys[1..];
      MetMeans(keys[1..], want, v, c);
      assert c in ForVrf(At(want, keys[0]), v) ==> keys[0] in keys;
      if k :| k in keys && c in ForVrf(At(want, k), v) && k != keys[0] {
        assert k in keys[1..];
      }
    }
  }

  lemma SameIdsMet(keys1: seq<string>, keys2: seq<string>, want: AclLists, v: string)
    requires Enumerates(keys1, want.Keys) && Enumerates(keys2, want.Keys)
    ensures PeeringIds(Gathered(keys1, want, v)) == PeeringIds(Gathered(keys2, want, v))
  {
    forall c ensures c in Gathered(keys1, want, v) <==> c in Gathered(keys2, want, v) {
      MetMeans(keys1, want, v, c);
      MetMeans(keys2, want, v, c);
    }
  }

  /** Whatever the first pass met, the ACL lists after the second are those of its own order. */
  lemma SecondPassTakesOver(h: Host, d: Desired, o1: Orders, o2: Orders, other: Orders, v: string)
    requires HostInv(h) && ValidOrders(h, d, o1) && ValidOrders(Pass(h, d, o1).host, d, o2)
    requires ValidOrders(h, d, other) && other.acls == o2.acls
    ensures At(Pass(Pass(h, d, o1).host, d, o2).host.acls, v) == At(Pass(h, d, other).host.acls, v)
  {
    hide HostInv, Pass, Gathered, Foreign, LastOfEach, PeeringIds, Enumerates;
    var q, kept := Pass(h, d, o1).host, KeptAcls(h, d, v);
    var met1, met2 := Gathered(o1.acls, d.acls, v), Gathered(o2.acls, d.acls, v);
    PassLeavesInv(h, d, o1);
    PassAcls(h, d, o1, v);
    PassAcls(q, d, o2, v);
    PassAcls(h, d, other, v);
    SameIdsMet(o1.acls, o2.acls, d.acls, v);
    var ids := PeeringIds(met1);
    ForeignConcat(Foreign(kept, ids), LastOfEach(met1), ids);
    ForeignTwice(kept, ids);
    NoneForeign(met1, ids);
  }

  lemma SecondPassAcls(h: Host, d: Desired, o1: Orders, o2: Orders, v: string)
    requires HostInv(h) && ValidOrders(h, d, o1) && AclsNested(d) && ValidOrders(Pass(h, d, o1).host, d, o2)
    ensures At(Pass(Pass(h, d, o1).host, d, o2).host.acls, v) == At(Pass(h, d, o1).host.acls, v)
  {
    hide HostInv, ValidOrders, Pass, AclsNested;
    var other := SameOrdersFor(h, Pass(h, d, o1).host, d, o2);
    SecondPassTakesOver(h, d, o1, o2, other, v);
    NestedAclsIgnoreOrder(h, d, o1, other);
  }

  /** The orders of one table's pass, for the pass over another table. */
  lemma SameOrdersFor(h: Host, g: Host, d: Desired, o: Orders) returns (p: Orders)
    requires ValidOrders(g, d, o)
    ensures ValidOrders(h, d, p) && p.acls == o.acls
  {
    p := SomeOrders(h, d, o.routes, o.acls);
  }

  lemma PassLeavesInv(h: Host, d: Desired, o: Orders)
    requires HostInv(h) && ValidOrders(h, d, o)
    ensures HostInv(Pass(h, d, o).host) && Pass(h, d, o).host.vrfs.Keys == VrfNames(d.vrfs)
  {
    hide HostInv, ValidOrders;
    VrfStageHost(h, d, o);
    RouteStageDecides(h, d, o);
  }

  /**
   * A second pass with no drift in between creates, deletes, adds and removes nothing, even if the
   * desired lists contain repeats; VRFs, routes and every ACL list stay as they are. It has an error
   * exactly when a listed prefix is not under its key, which for well-targeted lists means that a
   * list under a name that is no desired VRF is not empty.
   */
  lemma SecondPassChangesNothing(h: Host, d: Desired, o1: Orders, o2: Orders)
    requires HostInv(h) && ValidOrders(h, d, o1) && NoListedStrays(d) && AclsNested(d)
    requires ValidOrders(Pass(h, d, o1).host, d, o2)
    ensures var q := Pass(h, d, o1).host;
            var r := Pass(q, d, o2);
            && r.host.vrfs == q.vrfs && r.host.routes == q.routes && SameTable(r.host, q)
            && r.report == Report(0, 0, 0, 0, |AclConfigs(d.acls)|, r.report.errors)
            && (r.report.errors == [] <==> forall k | k in d.routes :: PrefixSet(d.routes[k]) <= PrefixesAt(q, k))
            && (WellTargeted(d) ==>
                  (r.report.errors == [] <==> forall k | k in d.routes && k !in VrfNames(d.vrfs) :: d.routes[k] == []))
  {
    hide HostInv, Pass, WellTargeted, AclsNested, NoListedStrays, PrefixSet, PrefixesAt;
    SecondPassRoutes(h, d, o1, o2);
    var q := Pass(h, d, o1).host;
    AclsCounted(q, d, o2);
    assert forall k :: k in o2.routes <==> k in d.routes.Keys;
    forall v ensures At(Pass(q, d, o2).host.acls, v) == At(q.acls, v) {
      SecondPassAcls(h, d, o1, o2, v);
    }
    if WellTargeted(d) {
      forall k | k in d.routes
        ensures PrefixSet(d.routes[k]) <= PrefixesAt(q, k) <==> (k !in VrfNames(d.vrfs) ==> d.routes[k] == [])
      {
        ThereUnlessNoVrf(h, d, o1, k);
      }
    }
  }

  lemma ThereUnlessNoVrf(h: Host, d: Desired, o: Orders, k: string)
    requires HostInv(h) && ValidOrders(h, d, o) && WellTargeted(d) && k in d.routes
    ensures PrefixSet(d.routes[k]) <= PrefixesAt(Pass(h, d, o).host, k)
            <==> (k !in VrfNames(d.vrfs) ==> d.routes[k] == [])
  {
    hide HostInv, ValidOrders, Pass, WellTargeted;
    PassRepairsDrift(h, d, o);
    if k !in VrfNames(d.vrfs) {
      NothingUnder(Pass(h, d, o).host, k);
      if d.routes[k] != [] { assert d.routes[k][0].prefix in PrefixSet(d.routes[k]); }
    }
  }

  // ---- nothing less will do ----

  /** From every table and in any orders, a second pass leaves the table as the first one did. */
  ghost predicate SecondPassStill(d: Desired) {
    forall h, o1, o2 | HostInv(h) && ValidOrders(h, d, o1) && ValidOrders(Pass(h, d, o1).host, d, o2) ::
      SameTable(Pass(Pass(h, d, o1).host, d, o2).host, Pass(h, d, o1).host)
  }

  /** A stray that a first pass leaves in place is taken away by a second one that meets its VRF last. */
  lemma StrayMovesAgain(d: Desired) returns (h: Host, o1: Orders, o2: Orders)
    requires !NoListedStrays(d)
    ensures HostInv(h) && ValidOrders(h, d, o1) && ValidOrders(Pass(h, d, o1).host, d, o2)
    ensures !SameTable(Pass(Pass(h, d, o1).host, d, o2).host, Pass(h, d, o1).host)
  {
    hide HostInv, ValidOrders, Pass, NoListedStrays, PrefixSet;
    h := EMPTY_HOST;
    var unused, v, x;
    o1, unused, v, x := StrayDependsOnOrder(d);
    var q := Pass(h, d, o1).host;
    PassLeavesInv(h, d, o1);
    var last := OrderTo(v, d.routes.Keys);
    var acls := SomeOrder(d.acls.Keys);
    o2 := SomeOrders(q, d, last, acls);
    MetLastLoses(q, d, o2, v, x);
  }

  lemma AclsMoveAgain(d: Desired) returns (h: Host, o1: Orders, o2: Orders)
    requires !AclsNested(d)
    ensures HostInv(h) && ValidOrders(h, d, o1) && ValidOrders(Pass(h, d, o1).host, d, o2)
    ensures !SameTable(Pass(Pass(h, d, o1).host, d, o2).host, Pass(h, d, o1).host)
  {
    hide HostInv, ValidOrders, Pass, AclsNested;
    var other;
    h, o1, other := OrderMatters(d);
    var q := Pass(h, d, o1).host;
    o2 := SameOrdersFor(q, h, d, other);
    forall v ensures At(Pass(q, d, o2).host.acls, v) == At(Pass(h, d, other).host.acls, v) {
      SecondPassTakesOver(h, d, o1, o2, other, v);
    }
  }

  /**
   * Passes are idempotent, on every reachable table and in all map orders, exactly when no route
   * strays to a VRF whose list lacks its prefix and the ACL lists are nested.
   */
  lemma SecondPassStillExactly(d: Desired)
    ensures SecondPassStill(d) <==> NoListedStrays(d) && AclsNested(d)
  {
    hide HostInv, ValidOrders, Pass, SameTable, NoListedStrays, AclsNested;
    if NoListedStrays(d) && AclsNested(d) {
      forall h, o1, o2 | HostInv(h) && ValidOrders(h, d, o1) && ValidOrders(Pass(h, d, o1).host, d, o2)
        ensures SameTable(Pass(Pass(h, d, o1).host, d, o2).host, Pass(h, d, o1).host)
      {
        SecondPassChangesNothing(h, d, o1, o2);
      }
    } else if !NoListedStrays(d) {
      var h, o1, o2 := StrayMovesAgain(d);
    } else {
      var h, o1, o2 := AclsMoveAgain(d);
    }
  }
}
