/** What a pass makes of every VRF's prefixes, and when that does not depend on map order. */
module AgentOrder {
  import opened Common
  import opened Prefixes
  import opened Netlink
  import opened Agent
  import opened AgentRoutes
  import opened AgentTargets
  import opened AgentRepair

  /** No route is for a VRF whose own list lacks its prefix. */
  ghost predicate NoListedStrays(d: Desired) {
    forall k, r | k in d.routes && r in d.routes[k] && r.vrfName in VrfNames(d.vrfs) && r.vrfName in d.routes ::
      r.prefix in PrefixSet(d.routes[r.vrfName])
  }

  /** While list `j` names (k, x) and list `k` names (v, x), whichever is met first decides about (v, x). */
  ghost predicate Race(d: Desired, v: string, k: string, j: string, x: Prefix) {
    && v in VrfNames(d.vrfs) && k in VrfNames(d.vrfs) && k in d.routes && j in d.routes && k != v && j != k
    && Names(d.routes[k], v, x) && Names(d.routes[j], k, x)
    && !Names(d.routes[j], v, x) && !Reached(d, v, x)
  }

  ghost predicate OrderFree(d: Desired) {
    NoListedStrays(d) && forall v, k, j, x :: !Race(d, v, k, j, x)
  }

  lemma WellTargetedIsOrderFree(d: Desired)
    requires WellTargeted(d)
    ensures OrderFree(d)
  {
    forall v, k, j, x ensures !Race(d, v, k, j, x) {
      if Race(d, v, k, j, x) {
        var r :| r in d.routes[k] && r.vrfName == v && r.prefix == x;
      }
    }
  }

  // ---- what a pass makes of the prefixes ----

  /** The prefixes a pass starts from: VRFs that are not desired have been deleted. */
  ghost function StartAt(h: Host, d: Desired, v: string): set<Prefix> {
    if v in VrfNames(d.vrfs) then PrefixesAt(h, v) else {}
  }

  /** Some list names (v, x) and its own VRF lacks `x` at the start. */
  ghost predicate Brought(h: Host, d: Desired, v: string, x: Prefix) {
    exists k | k in d.routes :: Names(d.routes[k], v, x) && x !in StartAt(h, d, k)
  }

  /** `x` was there or is brought, and the VRF's own list, if any, has it. */
  ghost predicate Outcome(h: Host, d: Desired, v: string, x: Prefix) {
    && v in VrfNames(d.vrfs) && (v in d.routes ==> x in PrefixSet(d.routes[v]))
    && (x in PrefixesAt(h, v) || Brought(h, d, v, x))
  }

  lemma StartOfLoop(h: Host, d: Desired, o: Orders, v: string)
    requires HostInv(h) && ValidOrders(h, d, o)
    ensures PrefixesAt(AfterVrfs(h, d, o).host, v) == StartAt(h, d, v)
  {
    hide HostInv, ValidOrders;
    VrfStageLists(h, d, o, v);
  }

  lemma NobodyStrays(d: Desired, keys: seq<string>, v: string, x: Prefix)
    requires NoListedStrays(d) && v in VrfNames(d.vrfs) && v in d.routes && x !in PrefixSet(d.routes[v])
    ensures NobodyNames(keys, d.routes, v, x)
  {
    forall k, r | k in d.routes && r in d.routes[k] && r.vrfName == v ensures r.prefix != x {
    }
  }

  /** Without a race, the list that starts without `x` brings it, or one that held it off has. */
  lemma {:induction false} RaceWon(p: Progress, keys: seq<string>, d: Desired, k: string, v: string, x: Prefix)
    requires HostInv(p.host) && p.host.vrfs.Keys == VrfNames(d.vrfs) && v in p.host.vrfs && k in p.host.vrfs && k != v
    requires (forall j | j in keys :: j in d.routes) && (v in keys ==> x in PrefixSet(At(d.routes, v)))
    requires k in keys && Names(At(d.routes, k), v, x) && x !in PrefixesAt(p.host, k)
    requires !Reached(d, v, x) && forall j :: !Race(d, v, k, j, x)
    ensures x in PrefixesAt(RepairAll(p, keys, d.routes).host, v)
    decreases |keys|
  {
    hide HostInv, RepairVrf, PrefixesAt, Names, PrefixSet, Reached;
    var j, list := keys[0], At(d.routes, keys[0]);
    var next := RepairVrf(p, j, list);
    assert keys == [j] + keys[1..];
    Round(p, j, list, v, x);
    Round(p, j, list, k, x);
    assert !Race(d, v, k, j, x);
    if x in PrefixesAt(next.host, v) {
      StaysIn(next, keys[1..], d.routes, v, x);
    } else {
      RaceWon(next, keys[1..], d, k, v, x);
    }
  }

  lemma BroughtArrives(h: Host, d: Desired, o: Orders, k: string, v: string, x: Prefix)
    requires HostInv(h) && ValidOrders(h, d, o) && OrderFree(d)
    requires v in VrfNames(d.vrfs) && (v in d.routes ==> x in PrefixSet(d.routes[v]))
    requires k in d.routes && Names(d.routes[k], v, x) && x !in StartAt(h, d, k)
    ensures x in PrefixesAt(Pass(h, d, o).host, v)
  {
    hide HostInv, ValidOrders, PrefixesAt, Names, PrefixSet, Race;
    VrfStageHost(h, d, o);
    RouteStageDecides(h, d, o);
    StartOfLoop(h, d, o, k);
    var a := AfterVrfs(h, d, o);
    if Reached(d, v, x) {
      var j :| j in d.routes && (j == v || j !in VrfNames(d.vrfs)) && Names(d.routes[j], v, x);
      GetsAdded(a, o.routes, d.routes, j, v, x);
    } else {
      RaceWon(a, o.routes, d, k, v, x);
    }
    SameRoutes(h, d, o, v);
  }

  lemma SameRoutes(h: Host, d: Desired, o: Orders, v: string)
    requires HostInv(h) && ValidOrders(h, d, o)
    ensures PrefixesAt(Pass(h, d, o).host, v) == PrefixesAt(AfterRoutes(h, d, o).host, v)
  {
    hide HostInv, ValidOrders;
    RouteStageDecides(h, d, o);
  }

  lemma NotBroughtHeldOff(h: Host, d: Desired, o: Orders, v: string, x: Prefix)
    requires HostInv(h) && ValidOrders(h, d, o) && !Brought(h, d, v, x)
    ensures HeldOff(AfterVrfs(h, d, o).host, o.routes, d.routes, v, x)
  {
    hide HostInv, PrefixesAt, Names;
    forall i | 0 <= i < |o.routes|
      ensures !Names(At(d.routes, o.routes[i]), v, x) || x in PrefixesAt(AfterVrfs(h, d, o).host, o.routes[i])
    {
      assert o.routes[i] in o.routes;
      StartOfLoop(h, d, o, o.routes[i]);
    }
  }

  /** Where nothing strays and nothing races, this is all there is to a pass over the routes. */
  lemma PassOutcome(h: Host, d: Desired, o: Orders, v: string, x: Prefix)
    requires HostInv(h) && ValidOrders(h, d, o) && OrderFree(d)
    ensures x in PrefixesAt(Pass(h, d, o).host, v) <==> Outcome(h, d, v, x)
  {
    hide HostInv, ValidOrders, PrefixesAt, Names, PrefixSet, Race, NoListedStrays;
    VrfStageHost(h, d, o);
    RouteStageDecides(h, d, o);
    StartOfLoop(h, d, o, v);
    SameRoutes(h, d, o, v);
    var a := AfterVrfs(h, d, o);
    if v !in VrfNames(d.vrfs) {
      NothingUnder(Pass(h, d, o).host, v);
    } else if v in d.routes && x !in PrefixSet(d.routes[v]) {
      NobodyStrays(d, o.routes, v, x);
      GetsRemoved(a, o.routes, d.routes, v, x);
    } else if x in PrefixesAt(h, v) {
      StaysIn(a, o.routes, d.routes, v, x);
    } else if Brought(h, d, v, x) {
      var k :| k in d.routes && Names(d.routes[k], v, x) && x !in StartAt(h, d, k);
      BroughtArrives(h, d, o, k, v, x);
    } else {
      NotBroughtHeldOff(h, d, o, v, x);
      StaysOut(a, o.routes, d.routes, v, x);
    }
  }

  ghost predicate SamePrefixes(a: Host, b: Host) {
    forall v :: PrefixesAt(a, v) == PrefixesAt(b, v)
  }

  lemma OrderFreeIgnoresOrder(h: Host, d: Desired, o1: Orders, o2: Orders)
    requires HostInv(h) && OrderFree(d) && ValidOrders(h, d, o1) && ValidOrders(h, d, o2)
    ensures SamePrefixes(Pass(h, d, o1).host, Pass(h, d, o2).host)
  {
    hide HostInv, ValidOrders, Pass, PrefixesAt, Outcome, OrderFree;
    var q1, q2 := Pass(h, d, o1).host, Pass(h, d, o2).host;
    forall v ensures PrefixesAt(q1, v) == PrefixesAt(q2, v) {
      forall x ensures x in PrefixesAt(q1, v) <==> x in PrefixesAt(q2, v) {
        PassOutcome(h, d, o1, v, x);
        PassOutcome(h, d, o2, v, x);
      }
    }
  }

  // ---- orders that differ ----

  /** A VRF whose list is met last ends without the prefixes it lacks. */
  lemma MetLastLoses(h: Host, d: Desired, o: Orders, v: string, x: Prefix)
    requires HostInv(h) && ValidOrders(h, d, o) && o.routes != [] && o.routes[|o.routes| - 1] == v
    requires v in d.routes && x !in PrefixSet(d.routes[v])
    ensures x !in PrefixesAt(Pass(h, d, o).host, v)
  {
    hide HostInv, ValidOrders, PrefixesAt, Names, PrefixSet, RepairVrf, RepairAll, VrfPhase;
    var a, before := AfterVrfs(h, d, o), o.routes[..|o.routes| - 1];
    assert o.routes == before + [v];
    VrfStageHost(h, d, o);
    SameRoutes(h, d, o, v);
    RepairAllSnoc(a, before, v, d.routes);
    LoopKeepsRest(a, before, d.routes);
    Round(RepairAll(a, before, d.routes), v, d.routes[v], v, x);
    if Names(d.routes[v], v, x) { NamedIsListed(d.routes[v], v, x); }
  }

  /** A listed stray: two orders, one with the VRF's list right before the stray's and one with it last. */
  lemma StrayDependsOnOrder(d: Desired) returns (o1: Orders, o2: Orders, v: string, x: Prefix)
    requires !NoListedStrays(d)
    ensures ValidOrders(EMPTY_HOST, d, o1) && ValidOrders(EMPTY_HOST, d, o2) && HostInv(EMPTY_HOST)
    ensures v in d.routes && x !in PrefixSet(d.routes[v])
    ensures x in PrefixesAt(Pass(EMPTY_HOST, d, o1).host, v) && x !in PrefixesAt(Pass(EMPTY_HOST, d, o2).host, v)
  {
    hide HostInv, ValidOrders, PrefixesAt, PrefixSet, Pass;
    var k, r :| k in d.routes && r in d.routes[k] && r.vrfName in VrfNames(d.vrfs) && r.vrfName in d.routes
                && r.prefix !in PrefixSet(d.routes[r.vrfName]);
    v, x := r.vrfName, r.prefix;
    assert Names(d.routes[k], v, x);
    if k == v { NamedIsListed(d.routes[v], v, x); }
    var routes := OrderFrom([v, k], d.routes.Keys);
    var last := OrderTo(v, d.routes.Keys);
    var acls := SomeOrder(d.acls.Keys);
    o1 := SomeOrders(EMPTY_HOST, d, routes, acls);
    o2 := SomeOrders(EMPTY_HOST, d, last, acls);
    NoRoutesYet(d, o1, v);
    StrayArrives(d, o1, k, v, x);
    SameRoutes(EMPTY_HOST, d, o1, v);
    MetLastLoses(EMPTY_HOST, d, o2, v, x);
  }

  lemma HasOutsideMeans(d: Desired, skip: set<string>, x: Prefix, k: string)
    ensures HostInv(HasOutside(d, skip, x))
    ensures x in StartAt(HasOutside(d, skip, x), d, k) <==> k in VrfNames(d.vrfs) - skip
  {
    var h := HasOutside(d, skip, x);
    if k in VrfNames(d.vrfs) - skip {
      assert At(h.routes, k)[0].prefix == x && At(h.routes, k)[0] in At(h.routes, k);
    }
  }

  /** The host on which the race is open: `v`, `k` and `j` lack the prefix, all others have it. */
  function Open(d: Desired, v: string, k: string, j: string, x: Prefix): Host {
    HasOutside(d, {v, k, j}, x)
  }

  /** List `k` first: it brings `x` to `v`, where it stays. */
  lemma RunnerFirst(d: Desired, o: Orders, v: string, k: string, j: string, x: Prefix)
    requires Race(d, v, k, j, x) && NoListedStrays(d)
    requires ValidOrders(Open(d, v, k, j, x), d, o) && o.routes != [] && o.routes[0] == k
    ensures x in PrefixesAt(Pass(Open(d, v, k, j, x), d, o).host, v)
  {
    hide HostInv, ValidOrders, PrefixesAt, PrefixSet, Pass, Names, RepairVrf, AfterVrfs, Open;
    var h := Open(d, v, k, j, x);
    OpenMeans(d, v, k, j, x, k);
    VrfStageHost(h, d, o);
    StartOfLoop(h, d, o, k);
    SameRoutes(h, d, o, v);
    var a := AfterVrfs(h, d, o);
    Round(a, k, d.routes[k], v, x);
    RouteStageDecides(h, d, o);
    assert o.routes == [k] + o.routes[1..];
    ListHasWhatIsNamed(d, k, v, x);
    StaysIn(RepairVrf(a, k, d.routes[k]), o.routes[1..], d.routes, v, x);
  }

  lemma ListHasWhatIsNamed(d: Desired, k: string, v: string, x: Prefix)
    requires NoListedStrays(d) && k in d.routes && Names(d.routes[k], v, x) && v in VrfNames(d.vrfs)
    ensures v in d.routes ==> x in PrefixSet(At(d.routes, v))
  {
  }

  lemma OpenMeans(d: Desired, v: string, k: string, j: string, x: Prefix, m: string)
    ensures HostInv(Open(d, v, k, j, x))
    ensures x in StartAt(Open(d, v, k, j, x), d, m) <==> m in VrfNames(d.vrfs) - {v, k, j}
  {
    HasOutsideMeans(d, {v, k, j}, x, m);
  }

  /** List `j` first, then `k`: `k` has the prefix by then, so that nobody brings it to `v`. */
  lemma BlockerFirst(d: Desired, o: Orders, v: string, k: string, j: string, x: Prefix)
    requires Race(d, v, k, j, x)
    requires ValidOrders(Open(d, v, k, j, x), d, o) && o.routes != [] && o.routes[0] == j
    ensures x !in PrefixesAt(Pass(Open(d, v, k, j, x), d, o).host, v)
  {
    hide HostInv, ValidOrders, PrefixesAt, PrefixSet, Pass, Names, RepairVrf, AfterVrfs, Open, HeldOff;
    var h := Open(d, v, k, j, x);
    OpenMeans(d, v, k, j, x, v);
    VrfStageHost(h, d, o);
    RouteStageDecides(h, d, o);
    StartOfLoop(h, d, o, v);
    SameRoutes(h, d, o, v);
    var a := AfterVrfs(h, d, o);
    Round(a, j, d.routes[j], v, x);
    AllBlocked(d, o, v, k, j, x);
    StaysOut(RepairVrf(a, j, d.routes[j]), o.routes[1..], d.routes, v, x);
  }

  lemma AllBlocked(d: Desired, o: Orders, v: string, k: string, j: string, x: Prefix)
    requires Race(d, v, k, j, x)
    requires ValidOrders(Open(d, v, k, j, x), d, o) && o.routes != [] && o.routes[0] == j
    ensures var q := RepairVrf(AfterVrfs(Open(d, v, k, j, x), d, o), j, d.routes[j]).host;
            HeldOff(q, o.routes[1..], d.routes, v, x)
  {
    hide HostInv, ValidOrders, PrefixesAt, PrefixSet, Names, RepairVrf, AfterVrfs, Open;
    var h := Open(d, v, k, j, x);
    var a := AfterVrfs(h, d, o);
    OpenMeans(d, v, k, j, x, j);
    VrfStageHost(h, d, o);
    RouteStageDecides(h, d, o);
    StartOfLoop(h, d, o, j);
    var q, rest := RepairVrf(a, j, d.routes[j]).host, o.routes[1..];
    forall i | 0 <= i < |rest| ensures !Names(At(d.routes, rest[i]), v, x) || x in PrefixesAt(q, rest[i]) {
      var m := rest[i];
      assert m == o.routes[i + 1] && m in o.routes && m != j;
      Round(a, j, d.routes[j], m, x);
      OpenMeans(d, v, k, j, x, m);
      StartOfLoop(h, d, o, m);
      if Names(At(d.routes, m), v, x) && m != k {
        assert m != v && m in VrfNames(d.vrfs);
      }
    }
  }

  lemma RaceDependsOnOrder(d: Desired, v: string, k: string, j: string, x: Prefix)
    returns (h: Host, o1: Orders, o2: Orders)
    requires Race(d, v, k, j, x) && NoListedStrays(d)
    ensures HostInv(h) && ValidOrders(h, d, o1) && ValidOrders(h, d, o2)
    ensures x in PrefixesAt(Pass(h, d, o1).host, v) && x !in PrefixesAt(Pass(h, d, o2).host, v)
  {
    hide HostInv, ValidOrders, PrefixesAt, Pass, Open, NoListedStrays;
    h := Open(d, v, k, j, x);
    OpenMeans(d, v, k, j, x, v);
    var kFirst := OrderFrom([k], d.routes.Keys);
    var jFirst := OrderFrom([j], d.routes.Keys);
    var acls := SomeOrder(d.acls.Keys);
    o1 := SomeOrders(h, d, kFirst, acls);
    o2 := SomeOrders(h, d, jFirst, acls);
    assert kFirst[0] == kFirst[..1][0] && jFirst[0] == jFirst[..1][0];
    RunnerFirst(d, o1, v, k, j, x);
    BlockerFirst(d, o2, v, k, j, x);
  }

  /** On every table any two map orders leave every VRF with the same prefixes. */
  ghost predicate PrefixesIgnoreOrder(d: Desired) {
    forall h, o1, o2 | HostInv(h) && ValidOrders(h, d, o1) && ValidOrders(h, d, o2) ::
      SamePrefixes(Pass(h, d, o1).host, Pass(h, d, o2).host)
  }

  /**
   * The prefixes that a pass leaves are the same in any two map orders, on every reachable table,
   * exactly when no route strays to a VRF whose list lacks its prefix and no two lists race.
   */
  lemma PrefixesIgnoreOrderExactlyWhenOrderFree(d: Desired)
    ensures PrefixesIgnoreOrder(d) <==> OrderFree(d)
  {
    hide HostInv, ValidOrders, Pass, SamePrefixes, NoListedStrays, Race;
    if OrderFree(d) {
      forall h, o1, o2 | HostInv(h) && ValidOrders(h, d, o1) && ValidOrders(h, d, o2)
        ensures SamePrefixes(Pass(h, d, o1).host, Pass(h, d, o2).host)
      {
        OrderFreeIgnoresOrder(h, d, o1, o2);
      }
    } else {
      var h, o1, o2 := RouteOrderMatters(d);
    }
  }

  lemma RouteOrderMatters(d: Desired) returns (h: Host, o1: Orders, o2: Orders)
    requires !OrderFree(d)
    ensures HostInv(h) && ValidOrders(h, d, o1) && ValidOrders(h, d, o2)
    ensures !SamePrefixes(Pass(h, d, o1).host, Pass(h, d, o2).host)
  {
    hide HostInv, ValidOrders, Pass, PrefixesAt, NoListedStrays, Race;
    if !NoListedStrays(d) {
      var v, x;
      h := EMPTY_HOST;
      o1, o2, v, x := StrayDependsOnOrder(d);
    } else {
      var v, k, j, x :| Race(d, v, k, j, x);
      h, o1, o2 := RaceDependsOnOrder(d, v, k, j, x);
    }
  }
}
