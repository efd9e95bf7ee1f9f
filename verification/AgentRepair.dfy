/** One agent pass repairs any drift, exactly when the desired routes are well targeted. */
module AgentRepair {
  import opened Common
  import opened Prefixes
  import opened Netlink
  import opened Agent
  import opened AgentVrfs
  import opened AgentRoutes
  import opened AgentPass
  import opened AgentTargets

  // ---- the three stages of a pass ----

  function AfterVrfs(h: Host, d: Desired, o: Orders): Progress {
    VrfPhase(Progress(h, EMPTY_REPORT), d, o.vrfs)
  }

  function AfterRoutes(h: Host, d: Desired, o: Orders): Progress {
    RepairAll(AfterVrfs(h, d, o), o.routes, d.routes)
  }

  lemma VrfStageLists(h: Host, d: Desired, o: Orders, k: string)
    requires HostInv(h) && ValidOrders(h, d, o)
    ensures At(AfterVrfs(h, d, o).host.routes, k) == if k in VrfNames(d.vrfs) then At(h.routes, k) else []
    ensures At(AfterVrfs(h, d, o).host.acls, k) == if k in h.vrfs && k !in VrfNames(d.vrfs) then [] else At(h.acls, k)
  {
    VrfPhaseHost(h, d, o.vrfs, o.vrfKeys);
  }

  lemma OrdersDistinct(keys: seq<string>, ks: set<string>)
    requires Enumerates(keys, ks)
    ensures Distinct(keys)
  {
  }

  // ---- repair ----

  /**
   * What a pass is for: the VRF names become exactly the desired ones, new VRFs are as first desired
   * and old ones as they were, every desired VRF with a route list holds exactly the listed prefixes,
   * and a desired VRF without one keeps its routes.
   */
  ghost predicate Repairs(h: Host, d: Desired, o: Orders) {
    var q := Pass(h, d, o).host;
    && HostInv(q)
    && q.vrfs.Keys == VrfNames(d.vrfs)
    && (forall n | n in h.vrfs && n in VrfNames(d.vrfs) :: q.vrfs[n] == h.vrfs[n])
    && (forall n | n in VrfNames(d.vrfs) && n !in h.vrfs :: FirstNamed(d.vrfs, n, q.vrfs[n]))
    && (forall k | k in d.routes && k in VrfNames(d.vrfs) :: PrefixesAt(q, k) == PrefixSet(d.routes[k]))
    && (forall k | k in VrfNames(d.vrfs) && k !in d.routes :: At(q.routes, k) == At(h.routes, k))
  }

  /** A route that names a desired VRF is for a prefix that VRF's own list has too. */
  ghost predicate NoStrays(d: Desired) {
    forall k, r | k in d.routes && r in d.routes[k] && r.vrfName in VrfNames(d.vrfs) ::
      r.vrfName in d.routes && r.prefix in PrefixSet(d.routes[r.vrfName])
  }

  /** The list under the VRF's own name, or one under a name that is no desired VRF, names (v, x). */
  ghost predicate Reached(d: Desired, v: string, x: Prefix) {
    exists k | k in d.routes :: (k == v || k !in VrfNames(d.vrfs)) && Names(d.routes[k], v, x)
  }

  ghost predicate AllReached(d: Desired) {
    forall v, x | v in d.routes && v in VrfNames(d.vrfs) && x in PrefixSet(d.routes[v]) :: Reached(d, v, x)
  }

  ghost predicate WellTargeted(d: Desired) {
    NoStrays(d) && AllReached(d)
  }

  /** Lists whose routes all carry their key are well targeted. */
  lemma KeyedIsWellTargeted(d: Desired)
    requires RoutesKeyed(d)
    ensures WellTargeted(d)
  {
    forall k, r | k in d.routes && r in d.routes[k] ensures r.vrfName == k && Names(d.routes[k], k, r.prefix) {
      assert KeyedBy(d.routes[k], k);
      var i :| 0 <= i < |d.routes[k]| && d.routes[k][i] == r;
    }
  }

  lemma VrfStageHost(h: Host, d: Desired, o: Orders)
    requires HostInv(h) && ValidOrders(h, d, o)
    ensures var a := AfterVrfs(h, d, o).host;
            && HostInv(a) && a.vrfs.Keys == VrfNames(d.vrfs)
            && (forall n | n in h.vrfs && n in VrfNames(d.vrfs) :: a.vrfs[n] == h.vrfs[n])
            && (forall n | n in VrfNames(d.vrfs) && n !in h.vrfs :: FirstNamed(d.vrfs, n, a.vrfs[n]))
  {
    VrfPhaseHost(h, d, o.vrfs, o.vrfKeys);
  }

  /** After the VRF stage, the table and routes that the rest of the pass leaves are those of the route loop. */
  lemma RouteStageDecides(h: Host, d: Desired, o: Orders)
    requires HostInv(h) && ValidOrders(h, d, o)
    ensures var a, b, q := AfterVrfs(h, d, o).host, AfterRoutes(h, d, o).host, Pass(h, d, o).host;
            && HostInv(q) && q.vrfs == a.vrfs && q.routes == b.routes && b.acls == a.acls
            && Distinct(o.routes) && (forall k :: k in o.routes <==> k in d.routes)
  {
    hide HostInv;
    VrfStageHost(h, d, o);
    LoopKeepsRest(AfterVrfs(h, d, o), o.routes, d.routes);
    ProgramAllKeepsInv(AfterRoutes(h, d, o), o.acls, d.acls);
    ProgramAllRest(AfterRoutes(h, d, o), o.acls, d.acls);
    OrdersDistinct(o.routes, d.routes.Keys);
  }

  lemma NoStrayNames(d: Desired, keys: seq<string>, v: string, x: Prefix)
    requires NoStrays(d) && v in VrfNames(d.vrfs) && v in d.routes && x !in PrefixSet(d.routes[v])
    ensures NobodyNames(keys, d.routes, v, x)
  {
    forall k, r | k in d.routes && r in d.routes[k] && r.vrfName == v ensures r.prefix != x {
    }
  }

  /** A listed VRF ends with exactly its listed prefixes. */
  lemma ListedVrfRepaired(h: Host, d: Desired, o: Orders, v: string, x: Prefix)
    requires HostInv(h) && ValidOrders(h, d, o) && WellTargeted(d) && v in d.routes && v in VrfNames(d.vrfs)
    ensures x in PrefixesAt(Pass(h, d, o).host, v) <==> x in PrefixSet(d.routes[v])
  {
    hide HostInv, ValidOrders, Names, PrefixSet, NoStrays;
    VrfStageHost(h, d, o);
    RouteStageDecides(h, d, o);
    var a := AfterVrfs(h, d, o);
    if x in PrefixSet(d.routes[v]) {
      assert Reached(d, v, x);
      var k :| k in d.routes && (k == v || k !in VrfNames(d.vrfs)) && Names(d.routes[k], v, x);
      GetsAdded(a, o.routes, d.routes, k, v, x);
    } else {
      NoStrayNames(d, o.routes, v, x);
      GetsRemoved(a, o.routes, d.routes, v, x);
    }
  }

  lemma UnlistedVrfKept(h: Host, d: Desired, o: Orders, v: string)
    requires HostInv(h) && ValidOrders(h, d, o) && NoStrays(d) && v in VrfNames(d.vrfs) && v !in d.routes
    ensures At(Pass(h, d, o).host.routes, v) == At(h.routes, v)
  {
    hide HostInv, ValidOrders;
    VrfStageHost(h, d, o);
    RouteStageDecides(h, d, o);
    VrfStageLists(h, d, o, v);
    forall i | 0 <= i < |o.routes| ensures !NamesVrf(At(d.routes, o.routes[i]), v) {
      assert o.routes[i] in o.routes;
    }
    Untouched(AfterVrfs(h, d, o), o.routes, d.routes, v);
  }

  /** One pass repairs any drift, whatever order the maps are met in. */
  lemma PassRepairsDrift(h: Host, d: Desired, o: Orders)
    requires HostInv(h) && ValidOrders(h, d, o) && WellTargeted(d)
    ensures Repairs(h, d, o)
  {
    hide HostInv, ValidOrders, PrefixesAt, PrefixSet, AllReached, NoStrays;
    VrfStageHost(h, d, o);
    RouteStageDecides(h, d, o);
    var q := Pass(h, d, o).host;
    forall k | k in d.routes && k in VrfNames(d.vrfs) ensures PrefixesAt(q, k) == PrefixSet(d.routes[k]) {
      forall x ensures x in PrefixesAt(q, k) <==> x in PrefixSet(d.routes[k]) {
        ListedVrfRepaired(h, d, o, k, x);
      }
    }
    forall k | k in VrfNames(d.vrfs) && k !in d.routes ensures At(q.routes, k) == At(h.routes, k) {
      UnlistedVrfKept(h, d, o, k);
    }
  }

  // ---- nothing less will do ----

  lemma SomeOrders(h: Host, d: Desired, routes: seq<string>, acls: seq<string>) returns (o: Orders)
    requires Enumerates(routes, d.routes.Keys) && Enumerates(acls, d.acls.Keys)
    ensures ValidOrders(h, d, o) && o.routes == routes && o.acls == acls
  {
    var keys := SomeOrder(h.vrfs.Keys);
    forall i | 0 <= i < |keys| ensures keys[i] in h.vrfs { assert keys[i] in keys; }
    o := Orders(seq(|keys|, i requires 0 <= i < |keys| => h.vrfs[keys[i]]), keys, routes, acls);
  }

  /** The keys in some order that starts as asked. */
  lemma OrderFrom<T(!new)>(first: seq<T>, keys: set<T>) returns (s: seq<T>)
    requires (forall i | 0 <= i < |first| :: first[i] in keys)
    requires forall i, j | 0 <= i < j < |first| :: first[i] != first[j]
    ensures Enumerates(s, keys) && |first| <= |s| && s[..|first|] == first
  {
    var rest := SomeOrder(keys - (set x | x in first));
    s := first + rest;
    forall x ensures x in s <==> x in keys { }
    forall i | 0 <= i < |rest| ensures rest[i] !in first { assert rest[i] in rest; }
  }

  /** The keys in some order that ends as asked. */
  lemma OrderTo(last: string, keys: set<string>) returns (s: seq<string>)
    requires last in keys
    ensures Enumerates(s, keys) && s != [] && s[|s| - 1] == last
  {
    var others := SomeOrder(keys - {last});
    s := others + [last];
    forall i | 0 <= i < |others| ensures others[i] != last { assert others[i] in others; }
  }

  /** A host that has the desired VRFs outside `skip`, each with one route for `x`. */
  function HasOutside(d: Desired, skip: set<string>, x: Prefix): Host {
    Host(map n | n in VrfNames(d.vrfs) - skip :: VrfConfig(n, 0, 0, None),
         map n | n in VrfNames(d.vrfs) - skip :: [RouteConfig(n, x, None, 0)],
         map[])
  }

  function HasElsewhere(d: Desired, v: string, x: Prefix): Host {
    HasOutside(d, {v}, x)
  }

  lemma HasElsewhereOk(d: Desired, v: string, x: Prefix)
    ensures HostInv(HasElsewhere(d, v, x)) && At(HasElsewhere(d, v, x).routes, v) == []
  {
  }

  /** A listed prefix nobody can bring to an empty VRF while the other VRFs have it. */
  lemma UnreachedIsNotRepaired(d: Desired, v: string, x: Prefix) returns (h: Host, o: Orders)
    requires v in d.routes && v in VrfNames(d.vrfs) && x in PrefixSet(d.routes[v]) && !Reached(d, v, x)
    ensures HostInv(h) && ValidOrders(h, d, o) && !Repairs(h, d, o)
  {
    h := HasElsewhere(d, v, x);
    var routes := SomeOrder(d.routes.Keys);
    var acls := SomeOrder(d.acls.Keys);
    o := SomeOrders(h, d, routes, acls);
    HasElsewhereOk(d, v, x);
    UnreachedStaysOut(d, v, x, o);
  }

  lemma UnreachedStaysOut(d: Desired, v: string, x: Prefix, o: Orders)
    requires v in d.routes && v in VrfNames(d.vrfs) && !Reached(d, v, x)
    requires HostInv(HasElsewhere(d, v, x)) && ValidOrders(HasElsewhere(d, v, x), d, o)
    ensures x !in PrefixesAt(Pass(HasElsewhere(d, v, x), d, o).host, v)
  {
    hide HostInv, ValidOrders, Reached, Pass, HasElsewhere, HeldOff, AfterVrfs;
    var h := HasElsewhere(d, v, x);
    HasElsewhereOk(d, v, x);
    VrfStageHost(h, d, o);
    RouteStageDecides(h, d, o);
    VrfStageLists(h, d, o, v);
    ElsewhereHeldOff(d, v, x, o);
    StaysOut(AfterVrfs(h, d, o), o.routes, d.routes, v, x);
  }

  lemma ElsewhereHeldOff(d: Desired, v: string, x: Prefix, o: Orders)
    requires v in d.routes && v in VrfNames(d.vrfs) && !Reached(d, v, x)
    requires HostInv(HasElsewhere(d, v, x)) && ValidOrders(HasElsewhere(d, v, x), d, o)
    ensures HeldOff(AfterVrfs(HasElsewhere(d, v, x), d, o).host, o.routes, d.routes, v, x)
  {
    hide HostInv, AfterVrfs, Names;
    var h := HasElsewhere(d, v, x);
    var a := AfterVrfs(h, d, o).host;
    forall i | 0 <= i < |o.routes| ensures !Names(At(d.routes, o.routes[i]), v, x) || x in PrefixesAt(a, o.routes[i]) {
      var k := o.routes[i];
      assert k in o.routes;
      VrfStageLists(h, d, o, k);
      if k in VrfNames(d.vrfs) && k != v {
        assert At(a.routes, k)[0].prefix == x && At(a.routes, k)[0] in At(a.routes, k);
      }
    }
  }

  lemma NamedIsListed(list: seq<RouteConfig>, v: string, x: Prefix)
    requires Names(list, v, x)
    ensures x in PrefixSet(list)
  {
  }

  /** A stray route reaches its VRF when its list is met first, or right after the VRF's own. */
  lemma StrayIsNotRepaired(d: Desired, k: string, r: RouteConfig) returns (o: Orders)
    requires k in d.routes && r in d.routes[k] && r.vrfName in VrfNames(d.vrfs)
    requires r.vrfName !in d.routes || r.prefix !in PrefixSet(d.routes[r.vrfName])
    ensures ValidOrders(EMPTY_HOST, d, o) && !Repairs(EMPTY_HOST, d, o)
  {
    hide HostInv, ValidOrders, Pass, AfterRoutes, AfterVrfs;
    var v, x := r.vrfName, r.prefix;
    var first := if v in d.routes then [v, k] else [k];
    assert Names(d.routes[k], v, x);
    assert v in d.routes ==> v != k;
    var routes := OrderFrom(first, d.routes.Keys);
    var acls := SomeOrder(d.acls.Keys);
    o := SomeOrders(EMPTY_HOST, d, routes, acls);
    StrayArrives(d, o, k, v, x);
    NoRoutesYet(d, o, v);
    RouteStageDecides(EMPTY_HOST, d, o);
    assert At(Pass(EMPTY_HOST, d, o).host.routes, v) == At(AfterRoutes(EMPTY_HOST, d, o).host.routes, v) != [];
  }

  /** On the empty host the VRF stage leaves no routes. */
  lemma NoRoutesYet(d: Desired, o: Orders, k: string)
    requires ValidOrders(EMPTY_HOST, d, o)
    ensures HostInv(EMPTY_HOST) && PrefixesAt(AfterVrfs(EMPTY_HOST, d, o).host, k) == {}
  {
    VrfStageLists(EMPTY_HOST, d, o, k);
  }

  /** From some point of the loop on: the list of `k` is met with `x` missing under `k`. */
  lemma StrayStays(p: Progress, keys: seq<string>, d: Desired, k: string, v: string, x: Prefix)
    requires HostInv(p.host) && keys != [] && keys[0] == k && v !in keys && k in d.routes
    requires v in p.host.vrfs && Names(d.routes[k], v, x) && x !in PrefixesAt(p.host, k)
    ensures x in PrefixesAt(RepairAll(p, keys, d.routes).host, v)
  {
    hide HostInv, RepairVrf, PrefixesAt, Names, PrefixSet;
    assert keys == [keys[0]] + keys[1..];
    Round(p, k, d.routes[k], v, x);
    StaysIn(RepairVrf(p, k, d.routes[k]), keys[1..], d.routes, v, x);
  }

  lemma StrayArrives(d: Desired, o: Orders, k: string, v: string, x: Prefix)
    requires ValidOrders(EMPTY_HOST, d, o) && k in d.routes && Names(d.routes[k], v, x) && v in VrfNames(d.vrfs)
    requires v !in d.routes || x !in PrefixSet(d.routes[v])
    requires if v in d.routes
             then k != v && |o.routes| >= 2 && o.routes[..2] == [v, k]
             else |o.routes| >= 1 && o.routes[..1] == [k]
    ensures x in PrefixesAt(AfterRoutes(EMPTY_HOST, d, o).host, v)
  {
    hide HostInv, RepairVrf, PrefixesAt, Names, PrefixSet;
    NoRoutesYet(d, o, k);
    VrfStageHost(EMPTY_HOST, d, o);
    OrdersDistinct(o.routes, d.routes.Keys);
    var p, keys := AfterVrfs(EMPTY_HOST, d, o), o.routes;
    if v in d.routes {
      assert keys[0] == keys[..2][0] && keys[1] == keys[..2][1] && keys[1..][0] == keys[1];
      if Names(d.routes[v], k, x) { NamedIsListed(d.routes[v], k, x); }
      Round(p, v, d.routes[v], k, x);
      StrayStays(RepairVrf(p, v, d.routes[v]), keys[1..], d, k, v, x);
    } else {
      assert keys[0] == keys[..1][0];
      StrayStays(p, keys, d, k, v, x);
    }
  }

  ghost predicate AlwaysRepairs(d: Desired) {
    forall h, o | HostInv(h) && ValidOrders(h, d, o) :: Repairs(h, d, o)
  }

  /**
   * A pass repairs every reachable table in every map order exactly when the desired routes are well
   * targeted, which can be read off the desired state alone.
   */
  lemma RepairsExactlyWhenWellTargeted(d: Desired)
    ensures AlwaysRepairs(d) <==> WellTargeted(d)
  {
    if WellTargeted(d) {
      forall h, o | HostInv(h) && ValidOrders(h, d, o) ensures Repairs(h, d, o) {
        PassRepairsDrift(h, d, o);
      }
    } else {
      var h, o := SomethingNotRepaired(d);
    }
  }

  lemma SomethingNotRepaired(d: Desired) returns (h: Host, o: Orders)
    requires !WellTargeted(d)
    ensures HostInv(h) && ValidOrders(h, d, o) && !Repairs(h, d, o)
  {
    if !NoStrays(d) {
      var k, r :| k in d.routes && r in d.routes[k] && r.vrfName in VrfNames(d.vrfs)
                  && !(r.vrfName in d.routes && r.prefix in PrefixSet(d.routes[r.vrfName]));
      h := EMPTY_HOST;
      o := StrayIsNotRepaired(d, k, r);
    } else {
      var v, x :| v in d.routes && v in VrfNames(d.vrfs) && x in PrefixSet(d.routes[v]) && !Reached(d, v, x);
      h, o := UnreachedIsNotRepaired(d, v, x);
    }
  }
}
