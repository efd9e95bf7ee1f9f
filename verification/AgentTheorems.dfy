/** What an agent pass reports, what it leaves in the ACL lists, and when map order does not matter. */
module AgentTheorems {
  import opened Common
  import opened Prefixes
  import opened Netlink
  import opened Agent
  import opened AgentVrfs
  import opened AgentRoutes
  import opened AgentPass
  import opened AgentRepair
  import opened AgentAcls
  import opened AgentCounts
  import opened AgentOrder

  /** A VRF name missing on the host is listed twice. */
  ghost predicate RepeatsMissingName(h: Host, d: Desired) {
    exists i, j :: 0 <= i < j < |d.vrfs| && d.vrfs[i].name == d.vrfs[j].name && d.vrfs[i].name !in h.vrfs
  }

  /** A prefix missing in the VRF's table is listed twice. */
  ghost predicate RepeatsMissingPrefix(h: Host, k: string, want: seq<RouteConfig>) {
    exists i, j ::
      0 <= i < j < |want| && want[i].prefix == want[j].prefix && want[i].prefix !in PrefixSet(At(h.routes, k))
  }

  lemma ClashIsRepeat<T(!new)>(have: set<T>, keys: seq<T>)
    ensures Clash(have, have, keys) <==> exists i, j :: 0 <= i < j < |keys| && keys[i] == keys[j] && keys[i] !in have
  {
    if Clash(have, have, keys) {
      var j :| 0 <= j < |keys| && keys[j] !in have && (keys[j] in have || keys[j] in keys[..j]);
      var i :| 0 <= i < j && keys[..j][i] == keys[j];
      assert keys[i] == keys[j] && keys[i] !in have;
    }
    if i, j :| 0 <= i < j < |keys| && keys[i] == keys[j] && keys[i] !in have {
      assert keys[..j][i] == keys[j];
      assert keys[j] !in have && keys[j] in keys[..j];
    }
  }

  lemma NameClashIsRepeat(h: Host, d: Desired)
    ensures Clash(h.vrfs.Keys, h.vrfs.Keys, NameSeq(d.vrfs)) <==> RepeatsMissingName(h, d)
  {
    var names := NameSeq(d.vrfs);
    ClashIsRepeat(h.vrfs.Keys, names);
    if RepeatsMissingName(h, d) {
      var i, j :| 0 <= i < j < |d.vrfs| && d.vrfs[i].name == d.vrfs[j].name && d.vrfs[i].name !in h.vrfs;
      assert names[i] == names[j] && names[i] !in h.vrfs.Keys;
    }
    if i, j :| 0 <= i < j < |names| && names[i] == names[j] && names[i] !in h.vrfs.Keys {
      assert d.vrfs[i].name == names[i] && d.vrfs[j].name == names[j];
    }
  }

  lemma PrefixClashIsRepeat(h: Host, k: string, want: seq<RouteConfig>)
    ensures var have := PrefixSet(At(h.routes, k));
            Clash(have, have, PrefixSeq(want)) <==> RepeatsMissingPrefix(h, k, want)
  {
    var have, ps := PrefixSet(At(h.routes, k)), PrefixSeq(want);
    ClashIsRepeat(have, ps);
    if RepeatsMissingPrefix(h, k, want) {
      var i, j :| 0 <= i < j < |want| && want[i].prefix == want[j].prefix && want[i].prefix !in have;
      assert ps[i] == ps[j] && ps[i] !in have;
    }
    if i, j :| 0 <= i < j < |ps| && ps[i] == ps[j] && ps[i] !in have {
      assert want[i].prefix == ps[i] && want[j].prefix == ps[j];
    }
  }

  // ---- counters ----

  /** The (VRF, prefix) pairs a pass has to add and to remove. */
  ghost function RoutesToAdd(h: Host, d: Desired): set<(string, Prefix)> {
    set k, p | k in d.routes && k in VrfNames(d.vrfs) && p in PrefixSet(d.routes[k]) - PrefixSet(At(h.routes, k)) ::
      (k, p)
  }

  ghost function RoutesToRemove(h: Host, d: Desired): set<(string, Prefix)> {
    set k, p | k in d.routes && k in VrfNames(d.vrfs) && p in PrefixSet(At(h.routes, k)) - PrefixSet(d.routes[k]) ::
      (k, p)
  }

  lemma LeftAtStart(h: Host, d: Desired, o: Orders)
    requires HostInv(h) && ValidOrders(h, d, o)
    ensures MissingRoutes(AfterVrfs(h, d, o).host, d.routes) == RoutesToAdd(h, d)
    ensures StaleRoutes(AfterVrfs(h, d, o).host, d.routes) == RoutesToRemove(h, d)
  {
    hide HostInv, ValidOrders, AfterVrfs;
    var a := AfterVrfs(h, d, o).host;
    VrfStageHost(h, d, o);
    forall k | k in VrfNames(d.vrfs) ensures At(a.routes, k) == At(h.routes, k) {
      VrfStageLists(h, d, o, k);
    }
  }

  lemma NothingLeft(h: Host, d: Desired, o: Orders)
    requires Repairs(h, d, o)
    ensures MissingRoutes(Pass(h, d, o).host, d.routes) == {} && StaleRoutes(Pass(h, d, o).host, d.routes) == {}
  {
  }

  lemma SameLeft(h: Host, g: Host, want: RouteLists)
    requires g.vrfs == h.vrfs && g.routes == h.routes
    ensures MissingRoutes(g, want) == MissingRoutes(h, want) && StaleRoutes(g, want) == StaleRoutes(h, want)
  {
  }

  lemma VrfStageReport(h: Host, d: Desired, o: Orders)
    requires HostInv(h) && ValidOrders(h, d, o)
    ensures var r := AfterVrfs(h, d, o).report;
            r == EMPTY_REPORT.(vrfsCreated := |VrfNames(d.vrfs) - h.vrfs.Keys|,
                               vrfsDeleted := |h.vrfs.Keys - VrfNames(d.vrfs)|, errors := r.errors)
  {
    hide HostInv;
    VrfPhaseReport(h, d, o.vrfs, o.vrfKeys);
  }

  lemma AclsCounted(h: Host, d: Desired, o: Orders)
    requires ValidOrders(h, d, o)
    ensures CountAcls(o.acls, d.acls) == |AclConfigs(d.acls)|
  {
    CountAclsMeaning(o.acls, d.acls);
  }

  lemma AllOnTarget(d: Desired)
    requires WellTargeted(d)
    ensures forall k, r | k in d.routes && r in d.routes[k] :: OnTarget(r, VrfNames(d.vrfs), d.routes)
  {
  }

  /** The VRF and route counters are the sizes of the set differences. */
  lemma PassCounts(h: Host, d: Desired, o: Orders)
    requires HostInv(h) && ValidOrders(h, d, o) && WellTargeted(d)
    ensures var r := Pass(h, d, o).report;
            && r.vrfsCreated == |VrfNames(d.vrfs) - h.vrfs.Keys|
            && r.vrfsDeleted == |h.vrfs.Keys - VrfNames(d.vrfs)|
            && r.routesAdded == |RoutesToAdd(h, d)|
            && r.routesRemoved == |RoutesToRemove(h, d)|
            && r.aclsUpdated == |AclConfigs(d.acls)|
  {
    hide HostInv, ValidOrders, WellTargeted, OnTarget, Repairs, MissingRoutes, StaleRoutes, RoutesToAdd, RoutesToRemove;
    VrfStageReport(h, d, o);
    VrfStageHost(h, d, o);
    RouteStageDecides(h, d, o);
    PassRepairsDrift(h, d, o);
    AllOnTarget(d);
    RepairAllConserves(AfterVrfs(h, d, o), o.routes, d.routes);
    LeftAtStart(h, d, o);
    NothingLeft(h, d, o);
    SameLeft(AfterRoutes(h, d, o).host, Pass(h, d, o).host, d.routes);
    AclsCounted(h, d, o);
    ProgramAllRest(AfterRoutes(h, d, o), o.acls, d.acls);
  }

  /** The key names a desired VRF and repeats no missing prefix, or has nothing listed. */
  ghost predicate ErrorFree(h: Host, d: Desired, k: string)
    requires k in d.routes
  {
    if k in VrfNames(d.vrfs) then !RepeatsMissingPrefix(h, k, d.routes[k]) else d.routes[k] == []
  }

  lemma QuietMeaning(h: Host, d: Desired, o: Orders, k: string)
    requires HostInv(h) && ValidOrders(h, d, o) && k in d.routes
    ensures Quiet(AfterVrfs(h, d, o).host, k, d.routes[k]) <==> ErrorFree(h, d, k)
  {
    VrfPhaseHost(h, d, o.vrfs, o.vrfKeys);
    VrfStageLists(h, d, o, k);
    PrefixClashIsRepeat(AfterVrfs(h, d, o).host, k, d.routes[k]);
  }

  lemma RouteStageErrors(h: Host, d: Desired, o: Orders)
    requires HostInv(h) && ValidOrders(h, d, o) && RoutesKeyed(d)
    ensures ErrorsGrow(AfterVrfs(h, d, o).report, AfterRoutes(h, d, o).report,
                       forall k | k in d.routes :: ErrorFree(h, d, k))
  {
    VrfPhaseHost(h, d, o.vrfs, o.vrfKeys);
    OrdersDistinct(o.routes, d.routes.Keys);
    RepairAllErrors(AfterVrfs(h, d, o), o.routes, d.routes);
    QuietEverywhere(AfterVrfs(h, d, o).host, o.routes, d.routes);
    forall k | k in d.routes ensures Quiet(AfterVrfs(h, d, o).host, k, d.routes[k]) <==> ErrorFree(h, d, k) {
      QuietMeaning(h, d, o, k);
    }
  }

  /**
   * A pass reports no error exactly when no missing VRF name and no missing prefix is listed twice
   * and every nonempty route list belongs to a desired VRF.
   */
  lemma PassErrors(h: Host, d: Desired, o: Orders)
    requires HostInv(h) && ValidOrders(h, d, o) && RoutesKeyed(d)
    ensures Pass(h, d, o).report.errors == [] <==>
              !RepeatsMissingName(h, d) && forall k | k in d.routes :: ErrorFree(h, d, k)
  {
    VrfPhaseReport(h, d, o.vrfs, o.vrfKeys);
    NameClashIsRepeat(h, d);
    RouteStageErrors(h, d, o);
    ProgramAllRest(AfterRoutes(h, d, o), o.acls, d.acls);
  }

  lemma QuietEverywhere(h: Host, keys: seq<string>, want: map<string, seq<RouteConfig>>)
    requires Enumerates(keys, want.Keys)
    ensures AllQuiet(h, keys, want) <==> forall k | k in want :: Quiet(h, k, want[k])
  {
    if AllQuiet(h, keys, want) {
      forall k | k in want ensures Quiet(h, k, want[k]) {
        assert k in keys;
        var i :| 0 <= i < |keys| && keys[i] == k;
        assert Quiet(h, keys[i], At(want, keys[i]));
      }
    }
    if forall k | k in want :: Quiet(h, k, want[k]) {
      forall i | 0 <= i < |keys| ensures Quiet(h, keys[i], At(want, keys[i])) {
        assert keys[i] in keys;
      }
    }
  }

  /** What a pass finds in the ACL list of a VRF: nothing if it has just deleted the VRF. */
  function KeptAcls(h: Host, d: Desired, v: string): seq<AclConfig> {
    if v in h.vrfs && v !in VrfNames(d.vrfs) then [] else At(h.acls, v)
  }

  lemma PassAclsProgrammed(h: Host, d: Desired, o: Orders, v: string)
    requires HostInv(h) && ValidOrders(h, d, o)
    ensures At(Pass(h, d, o).host.acls, v) == ProgramOver(KeptAcls(h, d, v), Gathered(o.acls, d.acls, v))
  {
    VrfStageLists(h, d, o, v);
    RouteStageDecides(h, d, o);
    ProgramAllGathered(AfterRoutes(h, d, o), o.acls, d.acls, v);
  }

  /**
   * The ACL list of a VRF after a pass: the kept entries of other peerings, then for each peering
   * the last config that names the VRF in any list met, in the order of those last configs.
   */
  lemma PassAcls(h: Host, d: Desired, o: Orders, v: string)
    requires HostInv(h) && ValidOrders(h, d, o)
    ensures var met := Gathered(o.acls, d.acls, v);
            At(Pass(h, d, o).host.acls, v) == Foreign(KeptAcls(h, d, v), PeeringIds(met)) + LastOfEach(met)
  {
    hide HostInv, ValidOrders, Pass, Gathered, KeptAcls;
    PassAclsProgrammed(h, d, o, v);
    ProgramOverShape(KeptAcls(h, d, v), Gathered(o.acls, d.acls, v));
  }

  // ---- map order does not matter ----

  /** Two tables that every list operation shows alike. */
  ghost predicate SameTable(a: Host, b: Host) {
    a.vrfs == b.vrfs && forall v :: At(a.routes, v) == At(b.routes, v) && At(a.acls, v) == At(b.acls, v)
  }

  lemma VrfStageIgnoresOrder(h: Host, d: Desired, o1: Orders, o2: Orders)
    requires HostInv(h) && ValidOrders(h, d, o1) && ValidOrders(h, d, o2)
    ensures AfterVrfs(h, d, o1) == AfterVrfs(h, d, o2)
  {
    ListedNames(o1.vrfs, o1.vrfKeys, h);
    ListedNames(o2.vrfs, o2.vrfKeys, h);
    var created := CreateMissing(Progress(h, EMPTY_REPORT), h.vrfs.Keys, d.vrfs);
    CreateMissingHost(Progress(h, EMPTY_REPORT), h.vrfs.Keys, d.vrfs);
    DeleteStaleEffect(created, VrfNames(d.vrfs), o1.vrfs, h.vrfs.Keys);
    DeleteStaleEffect(created, VrfNames(d.vrfs), o2.vrfs, h.vrfs.Keys);
  }

  /** For every VRF the lists of any two keys have nested last configs. */
  ghost predicate AclsNested(d: Desired) {
    forall v: string :: NestedFor(d.acls, v)
  }

  lemma KeyedIsNested(d: Desired)
    requires AclsKeyed(d)
    ensures AclsNested(d)
  {
    forall v: string, k | k in d.acls ensures LastFor(d.acls, k, v) == if k == v then LastOfEach(d.acls[k]) else [] {
      ForVrfKeyed(d.acls[k], k, v);
    }
    forall a: seq<AclConfig> ensures Nested([], a) && Nested(a, []) && Nested(a, a) {
    }
  }

  ghost predicate SameAcls(a: Host, b: Host) {
    forall v :: At(a.acls, v) == At(b.acls, v)
  }

  lemma NestedAclsIgnoreOrder(h: Host, d: Desired, o1: Orders, o2: Orders)
    requires HostInv(h) && ValidOrders(h, d, o1) && ValidOrders(h, d, o2) && AclsNested(d)
    ensures SameAcls(Pass(h, d, o1).host, Pass(h, d, o2).host)
  {
    hide HostInv, Gathered, NestedFor;
    forall v ensures At(Pass(h, d, o1).host.acls, v) == At(Pass(h, d, o2).host.acls, v) {
      assert NestedFor(d.acls, v);
      PassAcls(h, d, o1, v);
      PassAcls(h, d, o2, v);
      NestedIgnoresOrder(o1.acls, o2.acls, d.acls, v);
    }
  }

  /** Some pass over the empty host meets key `k` last; what it lists for a VRF then ends that VRF's list. */
  lemma LastKeyMet(d: Desired, k: string, v: string) returns (o: Orders)
    requires k in d.acls
    ensures HostInv(EMPTY_HOST) && ValidOrders(EMPTY_HOST, d, o)
    ensures IsSuffix(LastFor(d.acls, k, v), At(Pass(EMPTY_HOST, d, o).host.acls, v))
  {
    hide HostInv, Pass, ValidOrders, LastFor, Gathered, LastOfEach, Enumerates;
    var routes := SomeOrder(d.routes.Keys);
    var acls := OrderTo(k, d.acls.Keys);
    o := SomeOrders(EMPTY_HOST, d, routes, acls);
    NoRoutesYet(d, o, k);
    PassAcls(EMPTY_HOST, d, o, v);
    assert acls == acls[..|acls| - 1] + [k];
    LastKeyEnds(acls[..|acls| - 1], k, d.acls, v);
    assert KeptAcls(EMPTY_HOST, d, v) == [];
  }

  /** On every table any two map orders leave the same ACL lists. */
  ghost predicate AclsIgnoreOrder(d: Desired) {
    forall h, o1, o2 | HostInv(h) && ValidOrders(h, d, o1) && ValidOrders(h, d, o2) ::
      SameAcls(Pass(h, d, o1).host, Pass(h, d, o2).host)
  }

  /**
   * The ACL lists that a pass leaves are the same in any two map orders, on every reachable table,
   * exactly when the last configs that any two keys list for one VRF are nested.
   */
  lemma AclsIgnoreOrderExactlyWhenNested(d: Desired)
    ensures AclsIgnoreOrder(d) <==> AclsNested(d)
  {
    hide HostInv, SameAcls, Pass, ValidOrders;
    if AclsNested(d) {
      forall h, o1, o2 | HostInv(h) && ValidOrders(h, d, o1) && ValidOrders(h, d, o2)
        ensures SameAcls(Pass(h, d, o1).host, Pass(h, d, o2).host)
      {
        NestedAclsIgnoreOrder(h, d, o1, o2);
      }
    } else {
      var h, o1, o2 := OrderMatters(d);
    }
  }

  lemma OrderMatters(d: Desired) returns (h: Host, o1: Orders, o2: Orders)
    requires !AclsNested(d)
    ensures HostInv(h) && ValidOrders(h, d, o1) && ValidOrders(h, d, o2)
    ensures !SameAcls(Pass(h, d, o1).host, Pass(h, d, o2).host)
  {
    hide HostInv, Pass, ValidOrders, LastFor, Nested;
    var v: string :| !NestedFor(d.acls, v);
    var k1, k2 :| k1 in d.acls && k2 in d.acls && !Nested(LastFor(d.acls, k1, v), LastFor(d.acls, k2, v));
    h := EMPTY_HOST;
    o1 := LastKeyMet(d, k1, v);
    o2 := LastKeyMet(d, k2, v);
    if At(Pass(h, d, o1).host.acls, v) == At(Pass(h, d, o2).host.acls, v) {
      SuffixesOfOne(LastFor(d.acls, k1, v), LastFor(d.acls, k2, v), At(Pass(h, d, o1).host.acls, v));
    }
  }

  /**
   * VRFs, the prefixes of every VRF and the ACL lists do not depend on the map iteration orders; with
   * keyed route lists neither does the order within a route list.
   */
  lemma PassIgnoresMapOrder(h: Host, d: Desired, o1: Orders, o2: Orders)
    requires HostInv(h) && OrderFree(d) && AclsNested(d)
    requires ValidOrders(h, d, o1) && ValidOrders(h, d, o2)
    ensures var q1, q2 := Pass(h, d, o1).host, Pass(h, d, o2).host;
            && q1.vrfs == q2.vrfs && SamePrefixes(q1, q2) && SameAcls(q1, q2)
            && (RoutesKeyed(d) ==> SameTable(q1, q2))
  {
    hide AclsNested, NestedFor, OrderFree;
    SameVrfs(h, d, o1, o2);
    NestedAclsIgnoreOrder(h, d, o1, o2);
    hide Pass;
    OrderFreeIgnoresOrder(h, d, o1, o2);
    if RoutesKeyed(d) { SameRouteLists(h, d, o1, o2); }
  }

  lemma SameVrfs(h: Host, d: Desired, o1: Orders, o2: Orders)
    requires HostInv(h) && ValidOrders(h, d, o1) && ValidOrders(h, d, o2)
    ensures Pass(h, d, o1).host.vrfs == Pass(h, d, o2).host.vrfs
  {
    hide HostInv, ValidOrders, Pass;
    VrfStageIgnoresOrder(h, d, o1, o2);
    RouteStageDecides(h, d, o1);
    RouteStageDecides(h, d, o2);
  }

  /** On every table a pass leaves the same VRFs, prefixes and ACL lists in any two map orders. */
  ghost predicate IgnoresMapOrder(d: Desired) {
    forall h, o1, o2 | HostInv(h) && ValidOrders(h, d, o1) && ValidOrders(h, d, o2) ::
      && Pass(h, d, o1).host.vrfs == Pass(h, d, o2).host.vrfs
      && SamePrefixes(Pass(h, d, o1).host, Pass(h, d, o2).host)
      && SameAcls(Pass(h, d, o1).host, Pass(h, d, o2).host)
  }

  /** Map order is without effect exactly when no route strays or races and the ACL lists are nested. */
  lemma IgnoresMapOrderExactly(d: Desired)
    ensures IgnoresMapOrder(d) <==> OrderFree(d) && AclsNested(d)
  {
    hide HostInv, ValidOrders, Pass, SamePrefixes, SameAcls, OrderFree, AclsNested;
    if OrderFree(d) && AclsNested(d) {
      forall h, o1, o2 | HostInv(h) && ValidOrders(h, d, o1) && ValidOrders(h, d, o2)
        ensures Pass(h, d, o1).host.vrfs == Pass(h, d, o2).host.vrfs
        ensures SamePrefixes(Pass(h, d, o1).host, Pass(h, d, o2).host)
        ensures SameAcls(Pass(h, d, o1).host, Pass(h, d, o2).host)
      {
        PassIgnoresMapOrder(h, d, o1, o2);
      }
    }
    PrefixesIgnoreOrderExactlyWhenOrderFree(d);
    AclsIgnoreOrderExactlyWhenNested(d);
  }

  lemma SameRouteLists(h: Host, d: Desired, o1: Orders, o2: Orders)
    requires HostInv(h) && RoutesKeyed(d) && ValidOrders(h, d, o1) && ValidOrders(h, d, o2)
    ensures forall v :: At(Pass(h, d, o1).host.routes, v) == At(Pass(h, d, o2).host.routes, v)
  {
    VrfStageIgnoresOrder(h, d, o1, o2);
    PassVrfsAndRoutes(h, d, o1);
    PassVrfsAndRoutes(h, d, o2);
    forall v
      ensures ListAfter(AfterVrfs(h, d, o1).host, o1.routes, d.routes, v)
              == ListAfter(AfterVrfs(h, d, o2).host, o2.routes, d.routes, v)
    {
      assert v in o1.routes <==> v in d.routes.Keys;
      assert v in o2.routes <==> v in d.routes.Keys;
    }
  }

  lemma PassVrfsAndRoutes(h: Host, d: Desired, o: Orders)
    requires HostInv(h) && ValidOrders(h, d, o) && RoutesKeyed(d)
    ensures var q := Pass(h, d, o).host;
            && q.vrfs == AfterVrfs(h, d, o).host.vrfs
            && forall v :: At(q.routes, v) == ListAfter(AfterVrfs(h, d, o).host, o.routes, d.routes, v)
  {
    VrfPhaseHost(h, d, o.vrfs, o.vrfKeys);
    OrdersDistinct(o.routes, d.routes.Keys);
    RepairAllHost(AfterVrfs(h, d, o), o.routes, d.routes);
    ProgramAllRest(AfterRoutes(h, d, o), o.acls, d.acls);
  }

  // ---- two desired states outside the conditions ----

  const BLOCK := Prefix(IPv4, 0x0A01_0000, 16)
  const STRAY := RouteConfig("b", BLOCK, None, 7)

  const VRF_A := VrfConfig("a", 1, 1, None)
  const VRF_B := VrfConfig("b", 2, 2, None)

  /** The empty host after the two VRFs have been created. */
  function BothCreated(): Progress {
    CreateStep(CreateStep(Progress(EMPTY_HOST, EMPTY_REPORT), VRF_A), VRF_B)
  }

  lemma BothGetCreated(d: Desired)
    requires d.vrfs == [VRF_A, VRF_B]
    ensures VrfPhase(Progress(EMPTY_HOST, EMPTY_REPORT), d, []) == BothCreated()
  {
    var start := Progress(EMPTY_HOST, EMPTY_REPORT);
    var one := CreateStep(start, VRF_A);
    assert d.vrfs[1..] == [VRF_B];
    assert CreateMissing(one, {}, [VRF_B]) == CreateMissing(CreateStep(one, VRF_B), {}, [VRF_B][1..]);
    assert VrfNames([]) == {};
  }

  /** The route listed under "a" goes to "b". */
  lemma StrayGoesElsewhere()
    ensures var q := RepairAll(BothCreated(), ["a"], map["a" := [STRAY]]).host;
            At(q.routes, "a") == [] && At(q.routes, "b") == [STRAY] && q.acls == map[]
  {
    hide RepairVrf;
    var p := BothCreated();
    assert RepairAll(p, ["a"], map["a" := [STRAY]])
           == RepairAll(RepairVrf(p, "a", [STRAY]), ["a"][1..], map["a" := [STRAY]]);
    StrayRepair();
  }

  lemma StrayRepair()
    ensures RepairVrf(BothCreated(), "a", [STRAY]) == AddStep(BothCreated(), STRAY)
  {
    var p := BothCreated();
    assert PrefixSet([]) == {};
    assert AddMissing(p, {}, [STRAY]) == AddMissing(AddStep(p, STRAY), {}, [STRAY][1..]);
  }

  /** A route listed under "a" that names VRF "b" is programmed into "b": "a" is not repaired. */
  lemma MisKeyedListIsNotRepaired()
    ensures var d := Desired([VRF_A, VRF_B], map["a" := [STRAY]], map[]);
            var o := Orders([], [], ["a"], []);
            && HostInv(EMPTY_HOST) && ValidOrders(EMPTY_HOST, d, o) && !WellTargeted(d)
            && "a" in VrfNames(d.vrfs)
            && At(Pass(EMPTY_HOST, d, o).host.routes, "a") == []
            && At(Pass(EMPTY_HOST, d, o).host.routes, "b") == [STRAY]
  {
    hide VrfPhase, RepairAll, CreateStep;
    var d := Desired([VRF_A, VRF_B], map["a" := [STRAY]], map[]);
    assert VRF_A in d.vrfs && VRF_B in d.vrfs;
    assert d.routes["a"][0] == STRAY;
    BothGetCreated(d);
    StrayGoesElsewhere();
  }

  const RULE := AclRule(BLOCK, BLOCK, "any", 0, 0, 0, 0, "allow")
  const STRICT := AclConfig("a", "p", [])
  const LAX := AclConfig("a", "p", [RULE])

  lemma TwoAclKeys(first: string, second: string, want: map<string, seq<AclConfig>>, x: AclConfig, y: AclConfig)
    requires first != second && want.Keys == {first, second} && want[first] == [x] && want[second] == [y]
    requires x.vrfName == y.vrfName == "a" && x.peeringId == y.peeringId
    ensures At(Pass(EMPTY_HOST, Desired([], map[], want), Orders([], [], [], [first, second])).host.acls, "a") == [y]
  {
    var start := Progress(EMPTY_HOST, EMPTY_REPORT);
    var one, two := ProgramStep(start, x), ProgramStep(ProgramStep(start, x), y);
    assert ProgramList(start, [x]) == ProgramList(one, [x][1..]) == one;
    assert ProgramList(one, [y]) == ProgramList(two, [y][1..]) == two;
    var keys := [first, second];
    assert keys[1..] == [second] && keys[1..][1..] == [];
    assert ProgramAll(one, keys[1..], want) == ProgramAll(two, [], want);
    assert ProgramAll(start, keys, want) == two;
    var d, o := Desired([], map[], want), Orders([], [], [], keys);
    assert VrfPhase(start, d, []) == start;
    assert RepairAll(start, [], d.routes) == start;
    assert Pass(EMPTY_HOST, d, o) == two;
    assert At(one.host.acls, "a") == [x] && OtherPeerings([x], y.peeringId) == OtherPeerings([x][1..], y.peeringId);
  }

  /** Two lists that both name VRF "a" for one peering: the map order decides which ACL stays. */
  lemma MisKeyedAclsDependOnOrder()
    ensures var d := Desired([], map[], map["a" := [STRICT], "b" := [LAX]]);
            var o1, o2 := Orders([], [], [], ["a", "b"]), Orders([], [], [], ["b", "a"]);
            && ValidOrders(EMPTY_HOST, d, o1) && ValidOrders(EMPTY_HOST, d, o2) && RoutesKeyed(d) && !AclsNested(d)
            && At(Pass(EMPTY_HOST, d, o1).host.acls, "a") == [LAX]
            && At(Pass(EMPTY_HOST, d, o2).host.acls, "a") == [STRICT]
  {
    var d := Desired([], map[], map["a" := [STRICT], "b" := [LAX]]);
    TwoAclKeys("a", "b", d.acls, STRICT, LAX);
    TwoAclKeys("b", "a", d.acls, LAX, STRICT);
    assert d.acls.Keys == {"a", "b"};
    assert Enumerates(["a", "b"], d.acls.Keys) && Enumerates(["b", "a"], d.acls.Keys);
    assert ListedBy([], [], EMPTY_HOST.vrfs);
    assert RoutesKeyed(d);
    var h := EMPTY_HOST;
    var o1, o2 := Orders([], [], [], ["a", "b"]), Orders([], [], [], ["b", "a"]);
    assert At(Pass(h, d, o1).host.acls, "a") != At(Pass(h, d, o2).host.acls, "a");
    assert !SameAcls(Pass(h, d, o1).host, Pass(h, d, o2).host);
    AclsIgnoreOrderExactlyWhenNested(d);
  }
}
