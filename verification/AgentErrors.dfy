/** For which desired states no pass ever reports an error. */
module AgentErrors {
  import opened Common
  import opened Prefixes
  import opened Netlink
  import opened Agent
  import opened AgentVrfs
  import opened AgentRoutes
  import opened AgentPass
  import opened AgentTargets
  import opened AgentRepair
  import opened AgentTheorems

  /** A nonempty list is under a desired VRF's name, all its routes carry that name, and no prefix repeats. */
  ghost predicate CleanList(d: Desired, k: string)
    requires k in d.routes
  {
    d.routes[k] == [] || (k in VrfNames(d.vrfs) && KeyedBy(d.routes[k], k) && UniquePrefixes(d.routes[k]))
  }

  ghost predicate Clean(d: Desired) {
    DistinctNames(d.vrfs) && forall k | k in d.routes :: CleanList(d, k)
  }

  ghost predicate NoErrors(h: Host, d: Desired, o: Orders) {
    Pass(h, d, o).report.errors == []
  }

  lemma CleanHasNoErrors(h: Host, d: Desired, o: Orders)
    requires HostInv(h) && ValidOrders(h, d, o) && Clean(d)
    ensures NoErrors(h, d, o)
  {
    forall k | k in d.routes ensures KeyedBy(d.routes[k], k) && ErrorFree(h, d, k) {
      assert CleanList(d, k);
    }
    PassErrors(h, d, o);
  }

  // ---- errors do not go away ----

  lemma {:induction false} AddMissingNotFewer(p: Progress, actual: set<Prefix>, want: seq<RouteConfig>)
    ensures |AddMissing(p, actual, want).report.errors| >= |p.report.errors|
    decreases |want|
  {
    if want != [] {
      AddMissingNotFewer(if want[0].prefix in actual then p else AddStep(p, want[0]), actual, want[1..]);
    }
  }

  lemma {:induction false} RemoveStaleNotFewer(p: Progress, k: string, desired: set<Prefix>, actual: seq<RouteConfig>)
    ensures |RemoveStale(p, k, desired, actual).report.errors| >= |p.report.errors|
    decreases |actual|
  {
    if actual != [] {
      RemoveStaleNotFewer(if actual[0].prefix in desired then p else RemoveStep(p, k, actual[0].prefix),
                          k, desired, actual[1..]);
    }
  }

  lemma RepairVrfNotFewer(p: Progress, k: string, want: seq<RouteConfig>)
    ensures |RepairVrf(p, k, want).report.errors|
         >= |AddMissing(p, PrefixSet(At(p.host.routes, k)), want).report.errors| >= |p.report.errors|
  {
    var actual := At(p.host.routes, k);
    AddMissingNotFewer(p, PrefixSet(actual), want);
    RemoveStaleNotFewer(AddMissing(p, PrefixSet(actual), want), k, PrefixSet(want), actual);
  }

  lemma {:induction false} RepairAllNotFewer(p: Progress, keys: seq<string>, want: map<string, seq<RouteConfig>>)
    ensures |RepairAll(p, keys, want).report.errors| >= |p.report.errors|
    decreases |keys|
  {
    hide RepairVrf;
    if keys != [] {
      RepairVrfNotFewer(p, keys[0], At(want, keys[0]));
      RepairAllNotFewer(RepairVrf(p, keys[0], At(want, keys[0])), keys[1..], want);
    }
  }

  lemma ErrorsStay(h: Host, d: Desired, o: Orders)
    requires HostInv(h) && ValidOrders(h, d, o)
    ensures AfterVrfs(h, d, o).report.errors != [] ==> !NoErrors(h, d, o)
    ensures o.routes != [] && RepairVrf(AfterVrfs(h, d, o), o.routes[0], At(d.routes, o.routes[0])).report.errors != []
            ==> !NoErrors(h, d, o)
  {
    hide HostInv, RepairVrf, VrfPhase;
    ProgramAllRest(AfterRoutes(h, d, o), o.acls, d.acls);
    RepairAllNotFewer(AfterVrfs(h, d, o), o.routes, d.routes);
    if o.routes != [] {
      RepairAllNotFewer(RepairVrf(AfterVrfs(h, d, o), o.routes[0], At(d.routes, o.routes[0])), o.routes[1..], d.routes);
    }
  }

  // ---- what is not clean goes wrong somewhere ----

  /** A refused route stays refused while its list is worked through. */
  lemma {:induction false} RefusedEntryErrs(p: Progress, actual: set<Prefix>, want: seq<RouteConfig>, r: RouteConfig)
    requires r in want && r.prefix !in actual && AddRouteError(p.host, r).Some?
    ensures |AddMissing(p, actual, want).report.errors| > |p.report.errors|
    decreases |want|
  {
    assert want == [want[0]] + want[1..];
    var next := if want[0].prefix in actual then p else AddStep(p, want[0]);
    if want[0] == r {
      AddMissingNotFewer(next, actual, want[1..]);
    } else {
      StillRefused(p, want[0], r);
      RefusedEntryErrs(next, actual, want[1..], r);
    }
  }

  lemma StillRefused(p: Progress, cfg: RouteConfig, r: RouteConfig)
    requires AddRouteError(p.host, r).Some?
    ensures AddRouteError(AddStep(p, cfg).host, r).Some? && |AddStep(p, cfg).report.errors| >= |p.report.errors|
  {
    HasPrefixMeaning(At(p.host.routes, r.vrfName), r.prefix);
    HasPrefixMeaning(At(AddStep(p, cfg).host.routes, r.vrfName), r.prefix);
    AddStepSets(p, cfg, r.vrfName);
  }

  lemma OrdersFrom(h: Host, d: Desired, k: string) returns (o: Orders)
    requires k in d.routes
    ensures ValidOrders(h, d, o) && o.routes != [] && o.routes[0] == k
  {
    var routes := OrderFrom([k], d.routes.Keys);
    var acls := SomeOrder(d.acls.Keys);
    o := SomeOrders(h, d, routes, acls);
    assert routes[0] == routes[..1][0];
  }

  lemma RepeatedNameErrs(d: Desired) returns (h: Host, o: Orders)
    requires !DistinctNames(d.vrfs)
    ensures HostInv(h) && ValidOrders(h, d, o) && !NoErrors(h, d, o)
  {
    h := EMPTY_HOST;
    var routes := SomeOrder(d.routes.Keys);
    var acls := SomeOrder(d.acls.Keys);
    o := SomeOrders(h, d, routes, acls);
    VrfPhaseReport(h, d, o.vrfs, o.vrfKeys);
    NameClashIsRepeat(h, d);
    ErrorsStay(h, d, o);
  }

  lemma FirstListErrs(h: Host, d: Desired, o: Orders, k: string, r: RouteConfig)
    requires HostInv(h) && ValidOrders(h, d, o) && o.routes != [] && o.routes[0] == k && k in d.routes
            && r in d.routes[k]
    requires r.prefix !in PrefixesAt(AfterVrfs(h, d, o).host, k) && AddRouteError(AfterVrfs(h, d, o).host, r).Some?
    ensures !NoErrors(h, d, o)
  {
    hide HostInv, ValidOrders, AfterVrfs, RepairVrf, NoErrors;
    var p := AfterVrfs(h, d, o);
    RefusedEntryErrs(p, PrefixesAt(p.host, k), d.routes[k], r);
    RepairVrfNotFewer(p, k, d.routes[k]);
    ErrorsStay(h, d, o);
  }

  lemma AwayFromElsewhere(d: Desired, k: string, r: RouteConfig, o: Orders)
    requires ValidOrders(HasElsewhere(d, k, r.prefix), d, o) && (r.vrfName != k || k !in VrfNames(d.vrfs))
    ensures var a := AfterVrfs(HasElsewhere(d, k, r.prefix), d, o).host;
            r.prefix !in PrefixesAt(a, k) && AddRouteError(a, r).Some?
  {
    hide AfterVrfs, HostInv, ValidOrders, HasElsewhere;
    var h, v := HasElsewhere(d, k, r.prefix), r.vrfName;
    HasElsewhereOk(d, k, r.prefix);
    if v in VrfNames(d.vrfs) { ElsewhereLists(d, k, r.prefix, v); }
    VrfStageHost(h, d, o);
    VrfStageLists(h, d, o, k);
    VrfStageLists(h, d, o, v);
    assert v in VrfNames(d.vrfs) ==> At(AfterVrfs(h, d, o).host.routes, v)[0].prefix == r.prefix;
  }

  lemma ElsewhereLists(d: Desired, k: string, x: Prefix, v: string)
    requires v in VrfNames(d.vrfs) && v != k
    ensures At(HasElsewhere(d, k, x).routes, v) == [RouteConfig(v, x, None, 0)]
  {
  }

  /** A route that names another VRF than its key, or whose key is no desired VRF, is refused on some host. */
  lemma MisplacedRouteErrs(d: Desired, k: string, r: RouteConfig) returns (h: Host, o: Orders)
    requires k in d.routes && r in d.routes[k] && (r.vrfName != k || k !in VrfNames(d.vrfs))
    ensures HostInv(h) && ValidOrders(h, d, o) && !NoErrors(h, d, o)
  {
    hide HostInv, NoErrors, HasElsewhere;
    h := HasElsewhere(d, k, r.prefix);
    HasElsewhereOk(d, k, r.prefix);
    o := OrdersFrom(h, d, k);
    AwayFromElsewhere(d, k, r, o);
    FirstListErrs(h, d, o, k, r);
  }

  lemma RepeatedPrefixErrs(d: Desired, k: string) returns (h: Host, o: Orders)
    requires k in d.routes && k in VrfNames(d.vrfs) && KeyedBy(d.routes[k], k) && !UniquePrefixes(d.routes[k])
    ensures HostInv(h) && ValidOrders(h, d, o) && !NoErrors(h, d, o)
  {
    hide HostInv, NoErrors, RepairVrf, AfterVrfs;
    h := EMPTY_HOST;
    o := OrdersFrom(h, d, k);
    NoRoutesYet(d, o, k);
    VrfStageHost(h, d, o);
    VrfStageLists(h, d, o, k);
    RepairVrfErrors(AfterVrfs(h, d, o), k, d.routes[k]);
    PrefixClashIsRepeat(AfterVrfs(h, d, o).host, k, d.routes[k]);
    ErrorsStay(h, d, o);
  }

  lemma SomethingErrs(d: Desired) returns (h: Host, o: Orders)
    requires !Clean(d)
    ensures HostInv(h) && ValidOrders(h, d, o) && !NoErrors(h, d, o)
  {
    hide HostInv, NoErrors, ValidOrders;
    if !DistinctNames(d.vrfs) {
      h, o := RepeatedNameErrs(d);
    } else {
      var k :| k in d.routes && !CleanList(d, k);
      var list := d.routes[k];
      if k !in VrfNames(d.vrfs) {
        h, o := MisplacedRouteErrs(d, k, list[0]);
      } else if !KeyedBy(list, k) {
        var i :| 0 <= i < |list| && list[i].vrfName != k;
        h, o := MisplacedRouteErrs(d, k, list[i]);
      } else {
        h, o := RepeatedPrefixErrs(d, k);
      }
    }
  }

  ghost predicate NeverAnError(d: Desired) {
    forall h, o | HostInv(h) && ValidOrders(h, d, o) :: NoErrors(h, d, o)
  }

  /**
   * No table and no map order gives a pass an error exactly when the desired VRF names do not repeat
   * and every nonempty route list is keyed by a desired VRF and repeats no prefix.
   */
  lemma NeverAnErrorExactlyWhenClean(d: Desired)
    ensures NeverAnError(d) <==> Clean(d)
  {
    hide HostInv, NoErrors, ValidOrders, Clean;
    if Clean(d) {
      forall h, o | HostInv(h) && ValidOrders(h, d, o) ensures NoErrors(h, d, o) {
        CleanHasNoErrors(h, d, o);
      }
    } else {
      var h, o := SomethingErrs(d);
    }
  }
}
