/** The host agent's reconciler (internal/agent/reconciler.go): one pass over desired and actual state. */
module Agent {
  import opened Common
  import opened Prefixes
  import opened Netlink

  datatype Desired = Desired(
    vrfs: seq<VrfConfig>,
    routes: map<string, seq<RouteConfig>>,
    acls: map<string, seq<AclConfig>>)

  datatype Report = Report(
    vrfsCreated: nat,
    vrfsDeleted: nat,
    routesAdded: nat,
    routesRemoved: nat,
    aclsUpdated: nat,
    errors: seq<NetlinkError>)

  const EMPTY_REPORT := Report(0, 0, 0, 0, 0, [])

  /** The table and the report as a pass goes on. */
  datatype Progress = Progress(host: Host, report: Report)

  /** The orders in which a pass meets the VRF map and the keys of the desired route and ACL maps. */
  datatype Orders = Orders(vrfs: seq<VrfConfig>, vrfKeys: seq<string>, routes: seq<string>, acls: seq<string>)

  ghost predicate ValidOrders(h: Host, d: Desired, o: Orders) {
    && ListedBy(o.vrfs, o.vrfKeys, h.vrfs)
    && Enumerates(o.routes, d.routes.Keys)
    && Enumerates(o.acls, d.acls.Keys)
  }

  function VrfNames(list: seq<VrfConfig>): set<string> {
    set v | v in list :: v.name
  }

  function PrefixSet(list: seq<RouteConfig>): set<Prefix> {
    set r | r in list :: r.prefix
  }

  // ---- the loops of a pass ----

  function Failed(p: Progress, e: NetlinkError): Progress {
    p.(report := p.report.(errors := p.report.errors + [e]))
  }

  // One operation of a loop: a refusal is an error in the report, a success is counted.

  function CreateStep(p: Progress, cfg: VrfConfig): Progress {
    match CreateVrfError(p.host, cfg)
    case Some(e) => Failed(p, e)
    case None => Progress(WithVrf(p.host, cfg), p.report.(vrfsCreated := p.report.vrfsCreated + 1))
  }

  function DeleteStep(p: Progress, name: string): Progress {
    match DeleteVrfError(p.host, name)
    case Some(e) => Failed(p, e)
    case None => Progress(Without(p.host, {name}), p.report.(vrfsDeleted := p.report.vrfsDeleted + 1))
  }

  function AddStep(p: Progress, cfg: RouteConfig): Progress {
    match AddRouteError(p.host, cfg)
    case Some(e) => Failed(p, e)
    case None =>
      Progress(SetRoutes(p.host, cfg.vrfName, At(p.host.routes, cfg.vrfName) + [cfg]),
               p.report.(routesAdded := p.report.routesAdded + 1))
  }

  function RemoveStep(p: Progress, vrf: string, prefix: Prefix): Progress {
    match DeleteRouteError(p.host, vrf, prefix)
    case Some(e) => Failed(p, e)
    case None =>
      Progress(SetRoutes(p.host, vrf, WithoutPrefix(At(p.host.routes, vrf), prefix)),
               p.report.(routesRemoved := p.report.routesRemoved + 1))
  }

  function ProgramStep(p: Progress, cfg: AclConfig): Progress {
    Progress(SetAcls(p.host, cfg.vrfName, Programmed(At(p.host.acls, cfg.vrfName), cfg)),
             p.report.(aclsUpdated := p.report.aclsUpdated + 1))
  }

  function CreateMissing(p: Progress, actual: set<string>, want: seq<VrfConfig>): Progress
    decreases |want|
  {
    if want == [] then p
    else CreateMissing(if want[0].name in actual then p else CreateStep(p, want[0]), actual, want[1..])
  }

  function DeleteStale(p: Progress, desired: set<string>, actual: seq<VrfConfig>): Progress
    decreases |actual|
  {
    if actual == [] then p
    else DeleteStale(if actual[0].name in desired then p else DeleteStep(p, actual[0].name), desired, actual[1..])
  }

  function AddMissing(p: Progress, actual: set<Prefix>, want: seq<RouteConfig>): Progress
    decreases |want|
  {
    if want == [] then p
    else AddMissing(if want[0].prefix in actual then p else AddStep(p, want[0]), actual, want[1..])
  }

  function RemoveStale(p: Progress, vrf: string, desired: set<Prefix>, actual: seq<RouteConfig>): Progress
    decreases |actual|
  {
    if actual == [] then p
    else RemoveStale(if actual[0].prefix in desired then p else RemoveStep(p, vrf, actual[0].prefix),
                     vrf, desired, actual[1..])
  }

  function RepairVrf(p: Progress, vrf: string, want: seq<RouteConfig>): Progress {
    var actual := At(p.host.routes, vrf);
    RemoveStale(AddMissing(p, PrefixSet(actual), want), vrf, PrefixSet(want), actual)
  }

  function RepairAll(p: Progress, keys: seq<string>, want: map<string, seq<RouteConfig>>): Progress
    decreases |keys|
  {
    if keys == [] then p else RepairAll(RepairVrf(p, keys[0], At(want, keys[0])), keys[1..], want)
  }

  function ProgramList(p: Progress, acls: seq<AclConfig>): Progress
    decreases |acls|
  {
    if acls == [] then p else ProgramList(ProgramStep(p, acls[0]), acls[1..])
  }

  function ProgramAll(p: Progress, keys: seq<string>, want: map<string, seq<AclConfig>>): Progress
    decreases |keys|
  {
    if keys == [] then p else ProgramAll(ProgramList(p, At(want, keys[0])), keys[1..], want)
  }

  function VrfPhase(p: Progress, d: Desired, listed: seq<VrfConfig>): Progress {
    DeleteStale(CreateMissing(p, VrfNames(listed), d.vrfs), VrfNames(d.vrfs), listed)
  }

  /** A whole pass. */
  function Pass(h: Host, d: Desired, o: Orders): Progress {
    ProgramAll(RepairAll(VrfPhase(Progress(h, EMPTY_REPORT), d, o.vrfs), o.routes, d.routes), o.acls, d.acls)
  }

  // ---- the reconciler object ----

  class Reconciler {
    const netlink: InMemoryNetlink
    var desired: Desired

    constructor (netlink: InMemoryNetlink)
      ensures this.netlink == netlink && desired == Desired([], map[], map[])
    {
      this.netlink := netlink;
      desired := Desired([], map[], map[]);
    }

    method SetDesiredState(state: Desired)
      modifies this
      ensures desired == state
    {
      desired := state;
    }

    method AddDesiredVRF(vrf: VrfConfig)
      modifies this
      ensures desired == old(desired).(vrfs := old(desired).vrfs + [vrf])
    {
      desired := desired.(vrfs := desired.vrfs + [vrf]);
    }

    method AddDesiredRoutes(vrfName: string, routes: seq<RouteConfig>)
      modifies this
      ensures At(desired.routes, vrfName) == At(old(desired).routes, vrfName) + routes
      ensures desired.routes - {vrfName} == old(desired).routes - {vrfName}
      ensures desired.vrfs == old(desired).vrfs && desired.acls == old(desired).acls
    {
      desired := desired.(routes := desired.routes[vrfName := At(desired.routes, vrfName) + routes]);
    }

    /** The first inner loop: adds missing routes and collects the desired prefixes. */
    method AddRoutes(actual: set<Prefix>, want: seq<RouteConfig>, report: Report)
      returns (r: Report, desiredPrefixes: set<Prefix>)
      modifies netlink
      ensures Progress(netlink.View(), r) == AddMissing(Progress(old(netlink.View()), report), actual, want)
      ensures desiredPrefixes == PrefixSet(want)
    {
      ghost var start := Progress(netlink.View(), report);
      r, desiredPrefixes := report, {};
      for i := 0 to |want|
        invariant desiredPrefixes == PrefixSet(want[..i])
        invariant AddMissing(Progress(netlink.View(), r), actual, want[i..]) == AddMissing(start, actual, want)
      {
        var dr := want[i];
        assert want[i..][0] == dr && want[i..][1..] == want[i + 1..];
        assert want[..i + 1] == want[..i] + [dr];
        desiredPrefixes := desiredPrefixes + {dr.prefix};
        if dr.prefix !in actual {
          var err := netlink.AddRoute(dr);
          r := if err.Some? then r.(errors := r.errors + [err.value]) else r.(routesAdded := r.routesAdded + 1);
        }
      }
      assert want[..|want|] == want;
    }

    /** The second inner loop: removes what was listed and is not desired. */
    method RemoveRoutes(vrf: string, desiredPrefixes: set<Prefix>, actual: seq<RouteConfig>, report: Report)
      returns (r: Report)
      modifies netlink
      ensures Progress(netlink.View(), r)
              == RemoveStale(Progress(old(netlink.View()), report), vrf, desiredPrefixes, actual)
    {
      ghost var start := Progress(netlink.View(), report);
      r := report;
      for i := 0 to |actual|
        invariant RemoveStale(Progress(netlink.View(), r), vrf, desiredPrefixes, actual[i..])
               == RemoveStale(start, vrf, desiredPrefixes, actual)
      {
        var ar := actual[i];
        assert actual[i..][0] == ar && actual[i..][1..] == actual[i + 1..];
        if ar.prefix !in desiredPrefixes {
          var err := netlink.DeleteRoute(vrf, ar.prefix);
          r := if err.Some? then r.(errors := r.errors + [err.value]) else r.(routesRemoved := r.routesRemoved + 1);
        }
      }
    }

    /** The body of the loop over desired routes, for one VRF. */
    method RepairRoutes(vrf: string, want: seq<RouteConfig>, report: Report) returns (r: Report)
      modifies netlink
      ensures Progress(netlink.View(), r) == RepairVrf(Progress(old(netlink.View()), report), vrf, want)
    {
      var actual := netlink.ListRoutes(vrf);
      var added, desiredPrefixes := AddRoutes(PrefixSet(actual), want, report);
      r := RemoveRoutes(vrf, desiredPrefixes, actual, added);
    }

    method RepairVrfs(report: Report) returns (r: Report, ghost listed: seq<VrfConfig>, ghost keys: seq<string>)
      modifies netlink
      ensures ListedBy(listed, keys, old(netlink.View()).vrfs)
      ensures Progress(netlink.View(), r) == VrfPhase(Progress(old(netlink.View()), report), desired, listed)
    {
      hide ListedBy;
      ghost var start := Progress(netlink.View(), report);
      r := report;
      var want := desired.vrfs;
      var actual, order := netlink.ListVRFs();
      listed, keys := actual, order;
      var actualNames := VrfNames(actual);
      var desiredNames := {};
      for i := 0 to |want|
        invariant desiredNames == VrfNames(want[..i])
        invariant CreateMissing(Progress(netlink.View(), r), actualNames, want[i..])
                == CreateMissing(start, actualNames, want)
      {
        var v := want[i];
        assert want[i..][0] == v && want[i..][1..] == want[i + 1..];
        assert want[..i + 1] == want[..i] + [v];
        desiredNames := desiredNames + {v.name};
        if v.name !in actualNames {
          var err := netlink.CreateVRF(v);
          r := if err.Some? then r.(errors := r.errors + [err.value]) else r.(vrfsCreated := r.vrfsCreated + 1);
        }
      }
      assert want[..|want|] == want;
      ghost var created := CreateMissing(start, actualNames, want);
      for i := 0 to |actual|
        invariant DeleteStale(Progress(netlink.View(), r), desiredNames, actual[i..])
                == DeleteStale(created, desiredNames, actual)
      {
        var v := actual[i];
        assert actual[i..][0] == v && actual[i..][1..] == actual[i + 1..];
        if v.name !in desiredNames {
          var err := netlink.DeleteVRF(v.name);
          r := if err.Some? then r.(errors := r.errors + [err.value]) else r.(vrfsDeleted := r.vrfsDeleted + 1);
        }
      }
    }

    method ProgramAcls(acls: seq<AclConfig>, report: Report) returns (r: Report)
      modifies netlink
      ensures Progress(netlink.View(), r) == ProgramList(Progress(old(netlink.View()), report), acls)
    {
      r := report;
      for i := 0 to |acls|
        invariant ProgramList(Progress(netlink.View(), r), acls[i..])
                == ProgramList(Progress(old(netlink.View()), report), acls)
      {
        assert acls[i..][0] == acls[i] && acls[i..][1..] == acls[i + 1..];
        netlink.ProgramACL(acls[i]);
        r := r.(aclsUpdated := r.aclsUpdated + 1);
      }
    }

    /** One pass; `o` records the map orders it happened to meet. */
    method Reconcile() returns (report: Report, ghost o: Orders)
      modifies netlink
      ensures ValidOrders(old(netlink.View()), desired, o)
      ensures Progress(netlink.View(), report) == Pass(old(netlink.View()), desired, o)
    {
      ghost var listed: seq<VrfConfig>;
      ghost var keys: seq<string>;
      report, listed, keys := RepairVrfs(EMPTY_REPORT);
      ghost var afterVrfs := Progress(netlink.View(), report);

      ghost var routeOrder: seq<string>;
      report, routeOrder := RepairAllRoutes(report);
      ghost var afterRoutes := Progress(netlink.View(), report);

      ghost var aclOrder: seq<string>;
      report, aclOrder := ProgramAllAcls(report);
      o := Orders(listed, keys, routeOrder, aclOrder);
    }

    method RepairAllRoutes(report: Report) returns (r: Report, ghost order: seq<string>)
      modifies netlink
      ensures Enumerates(order, desired.routes.Keys)
      ensures Progress(netlink.View(), r) == RepairAll(Progress(old(netlink.View()), report), order, desired.routes)
    {
      r, order := report, [];
      ghost var start := Progress(netlink.View(), report);
      var rest := desired.routes.Keys;
      while rest != {}
        invariant rest <= desired.routes.Keys && Enumerates(order, desired.routes.Keys - rest)
        invariant Progress(netlink.View(), r) == RepairAll(start, order, desired.routes)
        decreases rest
      {
        var k :| k in rest;
        assert At(desired.routes, k) == desired.routes[k];
        r := RepairRoutes(k, desired.routes[k], r);
        RepairAllSnoc(start, order, k, desired.routes);
        EnumeratesOneMore(order, desired.routes.Keys - rest, k);
        assert desired.routes.Keys - (rest - {k}) == desired.routes.Keys - rest + {k};
        rest, order := rest - {k}, order + [k];
      }
      assert desired.routes.Keys - {} == desired.routes.Keys;
    }

    method ProgramAllAcls(report: Report) returns (r: Report, ghost order: seq<string>)
      modifies netlink
      ensures Enumerates(order, desired.acls.Keys)
      ensures Progress(netlink.View(), r) == ProgramAll(Progress(old(netlink.View()), report), order, desired.acls)
    {
      r, order := report, [];
      ghost var start := Progress(netlink.View(), report);
      var rest := desired.acls.Keys;
      while rest != {}
        invariant rest <= desired.acls.Keys && Enumerates(order, desired.acls.Keys - rest)
        invariant Progress(netlink.View(), r) == ProgramAll(start, order, desired.acls)
        decreases rest
      {
        var k :| k in rest;
        r := ProgramAcls(desired.acls[k], r);
        ProgramAllSnoc(start, order, k, desired.acls);
        EnumeratesOneMore(order, desired.acls.Keys - rest, k);
        assert desired.acls.Keys - (rest - {k}) == desired.acls.Keys - rest + {k};
        rest, order := rest - {k}, order + [k];
      }
      assert desired.acls.Keys - {} == desired.acls.Keys;
    }
  }

  lemma EnumeratesOneMore(order: seq<string>, had: set<string>, k: string)
    requires Enumerates(order, had) && k !in had
    ensures Enumerates(order + [k], had + {k})
  {
  }

  lemma {:induction false} RepairAllSnoc(p: Progress, keys: seq<string>, k: string, want: map<string, seq<RouteConfig>>)
    ensures RepairAll(p, keys + [k], want) == RepairVrf(RepairAll(p, keys, want), k, At(want, k))
    decreases |keys|
  {
    if keys == [] {
      var next := RepairVrf(p, k, At(want, k));
      assert RepairAll(next, [k][1..], want) == next;
    } else {
      assert (keys + [k])[1..] == keys[1..] + [k];
      RepairAllSnoc(RepairVrf(p, keys[0], At(want, keys[0])), keys[1..], k, want);
    }
  }

  lemma {:induction false} ProgramAllSnoc(p: Progress, keys: seq<string>, k: string, want: map<string, seq<AclConfig>>)
    ensures ProgramAll(p, keys + [k], want) == ProgramList(ProgramAll(p, keys, want), At(want, k))
    decreases |keys|
  {
    if keys == [] {
      var next := ProgramList(p, At(want, k));
      assert ProgramAll(next, [k][1..], want) == next;
    } else {
      assert (keys + [k])[1..] == keys[1..] + [k];
      ProgramAllSnoc(ProgramList(p, At(want, keys[0])), keys[1..], k, want);
    }
  }
}
