/** The provisioner and the reconciler (internal/controller) over the shared stores. */
module Controller {
  import opened Common
  import opened Model
  import Bgp
  import opened Lifecycle
  import opened Stores

  class Provisioner {
    const s: Shared

    constructor (s: Shared)
      ensures this.s == s
    {
      this.s := s;
    }

    /** The loop over the two route target changes; it stops at the first error. */
    method ConfigureRTs(requester: Vpc, accepter: Vpc, action: Bgp.RTAction) returns (ok: bool)
      modifies s.bgp
      ensures ok <==> action != Bgp.UnknownAction
      ensures s.bgp.View() == Lifecycle.ConfigureBoth(old(s.bgp.View()), requester, accepter, action)
    {
      var rtConfigs :=
        Bgp.BuildPeeringRTConfigs(requester.vrfName, accepter.vrfName, requester.exportRT, accepter.exportRT, action);
      ok := s.bgp.ConfigureRT(rtConfigs[0]);
      if ok {
        ok := s.bgp.ConfigureRT(rtConfigs[1]);
      }
    }

    method Inject(v: Vpc)
      modifies s.bgp
      ensures s.bgp.View() == Bgp.Injected(old(s.bgp.View()), v.id, RoutesOf(v))
    {
      var routes := Bgp.BuildType5Routes(v.id, v.region, v.account, v.cidrs, v.vni);
      var _ := s.bgp.InjectRoutes(v.id, routes);
    }

    /** Stores one direct entry per block and counts them. */
    method StoreRoutes(v: Vpc, id: Uuid, routeCount: nat) returns (count: nat)
      modifies s.routes
      ensures s.routes.routes == UpsertAll(old(s.routes.routes), DirectEntries(v, id))
      ensures count == routeCount + |v.cidrs|
    {
      count := routeCount;
      ghost var entries := DirectEntries(v, id);
      for i := 0 to |v.cidrs|
        invariant s.routes.routes == UpsertAll(old(s.routes.routes), entries[..i])
        invariant count == routeCount + i
      {
        s.routes.Upsert(RouteEntry(v.cidrs[i], v.id, id, Direct, PreferenceForOrigin(Direct), RouteActive));
        count := count + 1;
        assert entries[..i + 1][..i] == entries[..i];
      }
      assert entries[..|v.cidrs|] == entries;
    }

    method ProvisionPeering(id: Uuid, now: int) returns (error: Option<ProvisionError>)
      modifies s.bgp, s.routes, s.peerings, s.events
      ensures (s.View(), error) == Lifecycle.ProvisionPeering(old(s.View()), id, now)
    {
      hide ProvisionedBgp, UpsertAll, DirectEntries;
      var found := s.peerings.Get(id);
      if found == None {
        return Some(PeeringNotFound);
      }
      var peering := found.value;
      if peering.state != Provisioning {
        return Some(WrongState);
      }
      var requester := s.vpcs.Get(peering.requester);
      if requester == None {
        return Some(RequesterMissing);
      }
      var accepter := s.vpcs.Get(peering.accepter);
      if accepter == None {
        return Some(AccepterMissing);
      }
      ConfigureFabric(peering, requester.value, accepter.value);
      var routeCount := StoreRoutes(accepter.value, id, 0);
      if peering.direction == BIDIRECTIONAL || peering.direction == ACCEPTER_TO_REQUESTER {
        routeCount := StoreRoutes(requester.value, id, routeCount);
      }
      peering := peering.(state := Active, provisionedAt := Some(now), routeCount := routeCount);
      var ok := s.peerings.Update(peering);
      if !ok {
        return Some(UpdateFailed);
      }
      s.events.Append(id, PeeringProvisioned);
      return None;
    }

    /** The BGP steps of provisioning. */
    method ConfigureFabric(peering: Peering, requester: Vpc, accepter: Vpc)
      modifies s.bgp
      ensures s.bgp.View() == ProvisionedBgp(old(s.bgp.View()), peering, requester, accepter)
    {
      var ok := ConfigureRTs(requester, accepter, Bgp.AddImport);
      assert ok;
      Inject(accepter);
      if peering.direction == BIDIRECTIONAL || peering.direction == ACCEPTER_TO_REQUESTER {
        Inject(requester);
      }
    }

    method DeprovisionPeering(id: Uuid) returns (error: Option<ProvisionError>)
      modifies s.bgp
      ensures (s.View(), error) == Lifecycle.DeprovisionPeering(old(s.View()), id)
    {
      var found := s.peerings.Get(id);
      if found == None {
        return Some(PeeringNotFound);
      }
      var requester := s.vpcs.Get(found.value.requester);
      var accepter := s.vpcs.Get(found.value.accepter);
      if accepter.Some? {
        var _ := s.bgp.WithdrawRoutes(accepter.value.id, accepter.value.cidrs);
      }
      if requester.Some? {
        var _ := s.bgp.WithdrawRoutes(requester.value.id, requester.value.cidrs);
      }
      if requester.Some? && accepter.Some? {
        var _ := ConfigureRTs(requester.value, accepter.value, Bgp.RemoveImport);
      }
      return None;
    }
  }

  class Reconciler {
    const s: Shared
    const provisioner: Provisioner

    /** Both work on the same stores. */
    ghost predicate Wired() {
      provisioner.s == s
    }

    constructor (s: Shared)
      ensures this.s == s && Wired()
    {
      this.s := s;
      provisioner := new Provisioner(s);
    }

    method ProvisionWaiting(report: Report, now: int) returns (r: Report, ghost l: Listing)
      requires Wired()
      modifies s.bgp, s.routes, s.peerings, s.events
      ensures Lists(l, old(s.peerings.peerings), Provisioning)
      ensures Progress(s.View(), r) == ProvisionListed(Progress(old(s.View()), report), l.items, now)
    {
      hide Lifecycle.ProvisionPeering, Lists;
      r := report;
      var items, ids := s.peerings.ListByState(Provisioning);
      l := Listing(ids, items);
      ghost var start := Progress(s.View(), report);
      for i := 0 to |items|
        invariant ProvisionListed(Progress(s.View(), r), items[i..], now) == ProvisionListed(start, items, now)
      {
        assert items[i..][0] == items[i] && items[i..][1..] == items[i + 1..];
        var error := provisioner.ProvisionPeering(items[i].id, now);
        if error.Some? {
          r := r.(errors := r.errors + [error.value]);
        } else {
          r := r.(provisioned := r.provisioned + 1);
        }
      }
    }

    method DeprovisionDeleting(report: Report) returns (r: Report, ghost l: Listing)
      requires Wired()
      modifies s.bgp
      ensures Lists(l, s.peerings.peerings, Deleting)
      ensures Progress(s.View(), r) == DeprovisionListed(Progress(old(s.View()), report), l.items)
    {
      r := report;
      var items, ids := s.peerings.ListByState(Deleting);
      l := Listing(ids, items);
      ghost var start := Progress(s.View(), report);
      for i := 0 to |items|
        invariant DeprovisionListed(Progress(s.View(), r), items[i..]) == DeprovisionListed(start, items)
      {
        assert items[i..][0] == items[i] && items[i..][1..] == items[i + 1..];
        var error := provisioner.DeprovisionPeering(items[i].id);
        if error.Some? {
          r := r.(errors := r.errors + [error.value]);
        } else {
          r := r.(deprovisioned := r.deprovisioned + 1);
        }
      }
    }

    method ExpirePending(report: Report, now: int) returns (r: Report, ghost l: Listing)
      modifies s.peerings
      ensures Lists(l, old(s.peerings.peerings), PendingAcceptance)
      ensures Progress(s.View(), r) == ExpireListed(Progress(old(s.View()), report), l.items, now)
    {
      r := report;
      var items, ids := s.peerings.ListByState(PendingAcceptance);
      l := Listing(ids, items);
      ghost var start := Progress(s.View(), report);
      for i := 0 to |items|
        invariant ExpireListed(Progress(s.View(), r), items[i..], now) == ExpireListed(start, items, now)
      {
        var p := items[i];
        assert items[i..][0] == p && items[i..][1..] == items[i + 1..];
        if now - p.createdAt > PENDING_LIFETIME {
          p := p.(state := Expired);
          var _ := s.peerings.Update(p);
          r := r.(expiredPending := r.expiredPending + 1);
        }
      }
    }

    method RetryFailed(report: Report, now: int) returns (r: Report, ghost l: Listing)
      requires Wired()
      modifies s.bgp, s.routes, s.peerings, s.events
      ensures Lists(l, old(s.peerings.peerings), Failed)
      ensures Progress(s.View(), r) == RetryListed(Progress(old(s.View()), report), l.items, now)
    {
      hide Lifecycle.ProvisionPeering, Lists;
      r := report;
      var items, ids := s.peerings.ListByState(Failed);
      l := Listing(ids, items);
      ghost var start := Progress(s.View(), report);
      for i := 0 to |items|
        invariant RetryListed(Progress(s.View(), r), items[i..], now) == RetryListed(start, items, now)
      {
        var p := items[i];
        assert items[i..][0] == p && items[i..][1..] == items[i + 1..];
        if now - p.createdAt < RETRY_WINDOW {
          p := p.(state := Provisioning);
          var _ := s.peerings.Update(p);
          var error := provisioner.ProvisionPeering(p.id, now);
          if error.Some? {
            r := r.(errors := r.errors + [error.value]);
          } else {
            r := r.(failedRetries := r.failedRetries + 1);
          }
        }
      }
    }

    /** One pass: the four phases in turn, each over the records the store then lists. */
    method ReconcileAll(now: int) returns (report: Report, ghost orders: PassOrders)
      requires Wired()
      modifies s.bgp, s.routes, s.peerings, s.events
      ensures ValidPassOrders(old(s.View()), orders, now)
      ensures Progress(s.View(), report) == ReconcilePass(old(s.View()), orders, now)
    {
      hide Lists, ProvisionListed, DeprovisionListed, ExpireListed, RetryListed;
      ghost var provisioning, deleting, pending, failed;
      report, provisioning := ProvisionWaiting(EMPTY_REPORT, now);
      report, deleting := DeprovisionDeleting(report);
      report, pending := ExpirePending(report, now);
      report, failed := RetryFailed(report, now);
      orders := PassOrders(provisioning, deleting, pending, failed);
    }
  }
}
