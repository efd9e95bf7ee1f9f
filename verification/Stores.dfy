/** The in-memory stores (internal/store/memory.go) as objects, against the functions of `Lifecycle`. */
module Stores {
  import opened Common
  import opened Prefixes
  import opened Model
  import Cidr
  import Vni
  import Bgp
  import opened Lifecycle

  class VpcStore {
    var vpcs: map<Uuid, Vpc>

    constructor ()
      ensures vpcs == map[]
    {
      vpcs := map[];
    }

    method Create(vpc: Vpc) returns (ok: bool)
      modifies this
      ensures ok <==> vpc.id !in old(vpcs)
      ensures vpcs == if ok then old(vpcs)[vpc.id := vpc] else old(vpcs)
    {
      if vpc.id in vpcs {
        return false;
      }
      vpcs := vpcs[vpc.id := vpc];
      return true;
    }

    method Get(id: Uuid) returns (vpc: Option<Vpc>)
      ensures vpc == GetVpc(vpcs, id)
    {
      if id !in vpcs || vpcs[id].state == VpcDeleted {
        return None;
      }
      return Some(vpcs[id]);
    }

    method Delete(id: Uuid) returns (ok: bool)
      modifies this
      ensures ok <==> id in old(vpcs)
      ensures vpcs == if ok then old(vpcs)[id := old(vpcs)[id].(state := VpcDeleted)] else old(vpcs)
    {
      if id !in vpcs {
        return false;
      }
      vpcs := vpcs[id := vpcs[id].(state := VpcDeleted)];
      return true;
    }

    /** Some live VPC of the account with an address in common with the blocks, if there is one. */
    method FindOverlappingCIDR(account: Uuid, cidrs: seq<Prefix>) returns (found: Option<Vpc>)
      ensures found.Some? <==> AddressesTaken(vpcs, account, cidrs)
      ensures found.Some? ==> found.value in vpcs.Values && UsesAddresses(found.value, account, cidrs)
    {
      var rest := vpcs.Keys;
      while rest != {}
        invariant rest <= vpcs.Keys
        invariant forall id | id in vpcs && id !in rest :: !UsesAddresses(vpcs[id], account, cidrs)
        decreases |rest|
      {
        var id :| id in rest;
        rest := rest - {id};
        var v := vpcs[id];
        if v.account != account || v.state == VpcDeleted {
          continue;
        }
        if Cidr.CIDRsOverlap(v.cidrs, cidrs) {
          assert UsesAddresses(vpcs[id], account, cidrs);
          return Some(v);
        }
      }
      return None;
    }

    method FindByName(account: Uuid, region: string, name: string) returns (found: Option<Vpc>)
      ensures found.Some? <==> NameTaken(vpcs, account, region, name)
      ensures found.Some? ==> found.value in vpcs.Values && HasName(found.value, account, region, name)
    {
      var rest := vpcs.Keys;
      while rest != {}
        invariant rest <= vpcs.Keys
        invariant forall id | id in vpcs && id !in rest :: !HasName(vpcs[id], account, region, name)
        decreases |rest|
      {
        var id :| id in rest;
        rest := rest - {id};
        var v := vpcs[id];
        if v.account == account && v.region == region && v.name == name && v.state != VpcDeleted {
          assert HasName(vpcs[id], account, region, name);
          return Some(v);
        }
      }
      return None;
    }
  }

  class PeeringStore {
    var peerings: map<Uuid, Peering>

    constructor ()
      ensures peerings == map[]
    {
      peerings := map[];
    }

    method Create(p: Peering)
      modifies this
      ensures peerings == old(peerings)[p.id := p]
    {
      peerings := peerings[p.id := p];
    }

    method Get(id: Uuid) returns (p: Option<Peering>)
      ensures p == GetPeering(peerings, id)
    {
      if id !in peerings || peerings[id].state == Deleted {
        return None;
      }
      return Some(peerings[id]);
    }

    method Update(p: Peering) returns (ok: bool)
      modifies this
      ensures ok <==> p.id in old(peerings)
      ensures peerings == if ok then old(peerings)[p.id := p] else old(peerings)
    {
      if p.id !in peerings {
        return false;
      }
      peerings := peerings[p.id := p];
      return true;
    }

    method Delete(id: Uuid) returns (ok: bool)
      modifies this
      ensures ok <==> id in old(peerings)
      ensures peerings == if ok then old(peerings)[id := old(peerings)[id].(state := Deleted)] else old(peerings)
    {
      if id !in peerings {
        return false;
      }
      peerings := peerings[id := peerings[id].(state := Deleted)];
      return true;
    }

    /** Some live peering of the two VPCs, in either role, if there is one. */
    method FindByVPCs(a: Uuid, b: Uuid) returns (found: Option<Peering>)
      ensures found.Some? <==> PairTaken(peerings, a, b)
      ensures found.Some? ==> found.value in peerings.Values && Joins(found.value, a, b)
    {
      var rest := peerings.Keys;
      while rest != {}
        invariant rest <= peerings.Keys
        invariant forall id | id in peerings && id !in rest :: !Joins(peerings[id], a, b)
        decreases |rest|
      {
        var id :| id in rest;
        rest := rest - {id};
        var p := peerings[id];
        if p.state == Deleted || p.state == Rejected || p.state == Expired {
          continue;
        }
        if (p.requester == a && p.accepter == b) || (p.requester == b && p.accepter == a) {
          assert Joins(peerings[id], a, b);
          return Some(p);
        }
      }
      return None;
    }

    method CountByVPC(vpc: Uuid) returns (count: nat)
      ensures count == CountByVpc(peerings, vpc)
    {
      count := 0;
      var rest := peerings.Keys;
      ghost var counted: set<Uuid> := {};
      while rest != {}
        invariant rest <= peerings.Keys && count == |counted|
        invariant counted == LiveAt(peerings, vpc) - rest
        decreases |rest|
      {
        var id :| id in rest;
        rest := rest - {id};
        var p := peerings[id];
        if p.state == Deleted || p.state == Rejected || p.state == Expired {
          continue;
        }
        if p.requester == vpc || p.accepter == vpc {
          count := count + 1;
          counted := counted + {id};
        }
      }
    }

    /** The records in a state, in the order the map happens to give. */
    method ListByState(st: PeeringState) returns (items: seq<Peering>, ghost ids: seq<Uuid>)
      ensures Lists(Listing(ids, items), peerings, st)
    {
      items, ids := [], [];
      var rest := peerings.Keys;
      while rest != {}
        invariant rest <= peerings.Keys && |ids| == |items|
        invariant forall id :: id in ids <==> id in InState(peerings, st) && id !in rest
        invariant forall i, j | 0 <= i < j < |ids| :: ids[i] != ids[j]
        invariant forall i | 0 <= i < |ids| :: ids[i] in peerings && items[i] == peerings[ids[i]]
        decreases |rest|
      {
        var id :| id in rest;
        rest := rest - {id};
        if peerings[id].state == st {
          assert forall i | 0 <= i < |ids| :: ids[i] in ids;
          items, ids := items + [peerings[id]], ids + [id];
        }
      }
    }
  }

  class EventStore {
    var events: seq<Event>

    constructor ()
      ensures events == []
    {
      events := [];
    }

    method Append(peering: Uuid, kind: EventKind)
      modifies this
      ensures events == old(events) + [Event(peering, kind)]
    {
      events := events + [Event(peering, kind)];
    }
  }

  class RouteStore {
    var routes: seq<RouteEntry>

    constructor ()
      ensures routes == []
    {
      routes := [];
    }

    /** Replaces the first entry with the same peering and prefix, or appends. */
    method Upsert(e: RouteEntry)
      modifies this
      ensures routes == Lifecycle.Upsert(old(routes), e)
    {
      hide Lifecycle.Upsert;
      for i := 0 to |routes|
        invariant routes == old(routes)
        invariant forall k | 0 <= k < i :: !SameRoute(routes[k], e)
      {
        if routes[i].peering == e.peering && routes[i].prefix == e.prefix {
          UpsertAt(routes, e, i);
          routes := routes[i := e];
          return;
        }
      }
      UpsertAt(routes, e, |routes|);
      routes := routes + [e];
    }

    method Delete(peering: Uuid, prefix: Prefix)
      modifies this
      ensures routes == DeleteRoute(old(routes), peering, prefix)
    {
      hide DeleteRoute;
      for i := 0 to |routes|
        invariant routes == old(routes)
        invariant forall k | 0 <= k < i :: !(routes[k].peering == peering && routes[k].prefix == prefix)
      {
        if routes[i].peering == peering && routes[i].prefix == prefix {
          DeleteAt(routes, peering, prefix, i);
          routes := routes[..i] + routes[i + 1..];
          return;
        }
      }
      DeleteAt(routes, peering, prefix, |routes|);
    }
  }

  /** The objects the handlers and the controller share. */
  class Shared {
    const vpcs: VpcStore
    const peerings: PeeringStore
    const events: EventStore
    const routes: RouteStore
    const bgp: Bgp.InMemoryService
    const alloc: Vni.Allocator

    constructor (vpcs: VpcStore, peerings: PeeringStore, events: EventStore, routes: RouteStore,
                 bgp: Bgp.InMemoryService, alloc: Vni.Allocator)
      ensures this.vpcs == vpcs && this.peerings == peerings && this.events == events && this.routes == routes
      ensures this.bgp == bgp && this.alloc == alloc
    {
      this.vpcs, this.peerings, this.events, this.routes := vpcs, peerings, events, routes;
      this.bgp, this.alloc := bgp, alloc;
    }

    ghost function Parts(): set<object> {
      {vpcs, peerings, events, routes, bgp, alloc}
    }

    /** All of it as one value. */
    ghost function View(): State
      reads Parts()
    {
      State(vpcs.vpcs, peerings.peerings, events.events, routes.routes, bgp.View(), alloc.inUse, alloc.regionMap)
    }
  }
}
