/** The host table and its operations (internal/agent/netlink.go). */
module Netlink {
  import opened Common
  import opened Prefixes

  datatype VrfConfig = VrfConfig(name: string, tableId: int, vni: nat, vtep: Option<Address>)

  datatype RouteConfig = RouteConfig(vrfName: string, prefix: Prefix, nextHop: Option<Address>, vni: nat)

  datatype AclRule = AclRule(
    src: Prefix, dst: Prefix, protocol: string,
    srcPortStart: int, srcPortEnd: int, dstPortStart: int, dstPortEnd: int, action: string)

  datatype AclConfig = AclConfig(vrfName: string, peeringId: string, rules: seq<AclRule>)

  datatype NetlinkError =
    | VrfExists(name: string)
    | VrfNotFound(name: string)
    | RouteExists(prefix: Prefix, vrfName: string)
    | RouteNotFound(prefix: Prefix, vrfName: string)

  /** What is programmed on a host. */
  datatype Host = Host(
    vrfs: map<string, VrfConfig>,
    routes: map<string, seq<RouteConfig>>,
    acls: map<string, seq<AclConfig>>)

  const EMPTY_HOST := Host(map[], map[], map[])

  // ---- the operations on values ----

  predicate HasPrefix(list: seq<RouteConfig>, p: Prefix) {
    exists i | 0 <= i < |list| :: list[i].prefix == p
  }

  /** The list without its first entry for `p`. */
  function WithoutPrefix(list: seq<RouteConfig>, p: Prefix): seq<RouteConfig> {
    if list == [] then []
    else if list[0].prefix == p then list[1..]
    else [list[0]] + WithoutPrefix(list[1..], p)
  }

  /** The entries of other peerings, in order. */
  function OtherPeerings(list: seq<AclConfig>, id: string): seq<AclConfig> {
    if list == [] then []
    else if list[0].peeringId != id then [list[0]] + OtherPeerings(list[1..], id)
    else OtherPeerings(list[1..], id)
  }

  // For each operation, the error its precondition gives and the table a success leaves.

  function CreateVrfError(h: Host, cfg: VrfConfig): Option<NetlinkError> {
    if cfg.name in h.vrfs then Some(VrfExists(cfg.name)) else None
  }

  function WithVrf(h: Host, cfg: VrfConfig): Host {
    h.(vrfs := h.vrfs[cfg.name := cfg])
  }

  function DeleteVrfError(h: Host, name: string): Option<NetlinkError> {
    if name !in h.vrfs then Some(VrfNotFound(name)) else None
  }

  function Without(h: Host, names: set<string>): Host {
    Host(h.vrfs - names, h.routes - names, h.acls - names)
  }

  function AddRouteError(h: Host, cfg: RouteConfig): Option<NetlinkError> {
    if cfg.vrfName !in h.vrfs then Some(VrfNotFound(cfg.vrfName))
    else if HasPrefix(At(h.routes, cfg.vrfName), cfg.prefix) then Some(RouteExists(cfg.prefix, cfg.vrfName))
    else None
  }

  function SetRoutes(h: Host, vrf: string, list: seq<RouteConfig>): Host {
    h.(routes := h.routes[vrf := list])
  }

  function DeleteRouteError(h: Host, vrf: string, p: Prefix): Option<NetlinkError> {
    if HasPrefix(At(h.routes, vrf), p) then None else Some(RouteNotFound(p, vrf))
  }

  function Programmed(list: seq<AclConfig>, cfg: AclConfig): seq<AclConfig> {
    OtherPeerings(list, cfg.peeringId) + [cfg]
  }

  function SetAcls(h: Host, vrf: string, list: seq<AclConfig>): Host {
    h.(acls := h.acls[vrf := list])
  }

  datatype Op =
    | CreateVRF(vrf: VrfConfig)
    | DeleteVRF(name: string)
    | AddRoute(route: RouteConfig)
    | DeleteRoute(vrfName: string, prefix: Prefix)
    | ProgramACL(acl: AclConfig)
    | ClearACL(aclVrf: string, peeringId: string)

  function Refusal(h: Host, op: Op): Option<NetlinkError> {
    match op
    case CreateVRF(cfg) => CreateVrfError(h, cfg)
    case DeleteVRF(name) => DeleteVrfError(h, name)
    case AddRoute(cfg) => AddRouteError(h, cfg)
    case DeleteRoute(v, p) => DeleteRouteError(h, v, p)
    case ProgramACL(_) => None
    case ClearACL(_, _) => None
  }

  /** The table after an operation; a refused one changes nothing. */
  function Apply(h: Host, op: Op): Host {
    if Refusal(h, op).Some? then h
    else
      match op
      case CreateVRF(cfg) => WithVrf(h, cfg)
      case DeleteVRF(name) => Without(h, {name})
      case AddRoute(cfg) => SetRoutes(h, cfg.vrfName, At(h.routes, cfg.vrfName) + [cfg])
      case DeleteRoute(v, p) => SetRoutes(h, v, WithoutPrefix(At(h.routes, v), p))
      case ProgramACL(cfg) => SetAcls(h, cfg.vrfName, Programmed(At(h.acls, cfg.vrfName), cfg))
      case ClearACL(v, id) => SetAcls(h, v, OtherPeerings(At(h.acls, v), id))
  }

  class InMemoryNetlink {
    var vrfs: map<string, VrfConfig>
    var routes: map<string, seq<RouteConfig>>
    var acls: map<string, seq<AclConfig>>

    ghost function View(): Host
      reads this
    {
      Host(vrfs, routes, acls)
    }

    constructor ()
      ensures View() == EMPTY_HOST
    {
      vrfs, routes, acls := map[], map[], map[];
    }

    method CreateVRF(cfg: VrfConfig) returns (err: Option<NetlinkError>)
      modifies this
      ensures err == Refusal(old(View()), Op.CreateVRF(cfg)) && View() == Apply(old(View()), Op.CreateVRF(cfg))
    {
      if cfg.name in vrfs {
        return Some(VrfExists(cfg.name));
      }
      vrfs := vrfs[cfg.name := cfg];
      return None;
    }

    method DeleteVRF(name: string) returns (err: Option<NetlinkError>)
      modifies this
      ensures err == Refusal(old(View()), Op.DeleteVRF(name)) && View() == Apply(old(View()), Op.DeleteVRF(name))
    {
      if name !in vrfs {
        return Some(VrfNotFound(name));
      }
      vrfs := vrfs - {name};
      routes := routes - {name};
      acls := acls - {name};
      return None;
    }

    method AddRoute(cfg: RouteConfig) returns (err: Option<NetlinkError>)
      modifies this
      ensures err == Refusal(old(View()), Op.AddRoute(cfg)) && View() == Apply(old(View()), Op.AddRoute(cfg))
    {
      if cfg.vrfName !in vrfs {
        return Some(VrfNotFound(cfg.vrfName));
      }
      var list := At(routes, cfg.vrfName);
      for i := 0 to |list|
        invariant forall k | 0 <= k < i :: list[k].prefix != cfg.prefix
      {
        if list[i].prefix == cfg.prefix {
          return Some(RouteExists(cfg.prefix, cfg.vrfName));
        }
      }
      routes := routes[cfg.vrfName := list + [cfg]];
      return None;
    }

    method DeleteRoute(vrfName: string, prefix: Prefix) returns (err: Option<NetlinkError>)
      modifies this
      ensures err == Refusal(old(View()), Op.DeleteRoute(vrfName, prefix))
      ensures View() == Apply(old(View()), Op.DeleteRoute(vrfName, prefix))
    {
      var list := At(routes, vrfName);
      for i := 0 to |list|
        invariant forall k | 0 <= k < i :: list[k].prefix != prefix
      {
        if list[i].prefix == prefix {
          WithoutPrefixSplice(list, prefix, i);
          routes := routes[vrfName := list[..i] + list[i + 1..]];
          return None;
        }
      }
      return Some(RouteNotFound(prefix, vrfName));
    }

    method ListRoutes(vrfName: string) returns (list: seq<RouteConfig>)
      ensures list == At(View().routes, vrfName)
    {
      return At(routes, vrfName);
    }

    method FilterACL(vrfName: string, peeringId: string) returns (filtered: seq<AclConfig>)
      ensures filtered == OtherPeerings(At(acls, vrfName), peeringId)
    {
      var existing := At(acls, vrfName);
      filtered := [];
      for i := 0 to |existing|
        invariant filtered + OtherPeerings(existing[i..], peeringId) == OtherPeerings(existing, peeringId)
      {
        assert existing[i..][1..] == existing[i + 1..];
        if existing[i].peeringId != peeringId {
          filtered := filtered + [existing[i]];
        }
      }
    }

    method ProgramACL(cfg: AclConfig)
      modifies this
      ensures View() == Apply(old(View()), Op.ProgramACL(cfg))
    {
      var filtered := FilterACL(cfg.vrfName, cfg.peeringId);
      acls := acls[cfg.vrfName := filtered + [cfg]];
    }

    method ClearACL(vrfName: string, peeringId: string)
      modifies this
      ensures View() == Apply(old(View()), Op.ClearACL(vrfName, peeringId))
    {
      var filtered := FilterACL(vrfName, peeringId);
      acls := acls[vrfName := filtered];
    }

    /** The VRFs in an arbitrary map order; `keys` is the order met. */
    method ListVRFs() returns (list: seq<VrfConfig>, ghost keys: seq<string>)
      ensures ListedBy(list, keys, View().vrfs)
    {
      list, keys := [], [];
      var rest := vrfs.Keys;
      while rest != {}
        invariant rest <= vrfs.Keys
        invariant ListedBy(list, keys, vrfs - rest)
        decreases rest
      {
        var name :| name in rest;
        ListsOneMore(list, keys, vrfs - rest, name, vrfs[name]);
        assert vrfs - (rest - {name}) == (vrfs - rest)[name := vrfs[name]];
        rest := rest - {name};
        list, keys := list + [vrfs[name]], keys + [name];
      }
      assert vrfs - {} == vrfs;
    }
  }

  lemma {:induction false} WithoutPrefixSplice(list: seq<RouteConfig>, p: Prefix, i: nat)
    requires i < |list| && list[i].prefix == p && forall k | 0 <= k < i :: list[k].prefix != p
    ensures WithoutPrefix(list, p) == list[..i] + list[i + 1..]
  {
    if i > 0 {
      WithoutPrefixSplice(list[1..], p, i - 1);
    }
  }

  /** `list` is the range of `vrfs`, one entry per key: position `i` belongs to the key `keys[i]`. */
  ghost predicate ListedBy(list: seq<VrfConfig>, keys: seq<string>, vrfs: map<string, VrfConfig>) {
    && |keys| == |list| && Enumerates(keys, vrfs.Keys)
    && forall i | 0 <= i < |list| :: keys[i] in vrfs && list[i] == vrfs[keys[i]]
  }

  lemma ListsOneMore(list: seq<VrfConfig>, keys: seq<string>, had: map<string, VrfConfig>, name: string, cfg: VrfConfig)
    requires ListedBy(list, keys, had) && name !in had
    ensures ListedBy(list + [cfg], keys + [name], had[name := cfg])
  {
    forall x ensures x in keys + [name] <==> x in had[name := cfg].Keys {
      assert x in keys <==> x in had.Keys;
    }
  }

  // ---- each operation, said about the maps and lists it touches ----

  /** Creating adds exactly the given record under its name; deleting takes a name out of all three maps. */
  lemma VrfOpsMeaning(h: Host, cfg: VrfConfig, name: string)
    ensures var (g, e) := (Apply(h, CreateVRF(cfg)), Refusal(h, CreateVRF(cfg)));
            && e == (if cfg.name in h.vrfs then Some(VrfExists(cfg.name)) else None)
            && g == (if e.Some? then h else Host(h.vrfs[cfg.name := cfg], h.routes, h.acls))
    ensures var (g, e) := (Apply(h, DeleteVRF(name)), Refusal(h, DeleteVRF(name)));
            && e == (if name in h.vrfs then None else Some(VrfNotFound(name)))
            && g == (if e.Some? then h else Host(h.vrfs - {name}, h.routes - {name}, h.acls - {name}))
  {
  }

  /** A route is appended to the list of its VRF, unless the VRF is unknown or the prefix is there. */
  lemma AddRouteMeaning(h: Host, cfg: RouteConfig)
    ensures var (g, e) := (Apply(h, AddRoute(cfg)), Refusal(h, AddRoute(cfg)));
            && (cfg.vrfName !in h.vrfs ==> e == Some(VrfNotFound(cfg.vrfName)))
            && (cfg.vrfName in h.vrfs && (exists r :: r in At(h.routes, cfg.vrfName) && r.prefix == cfg.prefix) ==>
                  e == Some(RouteExists(cfg.prefix, cfg.vrfName)))
            && (cfg.vrfName in h.vrfs && !(exists r :: r in At(h.routes, cfg.vrfName) && r.prefix == cfg.prefix) ==>
                  e == None)
            && g == (if e.Some? then h
                     else h.(routes := h.routes[cfg.vrfName := At(h.routes, cfg.vrfName) + [cfg]]))
  {
    var list := At(h.routes, cfg.vrfName);
    if r :| r in list && r.prefix == cfg.prefix {
      var i :| 0 <= i < |list| && list[i] == r;
      assert HasPrefix(list, cfg.prefix);
    }
    if HasPrefix(list, cfg.prefix) {
      var i :| 0 <= i < |list| && list[i].prefix == cfg.prefix;
      assert list[i] in list;
    }
  }

  /** The first route with the prefix leaves the list of the VRF, and the others keep their order. */
  lemma DeleteRouteMeaning(h: Host, v: string, p: Prefix, i: nat)
    requires i < |At(h.routes, v)| && At(h.routes, v)[i].prefix == p
    requires forall k | 0 <= k < i :: At(h.routes, v)[k].prefix != p
    ensures Refusal(h, DeleteRoute(v, p)) == None
    ensures var list := At(h.routes, v);
            Apply(h, DeleteRoute(v, p)) == h.(routes := h.routes[v := list[..i] + list[i + 1..]])
  {
    WithoutPrefixSplice(At(h.routes, v), p, i);
  }

  lemma DeleteRouteRefused(h: Host, v: string, p: Prefix)
    requires forall r | r in At(h.routes, v) :: r.prefix != p
    ensures Refusal(h, DeleteRoute(v, p)) == Some(RouteNotFound(p, v)) && Apply(h, DeleteRoute(v, p)) == h
  {
  }

  lemma {:induction false} OtherPeeringsPicks(list: seq<AclConfig>, id: string) returns (at: seq<nat>)
    ensures PickedAt(OtherPeerings(list, id), list, at)
    ensures forall j: nat :: j in at <==> j < |list| && list[j].peeringId != id
  {
    hide PickedAt;
    if list == [] {
      at := [];
      PickedNone<AclConfig>();
    } else {
      var rest := OtherPeeringsPicks(list[1..], id);
      at := PickedCons(OtherPeerings(list[1..], id), list[1..], rest, list[0], list[0].peeringId != id);
      assert list == [list[0]] + list[1..];
    }
  }

  /** Both ACL operations keep the other peerings' entries in order; programming puts the new one last. */
  lemma AclOpsMeaning(h: Host, cfg: AclConfig) returns (kept: seq<AclConfig>, at: seq<nat>)
    ensures var list := At(h.acls, cfg.vrfName);
            && PickedAt(kept, list, at)
            && (forall j: nat :: j in at <==> j < |list| && list[j].peeringId != cfg.peeringId)
            && Apply(h, ProgramACL(cfg)) == h.(acls := h.acls[cfg.vrfName := kept + [cfg]])
            && Apply(h, ClearACL(cfg.vrfName, cfg.peeringId)) == h.(acls := h.acls[cfg.vrfName := kept])
            && Refusal(h, ProgramACL(cfg)) == None && Refusal(h, ClearACL(cfg.vrfName, cfg.peeringId)) == None
  {
    kept := OtherPeerings(At(h.acls, cfg.vrfName), cfg.peeringId);
    at := OtherPeeringsPicks(At(h.acls, cfg.vrfName), cfg.peeringId);
  }

  // ---- invariants of the table ----

  predicate UniquePrefixes(list: seq<RouteConfig>) {
    forall i, j | 0 <= i < j < |list| :: list[i].prefix != list[j].prefix
  }

  predicate UniquePeerings(list: seq<AclConfig>) {
    forall i, j | 0 <= i < j < |list| :: list[i].peeringId != list[j].peeringId
  }

  /** Routes exist only under existing VRFs and carry that name; prefixes and peering IDs are unique. */
  predicate HostInv(h: Host) {
    && (forall name | name in h.vrfs :: h.vrfs[name].name == name)
    && (forall v | v in h.routes :: v in h.vrfs && UniquePrefixes(h.routes[v]))
    && (forall v | v in h.routes :: forall i | 0 <= i < |h.routes[v]| :: h.routes[v][i].vrfName == v)
    && (forall v | v in h.acls :: UniquePeerings(h.acls[v]))
    && (forall v | v in h.acls :: forall i | 0 <= i < |h.acls[v]| :: h.acls[v][i].vrfName == v)
  }

  lemma {:induction false} WithoutPrefixKeeps(list: seq<RouteConfig>, p: Prefix)
    ensures forall r | r in WithoutPrefix(list, p) :: r in list
    ensures forall r | r in list && r.prefix != p :: r in WithoutPrefix(list, p)
  {
    if list != [] {
      WithoutPrefixKeeps(list[1..], p);
      assert list == [list[0]] + list[1..];
    }
  }

  lemma {:induction false} WithoutPrefixUnique(list: seq<RouteConfig>, p: Prefix)
    requires UniquePrefixes(list)
    ensures UniquePrefixes(WithoutPrefix(list, p)) && !HasPrefix(WithoutPrefix(list, p), p)
  {
    if list != [] {
      var tail := WithoutPrefix(list[1..], p);
      WithoutPrefixUnique(list[1..], p);
      WithoutPrefixKeeps(list[1..], p);
      if list[0].prefix != p {
        forall j | 0 <= j < |tail| ensures tail[j].prefix != list[0].prefix {
          assert tail[j] in list[1..];
        }
      }
    }
  }

  lemma WithoutPrefixMembers(list: seq<RouteConfig>, p: Prefix)
    requires UniquePrefixes(list)
    ensures UniquePrefixes(WithoutPrefix(list, p))
    ensures forall r :: r in WithoutPrefix(list, p) <==> r in list && r.prefix != p
  {
    WithoutPrefixKeeps(list, p);
    WithoutPrefixUnique(list, p);
    var less := WithoutPrefix(list, p);
    forall r | r in less ensures r.prefix != p {
      var i :| 0 <= i < |less| && less[i] == r;
      assert !HasPrefix(less, p);
    }
  }

  lemma {:induction false} OtherPeeringsMembers(list: seq<AclConfig>, id: string)
    ensures UniquePeerings(list) ==> UniquePeerings(OtherPeerings(list, id))
    ensures forall a :: a in OtherPeerings(list, id) <==> a in list && a.peeringId != id
  {
    if list != [] {
      OtherPeeringsMembers(list[1..], id);
      assert list == [list[0]] + list[1..];
      var tail := OtherPeerings(list[1..], id);
      if UniquePeerings(list) {
        forall j | 0 <= j < |tail| ensures tail[j].peeringId != list[0].peeringId {
          assert tail[j] in list[1..];
        }
      }
    }
  }

  lemma SetRoutesKeepsInv(h: Host, v: string, list: seq<RouteConfig>)
    requires HostInv(h) && v in h.vrfs && UniquePrefixes(list) && forall i | 0 <= i < |list| :: list[i].vrfName == v
    ensures HostInv(SetRoutes(h, v, list))
  {
  }

  lemma SetAclsKeepsInv(h: Host, v: string, list: seq<AclConfig>)
    requires HostInv(h) && UniquePeerings(list) && forall i | 0 <= i < |list| :: list[i].vrfName == v
    ensures HostInv(SetAcls(h, v, list))
  {
  }

  lemma DeleteRouteKeepsInv(h: Host, v: string, p: Prefix)
    requires HostInv(h) && HasPrefix(At(h.routes, v), p)
    ensures HostInv(SetRoutes(h, v, WithoutPrefix(At(h.routes, v), p)))
  {
    var list := At(h.routes, v);
    WithoutPrefixMembers(list, p);
    var less := WithoutPrefix(list, p);
    forall i | 0 <= i < |less| ensures less[i].vrfName == v {
      assert less[i] in list;
    }
    SetRoutesKeepsInv(h, v, less);
  }

  lemma FilterAclsKeepsInv(h: Host, v: string, id: string)
    requires HostInv(h)
    ensures var less := OtherPeerings(At(h.acls, v), id);
            UniquePeerings(less) && forall i | 0 <= i < |less| :: less[i].vrfName == v && less[i].peeringId != id
  {
    var list := At(h.acls, v);
    OtherPeeringsMembers(list, id);
    var less := OtherPeerings(list, id);
    forall i | 0 <= i < |less| ensures less[i].vrfName == v && less[i].peeringId != id {
      assert less[i] in list;
    }
  }

  lemma OpKeepsInv(h: Host, op: Op)
    requires HostInv(h)
    ensures HostInv(Apply(h, op))
  {
    match op
    case CreateVRF(cfg) =>
    case DeleteVRF(name) =>
    case AddRoute(cfg) =>
      if Refusal(h, op) == None {
        SetRoutesKeepsInv(h, cfg.vrfName, At(h.routes, cfg.vrfName) + [cfg]);
      }
    case DeleteRoute(v, p) =>
      if Refusal(h, op) == None {
        DeleteRouteKeepsInv(h, v, p);
      }
    case ProgramACL(cfg) =>
      FilterAclsKeepsInv(h, cfg.vrfName, cfg.peeringId);
      SetAclsKeepsInv(h, cfg.vrfName, Programmed(At(h.acls, cfg.vrfName), cfg));
    case ClearACL(v, id) =>
      FilterAclsKeepsInv(h, v, id);
      SetAclsKeepsInv(h, v, OtherPeerings(At(h.acls, v), id));
  }

  function ApplyAll(h: Host, ops: seq<Op>): Host {
    if ops == [] then h else Apply(ApplyAll(h, ops[..|ops| - 1]), ops[|ops| - 1])
  }

  /** Every table reachable by netlink operations satisfies the invariants. */
  lemma {:induction false} ReachableHostInv(ops: seq<Op>)
    ensures HostInv(ApplyAll(EMPTY_HOST, ops))
  {
    if ops != [] {
      ReachableHostInv(ops[..|ops| - 1]);
      OpKeepsInv(ApplyAll(EMPTY_HOST, ops[..|ops| - 1]), ops[|ops| - 1]);
    }
  }

  /** Some sequence of operations on an empty table leaves `h`. */
  ghost predicate ReachableTable(h: Host) {
    exists ops: seq<Op> :: ApplyAll(EMPTY_HOST, ops) == h
  }

  lemma OneMoreOp(h: Host, op: Op)
    requires ReachableTable(h)
    ensures ReachableTable(Apply(h, op))
  {
    var ops: seq<Op> :| ApplyAll(EMPTY_HOST, ops) == h;
    assert (ops + [op])[..|ops|] == ops;
    assert ApplyAll(EMPTY_HOST, ops + [op]) == Apply(h, op);
  }

  lemma {:induction false} VrfsReachable(vrfs: map<string, VrfConfig>)
    requires forall name | name in vrfs :: vrfs[name].name == name
    ensures ReachableTable(Host(vrfs, map[], map[]))
    decreases |vrfs|
  {
    if vrfs == map[] {
      assert ApplyAll(EMPTY_HOST, []) == EMPTY_HOST;
    } else {
      var name :| name in vrfs;
      var less := vrfs - {name};
      VrfsReachable(less);
      OneMoreOp(Host(less, map[], map[]), CreateVRF(vrfs[name]));
      assert vrfs == less[name := vrfs[name]];
    }
  }

  /** Adding a route and deleting it leaves an empty list. */
  lemma EmptyListReachable(h: Host, v: string)
    requires ReachableTable(h) && v in h.vrfs && v !in h.routes
    ensures ReachableTable(SetRoutes(h, v, []))
  {
    hide ReachableTable;
    var cfg := RouteConfig(v, Prefix(IPv4, 0, 0), None, 0);
    OneMoreOp(h, AddRoute(cfg));
    assert [] + [cfg] == [cfg] && [cfg][0].prefix == cfg.prefix;
    assert Apply(h, AddRoute(cfg)) == SetRoutes(h, v, [cfg]);
    OneMoreOp(SetRoutes(h, v, [cfg]), DeleteRoute(v, cfg.prefix));
    assert WithoutPrefix([cfg], cfg.prefix) == [];
    assert SetRoutes(SetRoutes(h, v, [cfg]), v, []) == SetRoutes(h, v, []);
  }

  lemma {:induction false} RouteListReachable(h: Host, v: string, list: seq<RouteConfig>)
    requires ReachableTable(h) && v in h.vrfs && v !in h.routes
    requires UniquePrefixes(list) && forall i | 0 <= i < |list| :: list[i].vrfName == v
    ensures ReachableTable(SetRoutes(h, v, list))
  {
    hide ReachableTable;
    if list == [] {
      EmptyListReachable(h, v);
    } else {
      var init, last := list[..|list| - 1], list[|list| - 1];
      RouteListReachable(h, v, init);
      assert list == init + [last];
      OneMoreOp(SetRoutes(h, v, init), AddRoute(last));
      assert SetRoutes(SetRoutes(h, v, init), v, list) == SetRoutes(h, v, list);
    }
  }

  lemma {:induction false} RoutesReachable(h: Host)
    requires HostInv(h) && h.acls == map[]
    ensures ReachableTable(h)
    decreases |h.routes|
  {
    if h.routes == map[] {
      VrfsReachable(h.vrfs);
    } else {
      var v :| v in h.routes;
      var g := h.(routes := h.routes - {v});
      RoutesReachable(g);
      RouteListReachable(g, v, h.routes[v]);
      assert h.routes == g.routes[v := h.routes[v]];
    }
  }

  lemma {:induction false} OthersAreAll(list: seq<AclConfig>, id: string)
    requires forall a | a in list :: a.peeringId != id
    ensures OtherPeerings(list, id) == list
  {
    if list != [] {
      OthersAreAll(list[1..], id);
    }
  }

  lemma {:induction false} AclListReachable(h: Host, v: string, list: seq<AclConfig>)
    requires ReachableTable(h) && v !in h.acls
    requires UniquePeerings(list) && forall i | 0 <= i < |list| :: list[i].vrfName == v
    ensures ReachableTable(SetAcls(h, v, list))
  {
    hide ReachableTable;
    if list == [] {
      OneMoreOp(h, ClearACL(v, ""));
    } else {
      var init, last := list[..|list| - 1], list[|list| - 1];
      AclListReachable(h, v, init);
      assert list == init + [last];
      OthersAreAll(init, last.peeringId);
      OneMoreOp(SetAcls(h, v, init), ProgramACL(last));
      assert SetAcls(SetAcls(h, v, init), v, list) == SetAcls(h, v, list);
    }
  }

  lemma {:induction false} AclsReachable(h: Host)
    requires HostInv(h)
    ensures ReachableTable(h)
    decreases |h.acls|
  {
    if h.acls == map[] {
      RoutesReachable(h);
    } else {
      var v :| v in h.acls;
      var g := h.(acls := h.acls - {v});
      AclsReachable(g);
      AclListReachable(g, v, h.acls[v]);
      assert h.acls == g.acls[v := h.acls[v]];
    }
  }

  /** The tables that satisfy the invariants are exactly those that operations can reach. */
  lemma ReachableExactly(h: Host)
    ensures ReachableTable(h) <==> HostInv(h)
  {
    if ReachableTable(h) {
      var ops: seq<Op> :| ApplyAll(EMPTY_HOST, ops) == h;
      ReachableHostInv(ops);
    }
    if HostInv(h) {
      AclsReachable(h);
    }
  }

  // ---- the scanned lists refine finite maps ----

  function RouteMap(list: seq<RouteConfig>): map<Prefix, RouteConfig>
  {
    if list == [] then map[]
    else RouteMap(list[..|list| - 1])[list[|list| - 1].prefix := list[|list| - 1]]
  }

  function AclMap(list: seq<AclConfig>): map<string, AclConfig>
  {
    if list == [] then map[]
    else AclMap(list[..|list| - 1])[list[|list| - 1].peeringId := list[|list| - 1]]
  }

  lemma {:induction false} RouteMapMeaning(list: seq<RouteConfig>)
    requires UniquePrefixes(list)
    ensures forall r | r in list :: r.prefix in RouteMap(list) && RouteMap(list)[r.prefix] == r
    ensures forall p | p in RouteMap(list) :: RouteMap(list)[p] in list && RouteMap(list)[p].prefix == p
  {
    if list != [] {
      var init, last := list[..|list| - 1], list[|list| - 1];
      RouteMapMeaning(init);
      assert list == init + [last];
      forall r | r in list ensures r.prefix in RouteMap(list) && RouteMap(list)[r.prefix] == r {
        if r != last {
          var i :| 0 <= i < |list| && list[i] == r;
          assert init[i] == r;
        }
      }
    }
  }

  lemma RouteMapKeys(list: seq<RouteConfig>, p: Prefix)
    requires UniquePrefixes(list)
    ensures p in RouteMap(list) <==> HasPrefix(list, p)
  {
    RouteMapMeaning(list);
    if HasPrefix(list, p) {
      var i :| 0 <= i < |list| && list[i].prefix == p;
      assert list[i] in list;
    }
  }

  lemma {:induction false} AclMapMeaning(list: seq<AclConfig>)
    requires UniquePeerings(list)
    ensures forall a | a in list :: a.peeringId in AclMap(list) && AclMap(list)[a.peeringId] == a
    ensures forall id | id in AclMap(list) :: AclMap(list)[id] in list && AclMap(list)[id].peeringId == id
  {
    if list != [] {
      var init, last := list[..|list| - 1], list[|list| - 1];
      AclMapMeaning(init);
      assert list == init + [last];
      forall a | a in list ensures a.peeringId in AclMap(list) && AclMap(list)[a.peeringId] == a {
        if a != last {
          var i :| 0 <= i < |list| && list[i] == a;
          assert init[i] == a;
        }
      }
    }
  }

  /** Seen as a map from prefix to route, adding inserts a new key. */
  lemma AddRouteRefinesMap(h: Host, cfg: RouteConfig)
    requires HostInv(h)
    ensures var before := RouteMap(At(h.routes, cfg.vrfName));
            var after := RouteMap(At(Apply(h, AddRoute(cfg)).routes, cfg.vrfName));
            && (Refusal(h, AddRoute(cfg)) == None <==> cfg.vrfName in h.vrfs && cfg.prefix !in before)
            && after == if Refusal(h, AddRoute(cfg)) == None then before[cfg.prefix := cfg] else before
  {
    var list := At(h.routes, cfg.vrfName);
    RouteMapKeys(list, cfg.prefix);
    RouteAppend(list, cfg);
  }

  lemma RouteAppend(list: seq<RouteConfig>, cfg: RouteConfig)
    ensures RouteMap(list + [cfg]) == RouteMap(list)[cfg.prefix := cfg]
  {
    assert (list + [cfg])[..|list|] == list;
  }

  /** Seen as a map, deleting removes a key that is there. */
  lemma DeleteRouteRefinesMap(h: Host, v: string, p: Prefix)
    requires HostInv(h)
    ensures var before := RouteMap(At(h.routes, v));
            && (Refusal(h, DeleteRoute(v, p)) == None <==> p in before)
            && RouteMap(At(Apply(h, DeleteRoute(v, p)).routes, v)) == before - {p}
  {
    var list := At(h.routes, v);
    RouteMapKeys(list, p);
    RouteSpliceRefinesMap(list, p);
  }

  lemma RouteSpliceRefinesMap(list: seq<RouteConfig>, p: Prefix)
    requires UniquePrefixes(list)
    ensures RouteMap(WithoutPrefix(list, p)) == RouteMap(list) - {p}
  {
    WithoutPrefixMembers(list, p);
    RouteMapMeaning(list);
    var less := WithoutPrefix(list, p);
    RouteMapMeaning(less);
    forall q ensures q in RouteMap(less) <==> q in RouteMap(list) && q != p {
      if q in RouteMap(less) { assert RouteMap(less)[q] in list; }
      if q in RouteMap(list) && q != p { assert RouteMap(list)[q] in less; }
    }
    forall q | q in RouteMap(less) ensures RouteMap(less)[q] == RouteMap(list)[q] {
      assert RouteMap(less)[q] in list;
    }
  }

  /** Seen as a map from peering to ACL, programming sets a key and clearing removes one. */
  lemma AclListRefinesMap(h: Host, cfg: AclConfig, v: string, id: string)
    requires HostInv(h)
    ensures AclMap(At(Apply(h, ProgramACL(cfg)).acls, cfg.vrfName))
            == AclMap(At(h.acls, cfg.vrfName))[cfg.peeringId := cfg]
    ensures AclMap(At(Apply(h, ClearACL(v, id)).acls, v)) == AclMap(At(h.acls, v)) - {id}
  {
    hide OtherPeerings, AclMap;
    AclFilterRefinesMap(At(h.acls, cfg.vrfName), cfg.peeringId);
    AclAppend(OtherPeerings(At(h.acls, cfg.vrfName), cfg.peeringId), cfg);
    AclFilterRefinesMap(At(h.acls, v), id);
  }

  lemma AclAppend(list: seq<AclConfig>, cfg: AclConfig)
    ensures AclMap(list + [cfg]) == AclMap(list)[cfg.peeringId := cfg]
  {
    assert (list + [cfg])[..|list|] == list;
  }

  lemma AclFilterRefinesMap(list: seq<AclConfig>, id: string)
    requires UniquePeerings(list)
    ensures AclMap(OtherPeerings(list, id)) == AclMap(list) - {id}
  {
    OtherPeeringsMembers(list, id);
    AclMapMeaning(list);
    var less := OtherPeerings(list, id);
    AclMapMeaning(less);
    forall q ensures q in AclMap(less) <==> q in AclMap(list) && q != id {
      if q in AclMap(less) { assert AclMap(less)[q] in list; }
      if q in AclMap(list) && q != id { assert AclMap(list)[q] in less; }
    }
    forall q | q in AclMap(less) ensures AclMap(less)[q] == AclMap(list)[q] {
      assert AclMap(less)[q] in list;
    }
  }
}
