/** Which route records a pass leaves in each list, in which order, and what its errors say. */
module AgentRecords {
  import opened Common
  import opened Prefixes
  import opened Netlink
  import opened Agent
  import opened AgentVrfs
  import opened AgentRoutes
  import opened AgentPass
  import opened AgentTargets
  import opened AgentRepair
  import opened AgentTheorems

  type RouteLists = map<string, seq<RouteConfig>>

  /** Every route is listed somewhere and is for VRF `v`. */
  ghost predicate AllListed(added: seq<RouteConfig>, want: RouteLists, v: string) {
    forall r | r in added :: r.vrfName == v && exists k :: k in want && r in want[k]
  }

  ghost predicate AllOf(added: seq<RouteConfig>, list: seq<RouteConfig>, v: string) {
    forall r | r in added :: r.vrfName == v && r in list
  }

  // ---- lists only grow at the end and lose what is not desired ----

  lemma {:induction false} AddMissingAppends(p: Progress, actual: set<Prefix>, want: seq<RouteConfig>, v: string)
    returns (added: seq<RouteConfig>)
    ensures At(AddMissing(p, actual, want).host.routes, v) == At(p.host.routes, v) + added && AllOf(added, want, v)
    decreases |want|
  {
    if want == [] {
      added := [];
    } else {
      var next := if want[0].prefix in actual then p else AddStep(p, want[0]);
      var rest := AddMissingAppends(next, actual, want[1..], v);
      var one := if At(next.host.routes, v) == At(p.host.routes, v) then [] else [want[0]];
      assert want == [want[0]] + want[1..];
      assert At(next.host.routes, v) == At(p.host.routes, v) + one;
      added := one + rest;
    }
  }

  lemma {:induction false} DroppedConcat(a: seq<RouteConfig>, b: seq<RouteConfig>, drop: set<Prefix>)
    ensures Dropped(a + b, drop) == Dropped(a, drop) + Dropped(b, drop)
  {
    if a == [] {
      assert a + b == b;
    } else {
      assert (a + b)[1..] == a[1..] + b;
      DroppedConcat(a[1..], b, drop);
    }
  }

  /** The positions of what is not dropped. */
  lemma {:induction false} DroppedPicks(list: seq<RouteConfig>, drop: set<Prefix>) returns (at: seq<nat>)
    ensures PickedAt(Dropped(list, drop), list, at)
    ensures forall j: nat :: j in at <==> j < |list| && list[j].prefix !in drop
  {
    hide PickedAt;
    if list == [] {
      at := [];
      PickedNone<RouteConfig>();
    } else {
      var rest := DroppedPicks(list[1..], drop);
      at := PickedCons(Dropped(list[1..], drop), list[1..], rest, list[0], list[0].prefix !in drop);
      assert list == [list[0]] + list[1..];
    }
  }

  lemma {:induction false} DroppedAlike(list: seq<RouteConfig>, drop1: set<Prefix>, drop2: set<Prefix>)
    requires forall x | x in PrefixSet(list) :: x in drop1 <==> x in drop2
    ensures Dropped(list, drop1) == Dropped(list, drop2)
  {
    if list != [] {
      PrefixSetCons(list);
      DroppedAlike(list[1..], drop1, drop2);
    }
  }

  /** What the old list of VRF `v` keeps once its own desired list has been met. */
  function Kept(list: seq<RouteConfig>, desired: set<Prefix>): seq<RouteConfig> {
    Dropped(list, PrefixSet(list) - desired)
  }

  lemma KeptOfConcat(a: seq<RouteConfig>, b: seq<RouteConfig>, desired: set<Prefix>)
    ensures Kept(a + b, desired) == Kept(a, desired) + Dropped(b, PrefixSet(a + b) - desired)
  {
    DroppedConcat(a, b, PrefixSet(a + b) - desired);
    PrefixSetConcat(a, b);
    DroppedAlike(a, PrefixSet(a + b) - desired, PrefixSet(a) - desired);
  }

  lemma {:induction false} DroppedListed(list: seq<RouteConfig>, drop: set<Prefix>)
    ensures forall r | r in Dropped(list, drop) :: r in list
  {
    if list != [] {
      DroppedListed(list[1..], drop);
      assert list == [list[0]] + list[1..];
    }
  }

  /** Once a key has been met, its VRF's list is the old one without what the key does not list, and new routes. */
  lemma RoundAppends(p: Progress, k: string, want: seq<RouteConfig>, v: string) returns (added: seq<RouteConfig>)
    requires HostInv(p.host)
    ensures AllOf(added, want, v)
    ensures var list := At(p.host.routes, v);
            At(RepairVrf(p, k, want).host.routes, v) == (if v == k then Kept(list, PrefixSet(want)) else list) + added
  {
    hide HostInv, AddMissing, RemoveStale, UniquePrefixes, Dropped, PrefixSet;
    var actual := At(p.host.routes, k);
    var mid := AddMissing(p, PrefixSet(actual), want);
    var news := AddMissingAppends(p, PrefixSet(actual), want, v);
    AddMissingKeepsInv(p, PrefixSet(actual), want);
    AddMissingSets(p, PrefixSet(actual), want, k);
    UniqueAt(p.host, k);
    UniqueAt(mid.host, k);
    var stale := PrefixSet(actual) - PrefixSet(want);
    RemoveStaleEffect(mid, k, At(mid.host.routes, k), PrefixSet(want), actual);
    added := if v == k then Dropped(news, stale) else news;
    if v == k {
      DroppedConcat(actual, news, stale);
      DroppedListed(news, stale);
    }
  }

  lemma NothingMet(p: Progress, want: RouteLists, v: string)
    ensures RepairAll(p, [], want) == p && AllListed([], want, v)
  {
  }

  lemma OneMet(p: Progress, keys: seq<string>, want: RouteLists)
    requires keys != [] && keys[0] in want
    ensures RepairAll(p, keys, want) == RepairAll(RepairVrf(p, keys[0], want[keys[0]]), keys[1..], want)
  {
  }

  /** What a later removal leaves of the new routes follows what it leaves of the old list. */
  lemma KeepsInFront(list: seq<RouteConfig>, first: seq<RouteConfig>, rest: seq<RouteConfig>, desired: set<Prefix>)
    returns (some: seq<RouteConfig>)
    ensures Kept(list + first, desired) + rest == Kept(list, desired) + (some + rest)
    ensures forall r | r in some :: r in first
  {
    hide Dropped, PrefixSet;
    KeptOfConcat(list, first, desired);
    some := Dropped(first, PrefixSet(list + first) - desired);
    DroppedListed(first, PrefixSet(list + first) - desired);
  }

  lemma ListedJoin(some: seq<RouteConfig>, first: seq<RouteConfig>, rest: seq<RouteConfig>, want: RouteLists,
                   k: string, v: string)
    requires k in want && AllOf(first, want[k], v) && AllListed(rest, want, v)
    requires forall r | r in some :: r in first
    ensures AllListed(some + rest, want, v)
  {
  }

  lemma {:induction false} LoopAppends(p: Progress, keys: seq<string>, want: RouteLists, v: string)
    returns (added: seq<RouteConfig>)
    requires HostInv(p.host) && Distinct(keys) && forall k | k in keys :: k in want
    ensures AllListed(added, want, v)
    ensures var list := At(p.host.routes, v);
            At(RepairAll(p, keys, want).host.routes, v)
            == (if v in keys then Kept(list, PrefixSet(At(want, v))) else list) + added
    decreases |keys|
  {
    hide HostInv, RepairVrf, RepairAll, Kept, PrefixSet, AllOf, AllListed;
    if keys == [] {
      added := [];
      NothingMet(p, want, v);
    } else {
      var k, list := keys[0], At(p.host.routes, v);
      assert keys == [k] + keys[1..];
      var next := RepairVrf(p, k, want[k]);
      var first := RoundAppends(p, k, want[k], v);
      RepairVrfKeepsInv(p, k, want[k]);
      var rest := LoopAppends(next, keys[1..], want, v);
      OneMet(p, keys, want);
      var some := first;
      if v in keys[1..] { some := KeepsInFront(list, first, rest, PrefixSet(want[v])); }
      ListedJoin(some, first, rest, want, k, v);
      added := some + rest;
      assert list + first + rest == list + (first + rest);
      assert v == k
             ==> Kept(list, PrefixSet(want[k])) + first + rest == Kept(list, PrefixSet(want[k])) + (first + rest);
    }
  }

  /**
   * The list of every desired VRF after a pass, whatever the desired lists: what it had, in order and
   * record by record, but for prefixes its own desired list lacks, then records of the desired lists.
   */
  lemma PassRouteRecords(h: Host, d: Desired, o: Orders, v: string)
    returns (kept: seq<RouteConfig>, at: seq<nat>, added: seq<RouteConfig>)
    requires HostInv(h) && ValidOrders(h, d, o) && v in VrfNames(d.vrfs)
    ensures At(Pass(h, d, o).host.routes, v) == kept + added
    ensures var list := At(h.routes, v);
            && PickedAt(kept, list, at)
            && forall j: nat ::
                 j in at <==>
                   j < |list| && (v in d.routes ==> exists r :: r in d.routes[v] && r.prefix == list[j].prefix)
    ensures forall r | r in added :: r.vrfName == v && exists k :: k in d.routes && r in d.routes[k]
  {
    hide HostInv, ValidOrders, Pass, AfterVrfs, Dropped;
    VrfStageHost(h, d, o);
    RouteStageDecides(h, d, o);
    VrfStageLists(h, d, o, v);
    added := LoopAppends(AfterVrfs(h, d, o), o.routes, d.routes, v);
    var list := At(h.routes, v);
    var drop := if v in d.routes then PrefixSet(list) - PrefixSet(d.routes[v]) else {};
    kept := Dropped(list, drop);
    at := DroppedPicks(list, drop);
    DropNothing(list, {});
    forall j: nat | j < |list|
      ensures list[j].prefix !in drop
          <==> (v in d.routes ==> exists r :: r in d.routes[v] && r.prefix == list[j].prefix)
    {
      assert list[j] in list && list[j].prefix in PrefixSet(list);
    }
  }

  // ---- keyed lists ----

  /** The positions of the first entry of each new prefix. */
  lemma {:induction false} FirstNewPicks(want: seq<RouteConfig>, have: set<Prefix>) returns (at: seq<nat>)
    ensures PickedAt(FirstNew(want, have), want, at)
    ensures forall j: nat :: j in at <==>
              j < |want| && want[j].prefix !in have && forall i | 0 <= i < j :: want[i].prefix != want[j].prefix
    decreases |want|
  {
    hide PickedAt;
    if want == [] {
      at := [];
      PickedNone<RouteConfig>();
    } else {
      var p := want[0].prefix;
      var rest := FirstNewPicks(want[1..], have + {p});
      var tail := FirstNew(want[1..], have + {p});
      assert want == [want[0]] + want[1..];
      assert p in have ==> have + {p} == have;
      at := PickedCons(tail, want[1..], rest, want[0], p !in have);
      forall j: nat ensures j in at <==>
        j < |want| && want[j].prefix !in have && forall i | 0 <= i < j :: want[i].prefix != want[j].prefix
      {
        if 0 < j < |want| { NotBefore(want, j); }
      }
    }
  }

  lemma NotBefore(want: seq<RouteConfig>, j: nat)
    requires 0 < j < |want|
    ensures want[1..][j - 1] == want[j]
    ensures (forall i | 0 <= i < j :: want[i].prefix != want[j].prefix) <==>
              want[0].prefix != want[j].prefix && forall i | 0 <= i < j - 1 :: want[1..][i].prefix != want[j].prefix
  {
    if want[0].prefix != want[j].prefix && forall i | 0 <= i < j - 1 :: want[1..][i].prefix != want[j].prefix {
      forall i | 0 <= i < j ensures want[i].prefix != want[j].prefix {
        if i > 0 { assert want[i] == want[1..][i - 1]; }
      }
    }
    if forall i | 0 <= i < j :: want[i].prefix != want[j].prefix {
      forall i | 0 <= i < j - 1 ensures want[1..][i].prefix != want[j].prefix {
        assert want[1..][i] == want[i + 1];
      }
    }
  }

  /** The prefixes that a repair drops were there before it. */
  lemma RepairedSplits(list: seq<RouteConfig>, want: seq<RouteConfig>)
    ensures Repaired(list, want) == Kept(list, PrefixSet(want)) + FirstNew(want, PrefixSet(list))
  {
    var have := PrefixSet(list);
    DroppedConcat(list, FirstNew(want, have), have - PrefixSet(want));
    FirstNewPrefixes(want, have);
    DroppedAlike(FirstNew(want, have), have - PrefixSet(want), {});
    DropNothing(FirstNew(want, have), {});
  }

  /** For keyed lists the new records are exactly the first entry of each prefix the VRF lacked, in order. */
  lemma KeyedRouteRecords(h: Host, d: Desired, o: Orders, v: string)
    returns (kept: seq<RouteConfig>, at: seq<nat>, added: seq<RouteConfig>, from: seq<nat>)
    requires HostInv(h) && ValidOrders(h, d, o) && RoutesKeyed(d) && v in VrfNames(d.vrfs) && v in d.routes
    ensures At(Pass(h, d, o).host.routes, v) == kept + added
    ensures var (list, want) := (At(h.routes, v), d.routes[v]);
            && PickedAt(kept, list, at) && PickedAt(added, want, from)
            && (forall j: nat :: j in at <==> j < |list| && list[j].prefix in PrefixSet(want))
            && (forall j: nat :: j in from <==>
                  j < |want| && want[j].prefix !in PrefixSet(list)
                  && forall i | 0 <= i < j :: want[i].prefix != want[j].prefix)
  {
    hide HostInv, Pass, AfterVrfs, Dropped, FirstNew;
    VrfStageHost(h, d, o);
    VrfStageLists(h, d, o, v);
    PassVrfsAndRoutes(h, d, o);
    var list, want := At(h.routes, v), d.routes[v];
    assert v in o.routes <==> v in d.routes.Keys;
    RepairedSplits(list, want);
    kept, added := Kept(list, PrefixSet(want)), FirstNew(want, PrefixSet(list));
    at := DroppedPicks(list, PrefixSet(list) - PrefixSet(want));
    from := FirstNewPicks(want, PrefixSet(list));
    forall j: nat | j < |list| ensures list[j].prefix in PrefixSet(list) { assert list[j] in list; }
  }

  // ---- what the errors say ----

  /** A desired name or route that was refused, and why. */
  ghost predicate Explained(d: Desired, e: NetlinkError) {
    match e
    case VrfExists(n) => n in VrfNames(d.vrfs)
    case VrfNotFound(v) => v !in VrfNames(d.vrfs) && exists k :: k in d.routes && NamesVrf(d.routes[k], v)
    case RouteExists(x, v) => v in VrfNames(d.vrfs) && exists k :: k in d.routes && Names(d.routes[k], v, x)
    case RouteNotFound(_, _) => false
  }

  ghost predicate AllExplained(d: Desired, errors: seq<NetlinkError>) {
    forall e | e in errors :: Explained(d, e)
  }

  lemma {:induction false} CreateErrors(p: Progress, actual: set<string>, want: seq<VrfConfig>, d: Desired)
    requires AllExplained(d, p.report.errors) && VrfNames(want) <= VrfNames(d.vrfs)
    ensures AllExplained(d, CreateMissing(p, actual, want).report.errors)
    decreases |want|
  {
    if want != [] {
      VrfNamesStep(want);
      CreateErrors(if want[0].name in actual then p else CreateStep(p, want[0]), actual, want[1..], d);
    }
  }

  lemma AddErrors(p: Progress, r: RouteConfig, d: Desired, k: string)
    requires AllExplained(d, p.report.errors) && p.host.vrfs.Keys == VrfNames(d.vrfs) && k in d.routes
            && r in d.routes[k]
    ensures AllExplained(d, AddStep(p, r).report.errors)
  {
    assert NamesVrf(d.routes[k], r.vrfName) && Names(d.routes[k], r.vrfName, r.prefix);
  }

  lemma {:induction false} AddMissingErrorsExplained(p: Progress, actual: set<Prefix>, want: seq<RouteConfig>,
                                                     d: Desired, k: string)
    requires AllExplained(d, p.report.errors) && p.host.vrfs.Keys == VrfNames(d.vrfs)
    requires k in d.routes && forall r | r in want :: r in d.routes[k]
    ensures AllExplained(d, AddMissing(p, actual, want).report.errors)
    decreases |want|
  {
    hide AllExplained;
    if want != [] {
      assert want == [want[0]] + want[1..];
      AddErrors(p, want[0], d, k);
      AddMissingErrorsExplained(if want[0].prefix in actual then p else AddStep(p, want[0]), actual, want[1..], d, k);
    }
  }

  lemma RoundErrors(p: Progress, d: Desired, k: string)
    requires HostInv(p.host) && AllExplained(d, p.report.errors) && p.host.vrfs.Keys == VrfNames(d.vrfs)
            && k in d.routes
    ensures AllExplained(d, RepairVrf(p, k, d.routes[k]).report.errors)
  {
    hide HostInv, AllExplained, AddMissing, RemoveStale, UniquePrefixes, PrefixSet, Dropped;
    var actual := At(p.host.routes, k);
    var mid := AddMissing(p, PrefixSet(actual), d.routes[k]);
    AddMissingErrorsExplained(p, PrefixSet(actual), d.routes[k], d, k);
    AddMissingKeepsInv(p, PrefixSet(actual), d.routes[k]);
    AddMissingSets(p, PrefixSet(actual), d.routes[k], k);
    UniqueAt(p.host, k);
    UniqueAt(mid.host, k);
    RemoveStaleEffect(mid, k, At(mid.host.routes, k), PrefixSet(d.routes[k]), actual);
  }

  lemma {:induction false} LoopErrors(p: Progress, keys: seq<string>, d: Desired)
    requires HostInv(p.host) && AllExplained(d, p.report.errors) && p.host.vrfs.Keys == VrfNames(d.vrfs)
    requires forall k | k in keys :: k in d.routes
    ensures AllExplained(d, RepairAll(p, keys, d.routes).report.errors)
    decreases |keys|
  {
    hide HostInv, AllExplained, RepairVrf;
    if keys != [] {
      assert keys == [keys[0]] + keys[1..];
      RoundErrors(p, d, keys[0]);
      RepairVrfKeepsInv(p, keys[0], d.routes[keys[0]]);
      RepairVrfSets(p, keys[0], d.routes[keys[0]], keys[0]);
      LoopErrors(RepairVrf(p, keys[0], d.routes[keys[0]]), keys[1..], d);
    }
  }

  lemma VrfStageErrors(h: Host, d: Desired, o: Orders)
    requires HostInv(h) && ValidOrders(h, d, o)
    ensures AllExplained(d, AfterVrfs(h, d, o).report.errors)
  {
    hide HostInv, ListedBy, Explained;
    var start := Progress(h, EMPTY_REPORT);
    ListedNames(o.vrfs, o.vrfKeys, h);
    CreateErrors(start, h.vrfs.Keys, d.vrfs, d);
    CreateMissingHost(start, h.vrfs.Keys, d.vrfs);
    DeleteStaleEffect(CreateMissing(start, h.vrfs.Keys, d.vrfs), VrfNames(d.vrfs), o.vrfs, h.vrfs.Keys);
  }

  /**
   * Every error a pass reports is a desired VRF name that exists already, a listed route for a VRF that
   * is not desired, or a listed prefix its VRF already has; deleting never fails.
   */
  lemma ErrorsAreExplained(h: Host, d: Desired, o: Orders)
    requires HostInv(h) && ValidOrders(h, d, o)
    ensures forall e | e in Pass(h, d, o).report.errors :: Explained(d, e)
  {
    hide HostInv, Explained;
    VrfStageErrors(h, d, o);
    VrfStageHost(h, d, o);
    RouteStageDecides(h, d, o);
    LoopErrors(AfterVrfs(h, d, o), o.routes, d);
    ProgramAllRest(AfterRoutes(h, d, o), o.acls, d.acls);
  }
}
