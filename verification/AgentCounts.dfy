/** The route counters of a pass: each addition and each removal takes one pair off what is left to do. */
module AgentCounts {
  import opened Common
  import opened Prefixes
  import opened Netlink
  import opened Agent
  import opened AgentRoutes
  import opened AgentTargets

  type RouteLists = map<string, seq<RouteConfig>>

  /** The (VRF, prefix) pairs still to be added and to be removed. */
  ghost function MissingRoutes(h: Host, want: RouteLists): set<(string, Prefix)> {
    set k, x | k in want && k in h.vrfs && x in PrefixSet(want[k]) - PrefixesAt(h, k) :: (k, x)
  }

  ghost function StaleRoutes(h: Host, want: RouteLists): set<(string, Prefix)> {
    set k, x | k in want && k in h.vrfs && x in PrefixesAt(h, k) - PrefixSet(want[k]) :: (k, x)
  }

  /** A route for an existing VRF is one that the VRF's own list has too. */
  ghost predicate OnTarget(r: RouteConfig, vrfs: set<string>, want: RouteLists) {
    r.vrfName in vrfs ==> r.vrfName in want && r.prefix in PrefixSet(want[r.vrfName])
  }

  /** The route counters and what is left to do have the same sums in both. */
  ghost predicate Conserved(p: Progress, q: Progress, want: RouteLists) {
    && q.host.vrfs == p.host.vrfs
    && q.report.routesAdded + |MissingRoutes(q.host, want)| == p.report.routesAdded + |MissingRoutes(p.host, want)|
    && q.report.routesRemoved + |StaleRoutes(q.host, want)| == p.report.routesRemoved + |StaleRoutes(p.host, want)|
    && q.report == p.report.(routesAdded := q.report.routesAdded, routesRemoved := q.report.routesRemoved,
                             errors := q.report.errors)
  }

  lemma ConservedTwice(p: Progress, m: Progress, q: Progress, want: RouteLists)
    requires Conserved(p, m, want) && Conserved(m, q, want)
    ensures Conserved(p, q, want)
  {
  }

  lemma OneLess<T>(all: set<T>, less: set<T>, x: T)
    requires x in all && less == all - {x}
    ensures |all| == |less| + 1
  {
  }

  lemma Added(h: Host, g: Host, v: string, x: Prefix, want: RouteLists)
    requires g.vrfs == h.vrfs && v in h.vrfs && v in want && x in PrefixSet(want[v]) && x !in PrefixesAt(h, v)
    requires forall k :: PrefixesAt(g, k) == PrefixesAt(h, k) + (if k == v then {x} else {})
    ensures |MissingRoutes(h, want)| == |MissingRoutes(g, want)| + 1
    ensures StaleRoutes(g, want) == StaleRoutes(h, want)
  {
    hide PrefixSet, PrefixesAt;
    forall y ensures y in MissingRoutes(g, want) <==> y in MissingRoutes(h, want) - {(v, x)} { }
    OneLess(MissingRoutes(h, want), MissingRoutes(g, want), (v, x));
  }

  lemma Removed(h: Host, g: Host, v: string, x: Prefix, want: RouteLists)
    requires g.vrfs == h.vrfs && v in h.vrfs && v in want && x !in PrefixSet(want[v]) && x in PrefixesAt(h, v)
    requires forall k :: PrefixesAt(g, k) == PrefixesAt(h, k) - (if k == v then {x} else {})
    ensures |StaleRoutes(h, want)| == |StaleRoutes(g, want)| + 1
    ensures MissingRoutes(g, want) == MissingRoutes(h, want)
  {
    hide PrefixSet, PrefixesAt;
    forall y ensures y in StaleRoutes(g, want) <==> y in StaleRoutes(h, want) - {(v, x)} { }
    OneLess(StaleRoutes(h, want), StaleRoutes(g, want), (v, x));
  }

  lemma AddStepConserves(p: Progress, r: RouteConfig, want: RouteLists)
    requires OnTarget(r, p.host.vrfs.Keys, want)
    ensures Conserved(p, AddStep(p, r), want)
  {
    hide PrefixSet;
    HasPrefixMeaning(At(p.host.routes, r.vrfName), r.prefix);
    if AddRouteError(p.host, r) == None {
      var q := AddStep(p, r);
      forall k ensures PrefixesAt(q.host, k) == PrefixesAt(p.host, k) + (if k == r.vrfName then {r.prefix} else {}) {
        AddStepSets(p, r, k);
      }
      Added(p.host, q.host, r.vrfName, r.prefix, want);
    }
  }

  lemma {:induction false} AddMissingConserves(p: Progress, actual: set<Prefix>, list: seq<RouteConfig>,
                                               want: RouteLists)
    requires forall r | r in list :: OnTarget(r, p.host.vrfs.Keys, want)
    ensures Conserved(p, AddMissing(p, actual, list), want)
    decreases |list|
  {
    hide AddStep, OnTarget, MissingRoutes, StaleRoutes;
    if list != [] {
      assert list == [list[0]] + list[1..];
      AddStepConserves(p, list[0], want);
      var next := if list[0].prefix in actual then p else AddStep(p, list[0]);
      AddMissingConserves(next, actual, list[1..], want);
      ConservedTwice(p, next, AddMissing(p, actual, list), want);
    }
  }

  lemma RemoveStepConserves(p: Progress, k: string, x: Prefix, want: RouteLists)
    requires k in p.host.vrfs && k in want && x !in PrefixSet(want[k])
    requires x in PrefixesAt(p.host, k) && UniquePrefixes(At(p.host.routes, k))
    ensures Conserved(p, RemoveStep(p, k, x), want)
    ensures PrefixesAt(RemoveStep(p, k, x).host, k) == PrefixesAt(p.host, k) - {x}
    ensures UniquePrefixes(At(RemoveStep(p, k, x).host.routes, k))
  {
    hide PrefixSet, UniquePrefixes;
    RemoveOne(p, k, x);
    Removed(p.host, RemoveStep(p, k, x).host, k, x, want);
  }

  lemma {:induction false} RemoveStaleConserves(p: Progress, k: string, actual: seq<RouteConfig>, want: RouteLists)
    requires k in want && (actual != [] ==> k in p.host.vrfs) && UniquePrefixes(At(p.host.routes, k))
    requires UniquePrefixes(actual) && PrefixSet(actual) <= PrefixesAt(p.host, k)
    ensures Conserved(p, RemoveStale(p, k, PrefixSet(want[k]), actual), want)
    decreases |actual|
  {
    hide RemoveStep, MissingRoutes, StaleRoutes, UniquePrefixes, PrefixSet, PrefixesAt;
    if actual != [] {
      var x := actual[0].prefix;
      StaleSplit(actual, {});
      if x in PrefixSet(want[k]) {
        RemoveStaleConserves(p, k, actual[1..], want);
      } else {
        RemoveStepConserves(p, k, x, want);
        RemoveStaleConserves(RemoveStep(p, k, x), k, actual[1..], want);
        ConservedTwice(p, RemoveStep(p, k, x), RemoveStale(p, k, PrefixSet(want[k]), actual), want);
      }
    }
  }

  lemma RepairVrfConserves(p: Progress, k: string, want: RouteLists)
    requires HostInv(p.host) && k in want && forall r | r in want[k] :: OnTarget(r, p.host.vrfs.Keys, want)
    ensures Conserved(p, RepairVrf(p, k, want[k]), want)
  {
    hide HostInv, AddMissing, RemoveStale, OnTarget, MissingRoutes, StaleRoutes, UniquePrefixes, PrefixSet, Aimed,
        NamesVrf;
    var actual := At(p.host.routes, k);
    var mid := AddMissing(p, PrefixSet(actual), want[k]);
    AddMissingConserves(p, PrefixSet(actual), want[k], want);
    AddMissingSets(p, PrefixSet(actual), want[k], k);
    AddMissingKeepsInv(p, PrefixSet(actual), want[k]);
    UniqueAt(p.host, k);
    UniqueAt(mid.host, k);
    if k !in p.host.vrfs { NothingUnder(p.host, k); }
    RemoveStaleConserves(mid, k, actual, want);
    ConservedTwice(p, mid, RepairVrf(p, k, want[k]), want);
  }

  lemma {:induction false} RepairAllConserves(p: Progress, keys: seq<string>, want: RouteLists)
    requires HostInv(p.host) && forall k | k in keys :: k in want
    requires forall k, r | k in want && r in want[k] :: OnTarget(r, p.host.vrfs.Keys, want)
    ensures Conserved(p, RepairAll(p, keys, want), want)
    decreases |keys|
  {
    hide HostInv, RepairVrf, OnTarget, MissingRoutes, StaleRoutes;
    if keys != [] {
      assert keys[0] in keys;
      RepairVrfConserves(p, keys[0], want);
      RepairVrfKeepsInv(p, keys[0], want[keys[0]]);
      var next := RepairVrf(p, keys[0], want[keys[0]]);
      RepairAllConserves(next, keys[1..], want);
      ConservedTwice(p, next, RepairAll(p, keys, want), want);
    }
  }
}
