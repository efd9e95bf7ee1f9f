/** What the route loops of a pass do when listed routes may name other VRFs than their key. */
module AgentTargets {
  import opened Common
  import opened Prefixes
  import opened Netlink
  import opened Agent
  import opened AgentRoutes
  import opened AgentPass

  /** Some listed route names VRF `v` with prefix `p`. */
  ghost predicate Names(list: seq<RouteConfig>, v: string, p: Prefix) {
    exists r :: r in list && r.vrfName == v && r.prefix == p
  }

  /** Some listed route names VRF `v`. */
  ghost predicate NamesVrf(list: seq<RouteConfig>, v: string) {
    exists r :: r in list && r.vrfName == v
  }

  /** The prefixes listed for VRF `v` outside `skip`. */
  ghost function Aimed(list: seq<RouteConfig>, v: string, skip: set<Prefix>): set<Prefix> {
    set r | r in list && r.vrfName == v && r.prefix !in skip :: r.prefix
  }

  // ---- one list ----

  lemma AddStepSets(p: Progress, cfg: RouteConfig, v: string)
    ensures var q := AddStep(p, cfg);
            && q.host.vrfs == p.host.vrfs && q.host.acls == p.host.acls
            && PrefixesAt(q.host, v)
               == PrefixesAt(p.host, v) + (if cfg.vrfName == v && v in p.host.vrfs then {cfg.prefix} else {})
            && (cfg.vrfName != v ==> At(q.host.routes, v) == At(p.host.routes, v))
  {
    var list := At(p.host.routes, cfg.vrfName);
    HasPrefixMeaning(list, cfg.prefix);
    PrefixSetConcat(list, [cfg]);
    assert PrefixSet([cfg]) == {cfg.prefix};
  }

  lemma AimedCons(list: seq<RouteConfig>, v: string, skip: set<Prefix>)
    requires list != []
    ensures Aimed(list, v, skip)
         == (if list[0].vrfName == v && list[0].prefix !in skip then {list[0].prefix} else {})
             + Aimed(list[1..], v, skip)
    ensures NamesVrf(list, v) <==> list[0].vrfName == v || NamesVrf(list[1..], v)
  {
    assert list == [list[0]] + list[1..];
  }

  lemma {:induction false} AddMissingSets(p: Progress, actual: set<Prefix>, want: seq<RouteConfig>, v: string)
    ensures var q := AddMissing(p, actual, want);
            && q.host.vrfs == p.host.vrfs && q.host.acls == p.host.acls
            && PrefixesAt(q.host, v)
               == PrefixesAt(p.host, v) + (if v in p.host.vrfs then Aimed(want, v, actual) else {})
            && (!NamesVrf(want, v) ==> At(q.host.routes, v) == At(p.host.routes, v))
    decreases |want|
  {
    if want != [] {
      hide AddStep, PrefixesAt;
      AimedCons(want, v, actual);
      AddStepSets(p, want[0], v);
      AddMissingSets(if want[0].prefix in actual then p else AddStep(p, want[0]), actual, want[1..], v);
    }
  }

  /** What meeting key `k` makes of the prefixes under `v`. */
  ghost function SetAfter(h: Host, k: string, want: seq<RouteConfig>, v: string): set<Prefix> {
    PrefixesAt(h, v)
    + (if v in h.vrfs then Aimed(want, v, PrefixesAt(h, k)) else {})
    - (if v == k then PrefixesAt(h, k) - PrefixSet(want) else {})
  }

  lemma UniqueAt(h: Host, v: string)
    requires HostInv(h)
    ensures UniquePrefixes(At(h.routes, v))
  {
  }

  lemma RemoveStaleSets(p: Progress, k: string, desired: set<Prefix>, actual: seq<RouteConfig>, v: string)
    requires HostInv(p.host) && UniquePrefixes(actual) && PrefixSet(actual) <= PrefixesAt(p.host, k)
    ensures var q := RemoveStale(p, k, desired, actual);
            && q.host.vrfs == p.host.vrfs && q.host.acls == p.host.acls
            && PrefixesAt(q.host, v) == PrefixesAt(p.host, v) - (if v == k then PrefixSet(actual) - desired else {})
            && (v != k ==> At(q.host.routes, v) == At(p.host.routes, v))
  {
    hide HostInv, Dropped, RemoveStale, UniquePrefixes, PrefixSet;
    UniqueAt(p.host, k);
    var list := At(p.host.routes, k);
    RemoveStaleEffect(p, k, list, desired, actual);
    DroppedPrefixes(list, PrefixSet(actual) - desired);
  }

  lemma RepairVrfSets(p: Progress, k: string, want: seq<RouteConfig>, v: string)
    requires HostInv(p.host)
    ensures var q := RepairVrf(p, k, want);
            && q.host.vrfs == p.host.vrfs && q.host.acls == p.host.acls
            && PrefixesAt(q.host, v) == SetAfter(p.host, k, want, v)
            && (v != k && !NamesVrf(want, v) ==> At(q.host.routes, v) == At(p.host.routes, v))
  {
    hide HostInv, AddMissing, RemoveStale, UniquePrefixes, Aimed, NamesVrf, PrefixSet;
    var actual := At(p.host.routes, k);
    AddMissingSets(p, PrefixSet(actual), want, v);
    AddMissingSets(p, PrefixSet(actual), want, k);
    AddMissingKeepsInv(p, PrefixSet(actual), want);
    UniqueAt(p.host, k);
    RemoveStaleSets(AddMissing(p, PrefixSet(actual), want), k, PrefixSet(want), actual, v);
  }

  // ---- the loop over all lists, one VRF and one prefix at a time ----

  lemma {:induction false} LoopKeepsRest(p: Progress, keys: seq<string>, want: map<string, seq<RouteConfig>>)
    requires HostInv(p.host)
    ensures var q := RepairAll(p, keys, want).host;
            HostInv(q) && q.vrfs == p.host.vrfs && q.acls == p.host.acls
    decreases |keys|
  {
    hide HostInv, RepairVrf, SetAfter, PrefixesAt;
    if keys != [] {
      RepairVrfSets(p, keys[0], At(want, keys[0]), keys[0]);
      RepairVrfKeepsInv(p, keys[0], At(want, keys[0]));
      LoopKeepsRest(RepairVrf(p, keys[0], At(want, keys[0])), keys[1..], want);
    }
  }

  /** A VRF that is neither met nor named keeps its list. */
  lemma {:induction false} Untouched(p: Progress, keys: seq<string>, want: map<string, seq<RouteConfig>>, v: string)
    requires HostInv(p.host) && v !in keys && forall i | 0 <= i < |keys| :: !NamesVrf(At(want, keys[i]), v)
    ensures At(RepairAll(p, keys, want).host.routes, v) == At(p.host.routes, v)
    decreases |keys|
  {
    hide HostInv, RepairVrf, SetAfter, PrefixesAt, NamesVrf;
    if keys != [] {
      RepairVrfSets(p, keys[0], At(want, keys[0]), v);
      RepairVrfKeepsInv(p, keys[0], At(want, keys[0]));
      Untouched(RepairVrf(p, keys[0], At(want, keys[0])), keys[1..], want, v);
    }
  }

  lemma AimedMeans(h: Host, k: string, list: seq<RouteConfig>, v: string, x: Prefix)
    ensures x in SetAfter(h, k, list, v) <==>
              && (x in PrefixesAt(h, v) || (v in h.vrfs && Names(list, v, x) && x !in PrefixesAt(h, k)))
              && !(v == k && x in PrefixesAt(h, k) && x !in PrefixSet(list))
  {
    if x in Aimed(list, v, PrefixesAt(h, k)) {
      var r :| r in list && r.vrfName == v && r.prefix !in PrefixesAt(h, k) && r.prefix == x;
      assert Names(list, v, x);
    }
    if Names(list, v, x) && x !in PrefixesAt(h, k) {
      var r :| r in list && r.vrfName == v && r.prefix == x;
      assert r.prefix in Aimed(list, v, PrefixesAt(h, k));
    }
  }

  /** One round of the loop: who has prefix `x` under `v` after meeting `k`. */
  lemma Round(p: Progress, k: string, list: seq<RouteConfig>, v: string, x: Prefix)
    requires HostInv(p.host)
    ensures var q := RepairVrf(p, k, list).host;
            && HostInv(q) && q.vrfs == p.host.vrfs
            && (x in PrefixesAt(q, v) <==>
                  && (x in PrefixesAt(p.host, v)
                  || (v in p.host.vrfs && Names(list, v, x) && x !in PrefixesAt(p.host, k)))
                  && !(v == k && x in PrefixesAt(p.host, k) && x !in PrefixSet(list)))
  {
    hide HostInv, RepairVrf, SetAfter, PrefixesAt, Names;
    RepairVrfKeepsInv(p, k, list);
    RepairVrfSets(p, k, list, v);
    AimedMeans(p.host, k, list, v, x);
  }

  /** A prefix that is there stays, unless its VRF's own list lacks it. */
  lemma {:induction false} StaysIn(p: Progress, keys: seq<string>, want: map<string, seq<RouteConfig>>, v: string,
                                   x: Prefix)
    requires HostInv(p.host) && x in PrefixesAt(p.host, v) && (v in keys ==> x in PrefixSet(At(want, v)))
    ensures x in PrefixesAt(RepairAll(p, keys, want).host, v)
    decreases |keys|
  {
    hide HostInv, RepairVrf, PrefixesAt, Names, PrefixSet;
    if keys != [] {
      Round(p, keys[0], At(want, keys[0]), v, x);
      StaysIn(RepairVrf(p, keys[0], At(want, keys[0])), keys[1..], want, v, x);
    }
  }

  /** The lists that name (v, x) are held off: their key already has the prefix. */
  ghost predicate HeldOff(h: Host, keys: seq<string>, want: map<string, seq<RouteConfig>>, v: string, x: Prefix) {
    forall i | 0 <= i < |keys| :: !Names(At(want, keys[i]), v, x) || x in PrefixesAt(h, keys[i])
  }

  lemma HeldOffStep(p: Progress, keys: seq<string>, want: map<string, seq<RouteConfig>>, v: string, x: Prefix)
    requires HostInv(p.host) && keys != [] && Distinct(keys) && HeldOff(p.host, keys, want, v, x)
    ensures HeldOff(RepairVrf(p, keys[0], At(want, keys[0])).host, keys[1..], want, v, x)
  {
    hide HostInv, RepairVrf, PrefixesAt, Names, PrefixSet;
    var q := RepairVrf(p, keys[0], At(want, keys[0])).host;
    forall i | 0 <= i < |keys[1..]| ensures !Names(At(want, keys[1..][i]), v, x) || x in PrefixesAt(q, keys[1..][i]) {
      assert keys[1..][i] == keys[i + 1] && keys[i + 1] != keys[0];
      Round(p, keys[0], At(want, keys[0]), keys[i + 1], x);
    }
  }

  /** A prefix that is not there and that no list can add stays out. */
  lemma {:induction false} StaysOut(p: Progress, keys: seq<string>, want: map<string, seq<RouteConfig>>, v: string,
                                    x: Prefix)
    requires HostInv(p.host) && Distinct(keys) && x !in PrefixesAt(p.host, v) && HeldOff(p.host, keys, want, v, x)
    ensures x !in PrefixesAt(RepairAll(p, keys, want).host, v)
    decreases |keys|
  {
    hide HostInv, RepairVrf, PrefixesAt, Names, PrefixSet, HeldOff;
    if keys != [] {
      HeldOffFirst(p.host, keys, want, v, x);
      Round(p, keys[0], At(want, keys[0]), v, x);
      HeldOffStep(p, keys, want, v, x);
      StaysOut(RepairVrf(p, keys[0], At(want, keys[0])), keys[1..], want, v, x);
    }
  }

  lemma HeldOffFirst(h: Host, keys: seq<string>, want: map<string, seq<RouteConfig>>, v: string, x: Prefix)
    requires keys != [] && HeldOff(h, keys, want, v, x)
    ensures !Names(At(want, keys[0]), v, x) || x in PrefixesAt(h, keys[0])
  {
  }

  ghost predicate NobodyNames(keys: seq<string>, want: map<string, seq<RouteConfig>>, v: string, x: Prefix) {
    forall i | 0 <= i < |keys| :: !Names(At(want, keys[i]), v, x)
  }

  /** A prefix the VRF's own list lacks is gone once that list has been met, if nobody names it. */
  lemma {:induction false} GetsRemoved(p: Progress, keys: seq<string>, want: map<string, seq<RouteConfig>>, v: string,
                                       x: Prefix)
    requires HostInv(p.host) && Distinct(keys) && v in keys && x !in PrefixSet(At(want, v))
            && NobodyNames(keys, want, v, x)
    ensures x !in PrefixesAt(RepairAll(p, keys, want).host, v)
    decreases |keys|
  {
    hide HostInv, RepairVrf, PrefixesAt, Names, PrefixSet;
    var next := RepairVrf(p, keys[0], At(want, keys[0]));
    Round(p, keys[0], At(want, keys[0]), v, x);
    assert keys == [keys[0]] + keys[1..];
    assert !Names(At(want, keys[0]), v, x);
    assert NobodyNames(keys[1..], want, v, x);
    if keys[0] == v {
      StaysOut(next, keys[1..], want, v, x);
    } else {
      GetsRemoved(next, keys[1..], want, v, x);
    }
  }

  /** A prefix named by the VRF's own list, or by a list under a name that is no VRF, gets there. */
  lemma {:induction false} GetsAdded(p: Progress, keys: seq<string>, want: map<string, seq<RouteConfig>>, k: string,
                                     v: string, x: Prefix)
    requires HostInv(p.host) && v in p.host.vrfs && k in keys && (k == v || k !in p.host.vrfs)
    requires Names(At(want, k), v, x) && (v in keys ==> x in PrefixSet(At(want, v)))
    ensures x in PrefixesAt(RepairAll(p, keys, want).host, v)
    decreases |keys|
  {
    hide HostInv, RepairVrf, PrefixesAt, Names, PrefixSet;
    var next := RepairVrf(p, keys[0], At(want, keys[0]));
    Round(p, keys[0], At(want, keys[0]), v, x);
    assert keys == [keys[0]] + keys[1..];
    if keys[0] == k {
      if k !in p.host.vrfs { NothingUnder(p.host, k); }
      StaysIn(next, keys[1..], want, v, x);
    } else {
      GetsAdded(next, keys[1..], want, k, v, x);
    }
  }
}
