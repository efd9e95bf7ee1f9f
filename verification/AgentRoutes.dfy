/** What the route loops of a pass do. */
module AgentRoutes {
  import opened Common
  import opened Prefixes
  import opened Netlink
  import opened Agent
  import opened AgentVrfs

  /** Each route of the list carries the name `vrf`. */
  predicate KeyedBy(list: seq<RouteConfig>, vrf: string) {
    forall i | 0 <= i < |list| :: list[i].vrfName == vrf
  }

  ghost function PrefixesAt(h: Host, v: string): set<Prefix> {
    PrefixSet(At(h.routes, v))
  }

  ghost function PrefixSeq(list: seq<RouteConfig>): seq<Prefix> {
    seq(|list|, i requires 0 <= i < |list| => list[i].prefix)
  }

  /** The desired routes whose prefix is not in `have`, first occurrence of each. */
  function FirstNew(want: seq<RouteConfig>, have: set<Prefix>): seq<RouteConfig>
    decreases |want|
  {
    if want == [] then []
    else if want[0].prefix in have then FirstNew(want[1..], have)
    else [want[0]] + FirstNew(want[1..], have + {want[0].prefix})
  }

  /** The list without the prefixes in `drop`. */
  function Dropped(list: seq<RouteConfig>, drop: set<Prefix>): seq<RouteConfig> {
    if list == [] then []
    else if list[0].prefix in drop then Dropped(list[1..], drop)
    else [list[0]] + Dropped(list[1..], drop)
  }

  /** A VRF's list after repair: what was there and is desired, then the new routes. */
  function Repaired(actual: seq<RouteConfig>, want: seq<RouteConfig>): seq<RouteConfig> {
    Dropped(actual + FirstNew(want, PrefixSet(actual)), PrefixSet(actual) - PrefixSet(want))
  }

  function WithList(h: Host, vrf: string, list: seq<RouteConfig>): Host {
    if list == At(h.routes, vrf) then h else SetRoutes(h, vrf, list)
  }

  lemma WithListTwice(h: Host, vrf: string, a: seq<RouteConfig>, b: seq<RouteConfig>)
    requires a != At(h.routes, vrf) ==> b != At(h.routes, vrf)
    ensures WithList(WithList(h, vrf, a), vrf, b) == WithList(h, vrf, b)
  {
    if a != At(h.routes, vrf) {
      assert h.routes[vrf := a][vrf := b] == h.routes[vrf := b];
    }
  }

  // ---- prefix sets ----

  lemma PrefixSetCons(list: seq<RouteConfig>)
    requires list != []
    ensures PrefixSet(list) == {list[0].prefix} + PrefixSet(list[1..])
  {
    assert list == [list[0]] + list[1..];
  }

  lemma PrefixSeqTail(list: seq<RouteConfig>)
    requires list != []
    ensures PrefixSeq(list)[1..] == PrefixSeq(list[1..])
  {
  }

  lemma PrefixSetConcat(a: seq<RouteConfig>, b: seq<RouteConfig>)
    ensures PrefixSet(a + b) == PrefixSet(a) + PrefixSet(b)
  {
    forall p | p in PrefixSet(a) + PrefixSet(b) ensures p in PrefixSet(a + b) {
      var r :| (r in a || r in b) && r.prefix == p;
      assert r in a + b;
    }
  }

  lemma HasPrefixMeaning(list: seq<RouteConfig>, p: Prefix)
    ensures HasPrefix(list, p) <==> p in PrefixSet(list)
  {
    if HasPrefix(list, p) {
      var i :| 0 <= i < |list| && list[i].prefix == p;
      assert list[i] in list;
    }
    if p in PrefixSet(list) {
      var r :| r in list && r.prefix == p;
      var i :| 0 <= i < |list| && list[i] == r;
      assert list[i].prefix == p;
    }
  }

  // ---- adding ----

  lemma AddOne(p: Progress, vrf: string, cfg: RouteConfig)
    requires cfg.vrfName == vrf && vrf in p.host.vrfs
    ensures var list := At(p.host.routes, vrf);
            && (cfg.prefix in PrefixSet(list) ==> AddStep(p, cfg) == Failed(p, RouteExists(cfg.prefix, vrf)))
            && (cfg.prefix !in PrefixSet(list) ==>
                  AddStep(p, cfg) == Progress(SetRoutes(p.host, vrf, list + [cfg]),
                                              p.report.(routesAdded := p.report.routesAdded + 1))
                  && PrefixSet(list + [cfg]) == PrefixSet(list) + {cfg.prefix})
  {
    HasPrefixMeaning(At(p.host.routes, vrf), cfg.prefix);
    PrefixSetConcat(At(p.host.routes, vrf), [cfg]);
    assert PrefixSet([cfg]) == {cfg.prefix};
  }

  lemma {:induction false} AddMissingHost(p: Progress, vrf: string, list: seq<RouteConfig>, have: set<Prefix>,
      actual: set<Prefix>, want: seq<RouteConfig>)
    requires KeyedBy(want, vrf) && vrf in p.host.vrfs
    requires list == At(p.host.routes, vrf) && have == PrefixSet(list) && actual <= have
    ensures AddMissing(p, actual, want).host == WithList(p.host, vrf, list + FirstNew(want, have))
    decreases |want|
  {
    if want == [] {
      assert list + [] == list;
    } else {
      var cfg, tail := want[0], want[1..];
      AddOne(p, vrf, cfg);
      if cfg.prefix in actual {
        AddMissingHost(p, vrf, list, have, actual, tail);
      } else if cfg.prefix in have {
        AddMissingHost(AddStep(p, cfg), vrf, list, have, actual, tail);
      } else {
        var next := AddStep(p, cfg);
        AddMissingHost(next, vrf, list + [cfg], have + {cfg.prefix}, actual, tail);
        var added := FirstNew(tail, have + {cfg.prefix});
        assert (list + [cfg]) + added == list + ([cfg] + added);
        assert next.host == WithList(p.host, vrf, list + [cfg]);
        assert |list + ([cfg] + added)| > |list|;
        WithListTwice(p.host, vrf, list + [cfg], list + ([cfg] + added));
      }
    }
  }

  /** Counters stay; there may be more errors. */
  predicate OnlyErrors(before: Report, after: Report) {
    after == before.(errors := after.errors)
  }

  /** Nothing but errors is added to the log, and none at all when `quiet`. */
  predicate ErrorsGrow(before: Report, after: Report, quiet: bool) {
    && |before.errors| <= |after.errors|
    && (|after.errors| == |before.errors| <==> quiet)
    && (quiet ==> after.errors == before.errors)
  }

  lemma {:induction false} AddMissingErrors(p: Progress, vrf: string, have: set<Prefix>, actual: set<Prefix>,
                                            want: seq<RouteConfig>)
    requires KeyedBy(want, vrf) && vrf in p.host.vrfs
    requires have == PrefixSet(At(p.host.routes, vrf)) && actual <= have
    ensures ErrorsGrow(p.report, AddMissing(p, actual, want).report, !Clash(have, actual, PrefixSeq(want)))
    decreases |want|
  {
    if want != [] {
      var cfg, tail := want[0], want[1..];
      AddOne(p, vrf, cfg);
      PrefixSeqTail(want);
      ClashStep(have, actual, PrefixSeq(want));
      if cfg.prefix in actual {
        AddMissingErrors(p, vrf, have, actual, tail);
      } else if cfg.prefix in have {
        AddMissingErrors(AddStep(p, cfg), vrf, have, actual, tail);
        assert have + {cfg.prefix} == have;
      } else {
        AddMissingErrors(AddStep(p, cfg), vrf, have + {cfg.prefix}, actual, tail);
      }
    }
  }

  /** Under a VRF that is not there every add is refused. */
  lemma {:induction false} AddMissingNoVrf(p: Progress, vrf: string, want: seq<RouteConfig>)
    requires KeyedBy(want, vrf) && vrf !in p.host.vrfs
    ensures var q := AddMissing(p, {}, want);
            && q.host == p.host && OnlyErrors(p.report, q.report)
            && ErrorsGrow(p.report, q.report, want == [])
    decreases |want|
  {
    if want != [] {
      assert AddStep(p, want[0]) == Failed(p, VrfNotFound(vrf));
      AddMissingNoVrf(AddStep(p, want[0]), vrf, want[1..]);
    }
  }

  // ---- removing ----

  lemma {:induction false} DropNothing(list: seq<RouteConfig>, drop: set<Prefix>)
    requires PrefixSet(list) !! drop
    ensures Dropped(list, drop) == list
  {
    if list != [] {
      PrefixSetCons(list);
      DropNothing(list[1..], drop);
    }
  }

  lemma {:induction false} DropOne(list: seq<RouteConfig>, p: Prefix, drop: set<Prefix>)
    requires UniquePrefixes(list)
    ensures Dropped(WithoutPrefix(list, p), drop) == Dropped(list, {p} + drop)
  {
    if list != [] {
      if list[0].prefix == p {
        HeadPrefixFresh(list);
        DropUnused(list[1..], p, drop);
      } else {
        DropOne(list[1..], p, drop);
      }
    }
  }

  lemma HeadPrefixFresh(list: seq<RouteConfig>)
    requires list != [] && UniquePrefixes(list)
    ensures list[0].prefix !in PrefixSet(list[1..])
  {
    forall i | 0 <= i < |list[1..]| ensures list[1..][i].prefix != list[0].prefix {
      assert list[1..][i] == list[i + 1];
    }
  }

  lemma {:induction false} DropUnused(list: seq<RouteConfig>, p: Prefix, drop: set<Prefix>)
    requires p !in PrefixSet(list)
    ensures Dropped(list, drop) == Dropped(list, {p} + drop)
  {
    if list != [] {
      PrefixSetCons(list);
      DropUnused(list[1..], p, drop);
    }
  }

  lemma {:induction false} DroppedPrefixes(list: seq<RouteConfig>, drop: set<Prefix>)
    ensures PrefixSet(Dropped(list, drop)) == PrefixSet(list) - drop
  {
    if list != [] {
      DroppedPrefixes(list[1..], drop);
      PrefixSetCons(list);
      if list[0].prefix !in drop {
        PrefixSetConcat([list[0]], Dropped(list[1..], drop));
        assert PrefixSet([list[0]]) == {list[0].prefix};
      }
    }
  }

  lemma RemoveOne(p: Progress, vrf: string, prefix: Prefix)
    requires prefix in PrefixSet(At(p.host.routes, vrf)) && UniquePrefixes(At(p.host.routes, vrf))
    ensures var list := At(p.host.routes, vrf);
            && RemoveStep(p, vrf, prefix)
               == Progress(SetRoutes(p.host, vrf, WithoutPrefix(list, prefix)),
                           p.report.(routesRemoved := p.report.routesRemoved + 1))
            && PrefixSet(WithoutPrefix(list, prefix)) == PrefixSet(list) - {prefix}
            && UniquePrefixes(WithoutPrefix(list, prefix))
            && WithoutPrefix(list, prefix) != list
  {
    var list := At(p.host.routes, vrf);
    HasPrefixMeaning(list, prefix);
    DropOne(list, prefix, {});
    DropNothing(WithoutPrefix(list, prefix), {});
    DroppedPrefixes(list, {prefix});
    assert {prefix} + {} == {prefix};
    WithoutPrefixUnique(list, prefix);
  }

  predicate RemovedMore(before: Report, after: Report, n: nat) {
    after == before.(routesRemoved := before.routesRemoved + n)
  }

  lemma StaleSplit(actual: seq<RouteConfig>, desired: set<Prefix>)
    requires actual != [] && UniquePrefixes(actual)
    ensures UniquePrefixes(actual[1..])
    ensures var p, rest := actual[0].prefix, PrefixSet(actual[1..]);
            && p !in rest && PrefixSet(actual) == {p} + rest
            && (p in desired ==> PrefixSet(actual) - desired == rest - desired)
            && (p !in desired ==> PrefixSet(actual) - desired == {p} + (rest - desired)
                                  && |PrefixSet(actual) - desired| == 1 + |rest - desired|)
  {
    PrefixSetCons(actual);
    HeadPrefixFresh(actual);
    StaleKeysStep(actual[0].prefix, PrefixSet(actual[1..]), desired);
  }

  lemma {:induction false} RemoveStaleEffect(p: Progress, vrf: string, list: seq<RouteConfig>, desired: set<Prefix>,
      actual: seq<RouteConfig>)
    requires list == At(p.host.routes, vrf) && UniquePrefixes(list)
    requires UniquePrefixes(actual) && PrefixSet(actual) <= PrefixSet(list)
    ensures var stale := PrefixSet(actual) - desired;
            var q := RemoveStale(p, vrf, desired, actual);
            && q.host == WithList(p.host, vrf, Dropped(list, stale))
            && RemovedMore(p.report, q.report, |stale|)
            && (stale != {} ==> Dropped(list, stale) != list)
    decreases |actual|
  {
    if actual == [] {
      assert PrefixSet(actual) - desired == {};
      DropNothing(list, {});
    } else {
      StaleSplit(actual, desired);
      var prefix, rest := actual[0].prefix, PrefixSet(actual[1..]);
      if prefix in desired {
        RemoveStaleEffect(p, vrf, list, desired, actual[1..]);
      } else {
        RemoveOne(p, vrf, prefix);
        var less := WithoutPrefix(list, prefix);
        RemoveStaleEffect(RemoveStep(p, vrf, prefix), vrf, less, desired, actual[1..]);
        DropOne(list, prefix, rest - desired);
        DroppedDiffers(list, prefix, {prefix} + (rest - desired));
        WithListTwice(p.host, vrf, less, Dropped(list, {prefix} + (rest - desired)));
      }
    }
  }

  lemma DroppedDiffers(list: seq<RouteConfig>, p: Prefix, drop: set<Prefix>)
    requires p in PrefixSet(list) && p in drop
    ensures Dropped(list, drop) != list
  {
    DroppedPrefixes(list, drop);
  }

  // ---- one VRF ----

  lemma {:induction false} FirstNewPrefixes(want: seq<RouteConfig>, have: set<Prefix>)
    ensures PrefixSet(FirstNew(want, have)) == PrefixSet(want) - have
    decreases |want|
  {
    if want != [] {
      PrefixSetCons(want);
      if want[0].prefix in have {
        FirstNewPrefixes(want[1..], have);
      } else {
        var more := FirstNew(want[1..], have + {want[0].prefix});
        FirstNewPrefixes(want[1..], have + {want[0].prefix});
        PrefixSetConcat([want[0]], more);
        assert PrefixSet([want[0]]) == {want[0].prefix};
      }
    }
  }

  /** A repaired list holds exactly the desired prefixes. */
  lemma RepairedPrefixes(actual: seq<RouteConfig>, want: seq<RouteConfig>)
    ensures PrefixSet(Repaired(actual, want)) == PrefixSet(want)
  {
    FirstNewPrefixes(want, PrefixSet(actual));
    PrefixSetConcat(actual, FirstNew(want, PrefixSet(actual)));
    DroppedPrefixes(actual + FirstNew(want, PrefixSet(actual)), PrefixSet(actual) - PrefixSet(want));
  }

  lemma AddStepKeepsInv(p: Progress, cfg: RouteConfig)
    requires HostInv(p.host)
    ensures HostInv(AddStep(p, cfg).host)
  {
    OpKeepsInv(p.host, AddRoute(cfg));
  }

  lemma RemoveStepKeepsInv(p: Progress, vrf: string, prefix: Prefix)
    requires HostInv(p.host)
    ensures HostInv(RemoveStep(p, vrf, prefix).host)
  {
    OpKeepsInv(p.host, DeleteRoute(vrf, prefix));
  }

  lemma {:induction false} AddMissingKeepsInv(p: Progress, actual: set<Prefix>, want: seq<RouteConfig>)
    requires HostInv(p.host)
    ensures HostInv(AddMissing(p, actual, want).host)
    decreases |want|
  {
    if want != [] {
      AddStepKeepsInv(p, want[0]);
      AddMissingKeepsInv(if want[0].prefix in actual then p else AddStep(p, want[0]), actual, want[1..]);
    }
  }

  lemma {:induction false} RemoveStaleKeepsInv(p: Progress, vrf: string, desired: set<Prefix>, actual: seq<RouteConfig>)
    requires HostInv(p.host)
    ensures HostInv(RemoveStale(p, vrf, desired, actual).host)
    decreases |actual|
  {
    if actual != [] {
      RemoveStepKeepsInv(p, vrf, actual[0].prefix);
      RemoveStaleKeepsInv(if actual[0].prefix in desired then p else RemoveStep(p, vrf, actual[0].prefix),
                          vrf, desired, actual[1..]);
    }
  }

  lemma RepairVrfKeepsInv(p: Progress, vrf: string, want: seq<RouteConfig>)
    requires HostInv(p.host)
    ensures HostInv(RepairVrf(p, vrf, want).host)
  {
    var actual := At(p.host.routes, vrf);
    AddMissingKeepsInv(p, PrefixSet(actual), want);
    RemoveStaleKeepsInv(AddMissing(p, PrefixSet(actual), want), vrf, PrefixSet(want), actual);
  }

  /** No route of the list meets an error: the VRF is there and no missing prefix is listed twice. */
  ghost predicate Quiet(h: Host, vrf: string, want: seq<RouteConfig>) {
    if vrf in h.vrfs then
      var have := PrefixSet(At(h.routes, vrf));
      !Clash(have, have, PrefixSeq(want))
    else want == []
  }

  function AfterRepair(h: Host, vrf: string, want: seq<RouteConfig>): Host {
    if vrf in h.vrfs then WithList(h, vrf, Repaired(At(h.routes, vrf), want)) else h
  }

  /** The removal loop starts from a list with unique prefixes that still has every listed one. */
  lemma RemovalReady(p: Progress, vrf: string, want: seq<RouteConfig>)
    requires HostInv(p.host) && KeyedBy(want, vrf) && vrf in p.host.vrfs
    ensures var actual := At(p.host.routes, vrf);
            var grown := actual + FirstNew(want, PrefixSet(actual));
            var added := AddMissing(p, PrefixSet(actual), want);
            && UniquePrefixes(actual) && UniquePrefixes(grown)
            && PrefixSet(actual) <= PrefixSet(grown)
            && added.host == WithList(p.host, vrf, grown)
            && At(added.host.routes, vrf) == grown
  {
    var actual := At(p.host.routes, vrf);
    AddMissingHost(p, vrf, actual, PrefixSet(actual), PrefixSet(actual), want);
    AddMissingKeepsInv(p, PrefixSet(actual), want);
    PrefixSetConcat(actual, FirstNew(want, PrefixSet(actual)));
  }

  lemma RepairVrfHost(p: Progress, vrf: string, want: seq<RouteConfig>)
    requires HostInv(p.host) && KeyedBy(want, vrf)
    ensures RepairVrf(p, vrf, want).host == AfterRepair(p.host, vrf, want)
  {
    var actual := At(p.host.routes, vrf);
    var added := AddMissing(p, PrefixSet(actual), want);
    if vrf in p.host.vrfs {
      var grown := actual + FirstNew(want, PrefixSet(actual));
      RemovalReady(p, vrf, want);
      RemoveStaleEffect(added, vrf, grown, PrefixSet(want), actual);
      if grown != actual { GrownRepaired(actual, want); }
      WithListTwice(p.host, vrf, grown, Repaired(actual, want));
    } else {
      assert actual == [];
      assert PrefixSet(actual) == {};
      AddMissingNoVrf(p, vrf, want);
    }
  }

  lemma RepairVrfErrors(p: Progress, vrf: string, want: seq<RouteConfig>)
    requires HostInv(p.host) && KeyedBy(want, vrf)
    ensures ErrorsGrow(p.report, RepairVrf(p, vrf, want).report, Quiet(p.host, vrf, want))
  {
    hide HostInv, FirstNew, Clash;
    var actual := At(p.host.routes, vrf);
    var have := PrefixSet(actual);
    if vrf in p.host.vrfs {
      RemovalReady(p, vrf, want);
      AddMissingErrors(p, vrf, have, have, want);
      RemoveStaleEffect(AddMissing(p, have, want), vrf, actual + FirstNew(want, have), PrefixSet(want), actual);
    } else {
      NothingUnder(p.host, vrf);
      AddMissingNoVrf(p, vrf, want);
    }
  }

  lemma NothingUnder(h: Host, vrf: string)
    requires HostInv(h) && vrf !in h.vrfs
    ensures At(h.routes, vrf) == [] && PrefixesAt(h, vrf) == {}
  {
  }

  lemma AppendNothing<T>(a: seq<T>, b: seq<T>)
    requires b == []
    ensures a + b == a
  {
  }

  /** If something was added, the repaired list is not the old one. */
  lemma GrownRepaired(actual: seq<RouteConfig>, want: seq<RouteConfig>)
    requires actual + FirstNew(want, PrefixSet(actual)) != actual
    ensures Repaired(actual, want) != actual
  {
    FirstNewPrefixes(want, PrefixSet(actual));
    RepairedPrefixes(actual, want);
    var n := FirstNew(want, PrefixSet(actual));
    if n == [] { AppendNothing(actual, n); }
    assert n[0] in n && n[0].prefix in PrefixSet(n);
  }
}
