/** The loops of an agent pass over all route lists and all ACL lists. */
module AgentPass {
  import opened Common
  import opened Netlink
  import opened Agent
  import opened AgentRoutes

  /** Each desired route carries its map key as VRF name, and so does each ACL. */
  ghost predicate RoutesKeyed(d: Desired) {
    forall k | k in d.routes :: KeyedBy(d.routes[k], k)
  }

  predicate AclsKeyedBy(list: seq<AclConfig>, vrf: string) {
    forall i | 0 <= i < |list| :: list[i].vrfName == vrf
  }

  ghost predicate AclsKeyed(d: Desired) {
    forall k | k in d.acls :: AclsKeyedBy(d.acls[k], k)
  }

  // ---- the loop over all desired route lists ----

  ghost predicate AllQuiet(h: Host, keys: seq<string>, want: map<string, seq<RouteConfig>>) {
    forall i | 0 <= i < |keys| :: Quiet(h, keys[i], At(want, keys[i]))
  }

  predicate Distinct(keys: seq<string>) {
    forall i, j | 0 <= i < j < |keys| :: keys[i] != keys[j]
  }

  lemma QuietFrame(h: Host, g: Host, keys: seq<string>, want: map<string, seq<RouteConfig>>)
    requires g.vrfs == h.vrfs && forall i | 0 <= i < |keys| :: At(g.routes, keys[i]) == At(h.routes, keys[i])
    ensures AllQuiet(g, keys, want) <==> AllQuiet(h, keys, want)
  {
    forall i | 0 <= i < |keys| ensures Quiet(g, keys[i], At(want, keys[i])) <==> Quiet(h, keys[i], At(want, keys[i])) {
    }
  }

  lemma AllQuietCons(h: Host, keys: seq<string>, want: map<string, seq<RouteConfig>>)
    requires keys != []
    ensures AllQuiet(h, keys, want) <==> Quiet(h, keys[0], At(want, keys[0])) && AllQuiet(h, keys[1..], want)
  {
    if Quiet(h, keys[0], At(want, keys[0])) && AllQuiet(h, keys[1..], want) {
      forall i | 0 <= i < |keys| ensures Quiet(h, keys[i], At(want, keys[i])) {
        if i > 0 { assert keys[i] == keys[1..][i - 1]; }
      }
    }
    if AllQuiet(h, keys, want) {
      forall i | 0 <= i < |keys[1..]| ensures Quiet(h, keys[1..][i], At(want, keys[1..][i])) {
        assert keys[1..][i] == keys[i + 1];
      }
    }
  }

  ghost predicate WantKeyed(want: map<string, seq<RouteConfig>>) {
    forall k | k in want :: KeyedBy(want[k], k)
  }

  /** The list under `v` after the loop has met `keys`. */
  function ListAfter(h: Host, keys: seq<string>, want: map<string, seq<RouteConfig>>, v: string): seq<RouteConfig> {
    if v in keys && v in h.vrfs then Repaired(At(h.routes, v), At(want, v)) else At(h.routes, v)
  }

  lemma ListAfterStep(h: Host, keys: seq<string>, want: map<string, seq<RouteConfig>>, v: string)
    requires keys != [] && Distinct(keys)
    ensures ListAfter(AfterRepair(h, keys[0], At(want, keys[0])), keys[1..], want, v) == ListAfter(h, keys, want, v)
  {
    assert keys == [keys[0]] + keys[1..];
  }

  lemma {:induction false} RepairAllHost(p: Progress, keys: seq<string>, want: map<string, seq<RouteConfig>>)
    requires HostInv(p.host) && WantKeyed(want) && Distinct(keys)
    ensures var q := RepairAll(p, keys, want);
            && q.host.vrfs == p.host.vrfs && q.host.acls == p.host.acls
            && forall v :: At(q.host.routes, v) == ListAfter(p.host, keys, want, v)
    decreases |keys|
  {
    if keys != [] {
      var k := keys[0];
      var next := RepairVrf(p, k, At(want, k));
      RepairVrfHost(p, k, At(want, k));
      RepairVrfKeepsInv(p, k, At(want, k));
      RepairAllHost(next, keys[1..], want);
      forall v ensures At(RepairAll(p, keys, want).host.routes, v) == ListAfter(p.host, keys, want, v) {
        ListAfterStep(p.host, keys, want, v);
      }
    }
  }

  lemma {:induction false} RepairAllErrors(p: Progress, keys: seq<string>, want: map<string, seq<RouteConfig>>)
    requires HostInv(p.host) && WantKeyed(want) && Distinct(keys)
    ensures ErrorsGrow(p.report, RepairAll(p, keys, want).report, AllQuiet(p.host, keys, want))
    decreases |keys|
  {
    hide HostInv, RepairVrf, Quiet;
    if keys != [] {
      var k := keys[0];
      var next := RepairVrf(p, k, At(want, k));
      RepairVrfHost(p, k, At(want, k));
      RepairVrfErrors(p, k, At(want, k));
      RepairVrfKeepsInv(p, k, At(want, k));
      RepairAllErrors(next, keys[1..], want);
      QuietFrame(p.host, next.host, keys[1..], want);
      AllQuietCons(p.host, keys, want);
    }
  }

  // ---- the ACL loops ----

  /** The ACL configs for VRF `v`, in order. */
  function ForVrf(acls: seq<AclConfig>, v: string): seq<AclConfig> {
    if acls == [] then []
    else if acls[0].vrfName == v then [acls[0]] + ForVrf(acls[1..], v)
    else ForVrf(acls[1..], v)
  }

  function ProgramOver(list: seq<AclConfig>, cfgs: seq<AclConfig>): seq<AclConfig>
    decreases |cfgs|
  {
    if cfgs == [] then list else ProgramOver(Programmed(list, cfgs[0]), cfgs[1..])
  }

  function PeeringIds(cfgs: seq<AclConfig>): set<string> {
    set a | a in cfgs :: a.peeringId
  }

  /** The entries whose peering is not programmed by `cfgs`, in order. */
  function Foreign(list: seq<AclConfig>, ids: set<string>): seq<AclConfig> {
    if list == [] then []
    else if list[0].peeringId in ids then Foreign(list[1..], ids)
    else [list[0]] + Foreign(list[1..], ids)
  }

  /** The last config of each peering, in the order of those last occurrences. */
  function LastOfEach(cfgs: seq<AclConfig>): seq<AclConfig> {
    if cfgs == [] then []
    else if cfgs[0].peeringId in PeeringIds(cfgs[1..]) then LastOfEach(cfgs[1..])
    else [cfgs[0]] + LastOfEach(cfgs[1..])
  }

  lemma {:induction false} ForeignConcat(a: seq<AclConfig>, b: seq<AclConfig>, ids: set<string>)
    ensures Foreign(a + b, ids) == Foreign(a, ids) + Foreign(b, ids)
  {
    if a == [] {
      assert a + b == b;
    } else {
      assert (a + b)[1..] == a[1..] + b;
      ForeignConcat(a[1..], b, ids);
    }
  }

  lemma {:induction false} ForeignOfOthers(list: seq<AclConfig>, id: string, ids: set<string>)
    ensures Foreign(OtherPeerings(list, id), ids) == Foreign(list, {id} + ids)
  {
    if list != [] {
      ForeignOfOthers(list[1..], id, ids);
    }
  }

  lemma PeeringIdsCons(cfgs: seq<AclConfig>)
    requires cfgs != []
    ensures PeeringIds(cfgs) == {cfgs[0].peeringId} + PeeringIds(cfgs[1..])
  {
    assert cfgs == [cfgs[0]] + cfgs[1..];
  }

  /** Programming a list keeps the foreign entries and appends the last config of each peering. */
  lemma {:induction false} ProgramOverShape(list: seq<AclConfig>, cfgs: seq<AclConfig>)
    ensures ProgramOver(list, cfgs) == Foreign(list, PeeringIds(cfgs)) + LastOfEach(cfgs)
    decreases |cfgs|
  {
    if cfgs == [] {
      ForeignNothing(list);
    } else {
      var c, rest := cfgs[0], PeeringIds(cfgs[1..]);
      PeeringIdsCons(cfgs);
      ProgramOverShape(Programmed(list, c), cfgs[1..]);
      ForeignConcat(OtherPeerings(list, c.peeringId), [c], rest);
      ForeignOfOthers(list, c.peeringId, rest);
      ForeignOne(c, rest);
    }
  }

  lemma ForeignOne(c: AclConfig, ids: set<string>)
    ensures Foreign([c], ids) == if c.peeringId in ids then [] else [c]
  {
  }

  lemma {:induction false} ForeignNothing(list: seq<AclConfig>)
    ensures Foreign(list, PeeringIds([])) == list
  {
    if list != [] { ForeignNothing(list[1..]); }
  }

  lemma {:induction false} ForeignTwice(list: seq<AclConfig>, ids: set<string>)
    ensures Foreign(Foreign(list, ids), ids) == Foreign(list, ids)
  {
    if list != [] { ForeignTwice(list[1..], ids); }
  }

  lemma {:induction false} NoneForeign(cfgs: seq<AclConfig>, ids: set<string>)
    requires PeeringIds(cfgs) <= ids
    ensures Foreign(LastOfEach(cfgs), ids) == []
  {
    if cfgs != [] {
      PeeringIdsCons(cfgs);
      NoneForeign(cfgs[1..], ids);
    }
  }

  lemma {:induction false} ProgramListEffect(p: Progress, acls: seq<AclConfig>)
    ensures var q := ProgramList(p, acls);
            && q.host.vrfs == p.host.vrfs && q.host.routes == p.host.routes
            && (forall v :: At(q.host.acls, v) == ProgramOver(At(p.host.acls, v), ForVrf(acls, v)))
            && q.report == p.report.(aclsUpdated := p.report.aclsUpdated + |acls|)
    decreases |acls|
  {
    if acls != [] {
      ProgramListEffect(ProgramStep(p, acls[0]), acls[1..]);
    }
  }

  lemma {:induction false} ProgramListKeepsInv(p: Progress, acls: seq<AclConfig>)
    requires HostInv(p.host)
    ensures HostInv(ProgramList(p, acls).host)
    decreases |acls|
  {
    if acls != [] {
      OpKeepsInv(p.host, ProgramACL(acls[0]));
      ProgramListKeepsInv(ProgramStep(p, acls[0]), acls[1..]);
    }
  }

  lemma {:induction false} ProgramAllKeepsInv(p: Progress, keys: seq<string>, want: map<string, seq<AclConfig>>)
    requires HostInv(p.host)
    ensures HostInv(ProgramAll(p, keys, want).host)
    decreases |keys|
  {
    if keys != [] {
      ProgramListKeepsInv(p, At(want, keys[0]));
      ProgramAllKeepsInv(ProgramList(p, At(want, keys[0])), keys[1..], want);
    }
  }

  function CountAcls(keys: seq<string>, want: map<string, seq<AclConfig>>): nat {
    if keys == [] then 0 else |At(want, keys[0])| + CountAcls(keys[1..], want)
  }

  lemma {:induction false} ForVrfKeyed(acls: seq<AclConfig>, k: string, v: string)
    requires AclsKeyedBy(acls, k)
    ensures ForVrf(acls, v) == if v == k then acls else []
  {
    if acls != [] { ForVrfKeyed(acls[1..], k, v); }
  }

  lemma {:induction false} ProgramAllRest(p: Progress, keys: seq<string>, want: map<string, seq<AclConfig>>)
    ensures var q := ProgramAll(p, keys, want);
            && q.host.vrfs == p.host.vrfs && q.host.routes == p.host.routes
            && q.report == p.report.(aclsUpdated := p.report.aclsUpdated + CountAcls(keys, want))
    decreases |keys|
  {
    if keys != [] {
      ProgramListEffect(p, At(want, keys[0]));
      ProgramAllRest(ProgramList(p, At(want, keys[0])), keys[1..], want);
    }
  }

  // ---- how many ACLs a pass programs ----

  /** Every position of every desired ACL list. */
  ghost function AclConfigs(want: map<string, seq<AclConfig>>): set<(string, int)> {
    set k, i | k in want && i in Interval(0, |want[k]|) :: (k, i)
  }

  ghost function Positions(k: string, n: nat): set<(string, int)> {
    set i | i in Interval(0, n) :: (k, i)
  }

  lemma {:induction false} PositionsSize(k: string, n: nat)
    ensures |Positions(k, n)| == n
  {
    if n > 0 {
      PositionsSize(k, n - 1);
      assert Positions(k, n) == Positions(k, n - 1) + {(k, n - 1)};
    } else {
      assert Positions(k, n) == {};
    }
  }

  lemma {:induction false} CountAclsMeaning(keys: seq<string>, want: map<string, seq<AclConfig>>)
    requires Enumerates(keys, want.Keys)
    ensures CountAcls(keys, want) == |AclConfigs(want)|
    decreases |keys|
  {
    if keys == [] {
      assert AclConfigs(want) == {};
    } else {
      var k, rest := keys[0], want - {keys[0]};
      assert keys == [k] + keys[1..];
      forall x ensures x in keys[1..] <==> x in rest.Keys {
        if x in rest.Keys { assert x in keys; }
      }
      CountAclsMeaning(keys[1..], rest);
      CountSame(keys[1..], want, rest);
      PositionsSize(k, |want[k]|);
      OneListApart(want, k);
    }
  }

  lemma OneListApart(want: map<string, seq<AclConfig>>, k: string)
    requires k in want
    ensures AclConfigs(want) == Positions(k, |want[k]|) + AclConfigs(want - {k})
    ensures Positions(k, |want[k]|) !! AclConfigs(want - {k})
  {
  }

  lemma {:induction false} CountSame(keys: seq<string>, want: map<string, seq<AclConfig>>,
                                     rest: map<string, seq<AclConfig>>)
    requires forall k | k in keys :: At(want, k) == At(rest, k)
    ensures CountAcls(keys, want) == CountAcls(keys, rest)
  {
    if keys != [] {
      assert keys == [keys[0]] + keys[1..];
      CountSame(keys[1..], want, rest);
    }
  }
}
