/** EVPN routes and the in-memory BGP service (internal/bgp). */
module Bgp {
  import opened Common
  import opened Prefixes

  /** A Type-5 route (section 3.1 of RFC 9136). */
  datatype Type5Route = Type5Route(
    rd: string,
    prefix: Prefix,
    prefixLen: nat,
    ethernetTag: nat,
    gateway: Address,
    vni: nat,
    routeTarget: string)

  const UNSPECIFIED := Address(IPv4, 0)

  function RouteDistinguisher(region: string, vpcID: string): string {
    region + ":" + Truncate(vpcID, 8)
  }

  /** A route target (section 4.3.1 of RFC 4364) in the form this code gives it. */
  function RouteTarget(accountID: string, vpcID: string): string {
    "target:" + Truncate(accountID, 8) + ":" + Truncate(vpcID, 8)
  }

  function Type5For(vpcID: string, region: string, accountID: string, vni: nat, cidr: Prefix): Type5Route {
    Type5Route(RouteDistinguisher(region, vpcID), cidr, cidr.bits, 0, UNSPECIFIED, vni, RouteTarget(accountID, vpcID))
  }

  function Type5Routes(vpcID: string, region: string, accountID: string, cidrs: seq<Prefix>, vni: nat)
    : (r: seq<Type5Route>)
    ensures |r| == |cidrs| && forall i | 0 <= i < |cidrs| :: r[i] == Type5For(vpcID, region, accountID, vni, cidrs[i])
  {
    seq(|cidrs|, i requires 0 <= i < |cidrs| => Type5For(vpcID, region, accountID, vni, cidrs[i]))
  }

  method BuildType5Routes(vpcID: string, region: string, accountID: string, cidrs: seq<Prefix>, vni: nat)
    returns (routes: seq<Type5Route>)
    ensures routes == Type5Routes(vpcID, region, accountID, cidrs, vni)
  {
    routes := [];
    var rd := RouteDistinguisher(region, vpcID);
    var rt := RouteTarget(accountID, vpcID);
    for i := 0 to |cidrs|
      invariant |routes| == i
      invariant forall k | 0 <= k < i :: routes[k] == Type5For(vpcID, region, accountID, vni, cidrs[k])
    {
      routes := routes + [Type5Route(rd, cidrs[i], cidrs[i].bits, 0, UNSPECIFIED, vni, rt)];
    }
  }

  datatype RTAction = AddImport | RemoveImport | UnknownAction

  datatype RTConfig = RTConfig(vrfName: string, action: RTAction, routeTarget: string)

  /** Each side's VRF imports the other side's export target. */
  function BuildPeeringRTConfigs(vrfA: string, vrfB: string, exportA: string, exportB: string,
                                 action: RTAction): seq<RTConfig>
  {
    [RTConfig(vrfA, action, exportB), RTConfig(vrfB, action, exportA)]
  }

  // ---- the service's maps as values ----

  /** Advertised routes per VPC and imported route targets per VRF. */
  datatype BgpState = BgpState(routes: map<Uuid, seq<Type5Route>>, imports: map<string, seq<string>>)

  const EMPTY_BGP := BgpState(map[], map[])

  /** The list without its first `rt`. */
  function RemoveFirst(rts: seq<string>, rt: string): seq<string> {
    if rts == [] then []
    else if rts[0] == rt then rts[1..]
    else [rts[0]] + RemoveFirst(rts[1..], rt)
  }

  function Configured(b: BgpState, c: RTConfig): BgpState {
    match c.action
    case AddImport => b.(imports := b.imports[c.vrfName := At(b.imports, c.vrfName) + [c.routeTarget]])
    case RemoveImport =>
      if c.routeTarget in At(b.imports, c.vrfName)
      then b.(imports := b.imports[c.vrfName := RemoveFirst(At(b.imports, c.vrfName), c.routeTarget)])
      else b
    case UnknownAction => b
  }

  function Injected(b: BgpState, vpcID: Uuid, routes: seq<Type5Route>): BgpState {
    b.(routes := b.routes[vpcID := At(b.routes, vpcID) + routes])
  }

  /** The routes whose prefix is not withdrawn, in order. */
  function Remaining(list: seq<Type5Route>, prefixes: set<Prefix>): seq<Type5Route> {
    if list == [] then []
    else if list[0].prefix in prefixes then Remaining(list[1..], prefixes)
    else [list[0]] + Remaining(list[1..], prefixes)
  }

  function Members(prefixes: seq<Prefix>): set<Prefix> {
    set p | p in prefixes
  }

  function Withdrawn(b: BgpState, vpcID: Uuid, prefixes: set<Prefix>): BgpState {
    b.(routes := b.routes[vpcID := Remaining(At(b.routes, vpcID), prefixes)])
  }

  class InMemoryService {
    var routes: map<Uuid, seq<Type5Route>>
    var rtConfigs: map<string, seq<string>>

    ghost function View(): BgpState
      reads this
    {
      BgpState(routes, rtConfigs)
    }

    constructor ()
      ensures View() == EMPTY_BGP
    {
      routes, rtConfigs := map[], map[];
    }

    method ConfigureRT(config: RTConfig) returns (ok: bool)
      modifies this
      ensures ok <==> config.action != UnknownAction
      ensures View() == Configured(old(View()), config)
    {
      match config.action
      case AddImport =>
        rtConfigs := rtConfigs[config.vrfName := At(rtConfigs, config.vrfName) + [config.routeTarget]];
        return true;
      case RemoveImport =>
        var rts := At(rtConfigs, config.vrfName);
        for i := 0 to |rts|
          invariant config.routeTarget !in rts[..i] && View() == old(View())
        {
          if rts[i] == config.routeTarget {
            RemoveFirstSplice(rts, config.routeTarget, i);
            assert config.routeTarget in rts;
            rtConfigs := rtConfigs[config.vrfName := rts[..i] + rts[i + 1..]];
            return true;
          }
        }
        assert rts[..|rts|] == rts;
        return true;
      case UnknownAction =>
        return false;
    }

    method InjectRoutes(vpcID: Uuid, added: seq<Type5Route>) returns (count: nat)
      modifies this
      ensures View() == Injected(old(View()), vpcID, added) && count == |added|
    {
      routes := routes[vpcID := At(routes, vpcID) + added];
      count := |added|;
    }

    /** What is withdrawn and what remains together make up the old list. */
    method WithdrawRoutes(vpcID: Uuid, prefixes: seq<Prefix>) returns (withdrawn: nat)
      modifies this
      ensures View() == Withdrawn(old(View()), vpcID, Members(prefixes))
      ensures withdrawn + |At(View().routes, vpcID)| == |At(old(View()).routes, vpcID)|
    {
      withdrawn := 0;
      var existing := At(routes, vpcID);
      var remaining := [];
      var prefixSet := Members(prefixes);
      for i := 0 to |existing|
        invariant remaining + Remaining(existing[i..], prefixSet) == Remaining(existing, prefixSet)
        invariant withdrawn + |remaining| == i
      {
        assert existing[i..][1..] == existing[i + 1..];
        if existing[i].prefix in prefixSet {
          withdrawn := withdrawn + 1;
        } else {
          remaining := remaining + [existing[i]];
        }
      }
      assert remaining == Remaining(existing, prefixSet);
      routes := routes[vpcID := remaining];
    }
  }

  lemma {:induction false} RemoveFirstSplice(rts: seq<string>, rt: string, i: nat)
    requires i < |rts| && rts[i] == rt && rt !in rts[..i]
    ensures RemoveFirst(rts, rt) == rts[..i] + rts[i + 1..]
  {
    if i > 0 {
      assert rts[0] in rts[..i];
      assert rts[1..][..i - 1] == rts[1..i];
      forall x | x in rts[1..][..i - 1] ensures x in rts[..i] {
        var k :| 0 <= k < i - 1 && rts[1..][k] == x;
        assert rts[..i][k + 1] == x;
      }
      RemoveFirstSplice(rts[1..], rt, i - 1);
    }
  }

  // ---- multisets of imports ----

  lemma {:induction false} RemoveFirstMultiset(rts: seq<string>, rt: string)
    ensures multiset(RemoveFirst(rts, rt)) == multiset(rts) - multiset{rt}
  {
    if rts != [] {
      assert rts == [rts[0]] + rts[1..];
      if rts[0] != rt {
        RemoveFirstMultiset(rts[1..], rt);
      }
    }
  }

  /** Adding an import and then removing it restores the multiset of every VRF's imports. */
  lemma ImportUndo(b: BgpState, mid: BgpState, vrf: string, rt: string)
    requires multiset(At(mid.imports, vrf)) == multiset(At(b.imports, vrf)) + multiset{rt}
    ensures multiset(At(Configured(mid, RTConfig(vrf, RemoveImport, rt)).imports, vrf)) == multiset(At(b.imports, vrf))
  {
    hide RemoveFirst;
    var rts := At(mid.imports, vrf);
    assert rt in multiset(rts);
    RemoveFirstMultiset(rts, rt);
  }

  lemma {:induction false} RemainingNone(list: seq<Type5Route>, prefixes: set<Prefix>)
    requires forall r | r in list :: r.prefix in prefixes
    ensures Remaining(list, prefixes) == []
  {
    if list != [] {
      assert list[0] in list;
      RemainingNone(list[1..], prefixes);
    }
  }

  // ---- each list, in order ----

  /** What remains after a withdrawal are exactly the routes with other prefixes, in order. */
  lemma {:induction false} RemainingPicks(list: seq<Type5Route>, prefixes: set<Prefix>) returns (at: seq<nat>)
    ensures PickedAt(Remaining(list, prefixes), list, at)
    ensures forall j: nat :: j in at <==> j < |list| && list[j].prefix !in prefixes
  {
    hide PickedAt;
    if list == [] {
      at := [];
      PickedNone<Type5Route>();
    } else {
      var rest := RemainingPicks(list[1..], prefixes);
      at := PickedCons(Remaining(list[1..], prefixes), list[1..], rest, list[0], list[0].prefix !in prefixes);
      assert list == [list[0]] + list[1..];
    }
  }

  /** An import is added at the end; removing takes out the first one and keeps the others' order. */
  lemma ImportsInOrder(b: BgpState, vrf: string, rt: string, i: nat)
    requires i <= |At(b.imports, vrf)| && rt !in At(b.imports, vrf)[..i]
    requires i < |At(b.imports, vrf)| ==> At(b.imports, vrf)[i] == rt
    ensures var list := At(b.imports, vrf);
            && Configured(b, RTConfig(vrf, AddImport, rt)) == BgpState(b.routes, b.imports[vrf := list + [rt]])
            && Configured(b, RTConfig(vrf, RemoveImport, rt))
               == (if i == |list| then b else BgpState(b.routes, b.imports[vrf := list[..i] + list[i + 1..]]))
            && Configured(b, RTConfig(vrf, UnknownAction, rt)) == b
  {
    var list := At(b.imports, vrf);
    if i < |list| {
      RemoveFirstSplice(list, rt, i);
    } else {
      assert list[..i] == list;
    }
  }
}
