/** Deprovisioning one peering takes the routes of a shared VPC away from its other peerings. */
module Teardown {
  import opened Common
  import opened Prefixes
  import opened Model
  import Bgp
  import opened Lifecycle
  import opened Invariant
  import opened Preservation
  import opened Runs
  import opened Fabric
  import opened Undo
  import opened Collision

  /** The other peering's own importer pair is still there, so its requester still imports the target. */
  lemma StillImports(s: State, id: Uuid, other: Uuid)
    requires Reaches(s) && id in s.peerings && s.peerings[id].state == Active
    requires other in s.peerings && other != id && Provisioned(s.peerings[other])
    ensures var u, q := DeprovisionPeering(s, id).0, s.peerings[other];
            && q.requester in s.vpcs && q.accepter in s.vpcs
            && s.vpcs[q.accepter].exportRT in At(u.bgp.imports, s.vpcs[q.requester].vrfName)
  {
    hide Inv, Reaches, DeprovisionPeering;
    ReachableInv(s);
    ImportsPeer(s, other);
    var q := s.peerings[other];
    var vrf, rt := s.vpcs[q.requester].vrfName, s.vpcs[q.accepter].exportRT;
    DeprovisionLeavesTheOthers(s, id, vrf, rt);
    assert (other, true) in Importers(s.peerings - {id}, s.vpcs, vrf, rt);
    assert rt in multiset(At(DeprovisionPeering(s, id).0.bgp.imports, vrf));
  }

  /**
   * When an active peering is deprovisioned, in any reachable state, the requester of another
   * provisioned peering still sees its accepter's blocks exactly when the first one does not touch
   * that accepter.
   */
  lemma OthersKeepReachability(s: State, id: Uuid, other: Uuid, cidr: Prefix)
    requires Reaches(s) && id in s.peerings && s.peerings[id].state == Active
    requires other in s.peerings && other != id && Provisioned(s.peerings[other])
    requires s.peerings[other].accepter in s.vpcs ==> cidr in s.vpcs[s.peerings[other].accepter].cidrs
    ensures var u, q := DeprovisionPeering(s, id).0, s.peerings[other];
            && q.accepter in s.vpcs
            && var r := AdvertOf(s.vpcs[q.accepter], cidr);
               (Advertised(u, q.accepter, r) && Sees(u, q.requester, r)) <==> !s.peerings[id].Touches(q.accepter)
  {
    hide Reaches, DeprovisionPeering;
    Reachability(s, other, cidr);
    StillImports(s, id, other);
    var q := s.peerings[other];
    DeprovisionSilencesTheEnds(s, id, q.accepter);
    BuiltWithTarget(s, q.accepter, cidr);
  }

  lemma BuiltWithTarget(s: State, v: Uuid, cidr: Prefix)
    requires Reaches(s) && v in s.vpcs
    ensures AdvertOf(s.vpcs[v], cidr).routeTarget == s.vpcs[v].exportRT
  {
    hide Reaches, Inv;
    ReachableInv(s);
    InvVpcWf(s, v);
    AdvertMatchesStored(s.vpcs[v], v, s.regions, cidr);
  }

  lemma InvVpcWf(s: State, v: Uuid)
    requires Inv(s) && v in s.vpcs
    ensures VpcWf(s.vpcs[v], v, s.regions)
  {
  }

  /** A run after which tearing one peering down cuts off a block that another provisioned peering reached. */
  lemma TeardownCutsOffOthers()
    ensures exists s: State, id: Uuid, other: Uuid, r: Bgp.Type5Route ::
              && Reaches(s) && id in s.peerings && s.peerings[id].state == Active
              && other in s.peerings && other != id && Provisioned(s.peerings[other])
              && Advertised(s, s.peerings[other].accepter, r) && Sees(s, s.peerings[other].requester, r)
              && !Advertised(DeprovisionPeering(s, id).0, s.peerings[other].accepter, r)
  {
    hide Reaches, DeprovisionPeering, Sees;
    IdsDiffer();
    var start, actions, s := ReachTwoActive();
    ReachedReaches(start, actions, s);
    ActiveIsProvisioned(s, P);
    Reachability(s, P, Block(1));
    DeprovisionSilencesTheEnds(s, Q, B);
    assert Advertised(s, B, AdvertOf(s.vpcs[B], Block(1)));
  }

  lemma ReachedReaches(start: State, actions: seq<Action>, s: State)
    requires ReachedBy(start, actions, s)
    ensures Reaches(s)
  {
  }

  lemma ActiveIsProvisioned(s: State, id: Uuid)
    requires Reaches(s) && id in s.peerings && s.peerings[id].state == Active
    ensures Provisioned(s.peerings[id])
  {
    hide Reaches, Inv;
    ReachableInv(s);
    StoredWf(s, id);
  }
}
