/** Who can change a peering and its stored routes, and the one case in which it is not an owner. */
module Ownership {
  import opened Common
  import opened Model
  import opened Lifecycle
  import opened Invariant
  import opened Preservation
  import opened Runs
  import opened Provisioning
  import opened Undo

  predicate Owns(caller: Option<Uuid>, vpcs: Vpcs, vpc: Uuid) {
    caller.Some? && vpc in vpcs && vpcs[vpc].account == caller.value
  }

  predicate OwnsAnEnd(caller: Option<Uuid>, vpcs: Vpcs, p: Peering) {
    Owns(caller, vpcs, p.requester) || Owns(caller, vpcs, p.accepter)
  }

  /** A pass, or a call by the owner of the side entitled to it. */
  predicate Authorised(s: State, a: Action, p: Peering) {
    match a
    case DoAccept(caller, _) => Owns(caller, s.vpcs, p.accepter)
    case DoReject(caller, _) => Owns(caller, s.vpcs, p.accepter)
    case DoUpdate(caller, _, _, _) => Owns(caller, s.vpcs, p.requester)
    case DoDeletePeering(caller, _) => OwnsAnEnd(caller, s.vpcs, p)
    case DoOverride(caller, _, _, _) => OwnsAnEnd(caller, s.vpcs, p)
    case DoReconcile(_, _) => true
    case _ => false
  }

  /** The step changes the stored peering, or adds or takes away one of its stored routes. */
  ghost predicate Affects(s: State, a: Action, id: Uuid)
    requires id in s.peerings
  {
    var t := Step(s, a);
    || id !in t.peerings || t.peerings[id] != s.peerings[id]
    || exists x: RouteEntry :: x.peering == id && (x in s.routes) != (x in t.routes)
  }

  /** An end of the peering is no longer found, so that access compares the caller with the nil account. */
  predicate EndGone(s: State, p: Peering) {
    GetVpc(s.vpcs, p.requester) == None || GetVpc(s.vpcs, p.accepter) == None
  }

  predicate RefusedOrLapsed(p: Peering) {
    p.state == Rejected || p.state == Expired
  }

  lemma RoutesStay(s: State, a: Action)
    requires !a.DoOverride? && !a.DoReconcile?
    ensures Step(s, a).routes == s.routes
  {
  }

  lemma OverrideAffects(s: State, a: Action, id: Uuid)
    requires NoneAlike(s.routes) && a.DoOverride? && id in s.peerings && Affects(s, a, id)
    ensures a.id == id && PeeringRefusal(s, a.caller, id) == None
  {
    hide Upsert, DeleteRoute;
    OverrideMoves(s, a.caller, a.id, a.action, a.prefix);
    if a.prefix.Some? {
      UpsertMembers(s.routes, StaticEntry(a.id, a.prefix.value));
      DeleteRouteMembers(s.routes, a.id, a.prefix.value);
    }
  }

  /** Access is given to an owner of an end, or to the nil account when an end of a dead peering is gone. */
  lemma AccessMeans(s: State, caller: Option<Uuid>, id: Uuid)
    requires id in s.peerings && PeeringWf(s.peerings[id], id, s.vpcs) && PeeringRefusal(s, caller, id) == None
    ensures var p := s.peerings[id];
            OwnsAnEnd(caller, s.vpcs, p) || (caller == Some(NIL) && RefusedOrLapsed(p) && EndGone(s, p))
  {
  }

  lemma DeleteAffects(s: State, a: Action, id: Uuid)
    requires a.DoDeletePeering? && id in s.peerings && Affects(s, a, id)
    ensures a.id == id && PeeringRefusal(s, a.caller, id) == None
  {
    RoutesStay(s, a);
  }

  lemma AnswerChanges(s: State, caller: Option<Uuid>, at: Uuid)
    requires AcceptPeering(s, caller, at).0 != s || RejectPeering(s, caller, at).0 != s
    ensures at in s.peerings && Owns(caller, s.vpcs, s.peerings[at].accepter)
  {
  }

  lemma UpdateChanges(s: State, caller: Option<Uuid>, at: Uuid, direction: Option<string>, policy: PolicyRequest)
    requires UpdatePeering(s, caller, at, direction, policy).0 != s
    ensures at in s.peerings && Owns(caller, s.vpcs, s.peerings[at].requester)
  {
  }

  lemma NotAffected(s: State, a: Action, id: Uuid)
    requires Enabled(s, a) && id in s.peerings && (a.DoCreateVpc? || a.DoDeleteVpc? || a.DoCreatePeering?)
    ensures !Affects(s, a, id)
  {
    RoutesStay(s, a);
  }

  /** A call that answers or updates a peering changes that one, if any. */
  lemma SameAt(s: State, a: Action, id: Uuid)
    requires Inv(s) && id in s.peerings && (a.DoAccept? || a.DoReject? || a.DoUpdate?) && Affects(s, a, id)
    ensures a.id == id && Step(s, a) != s
  {
    hide Inv;
    StoredWf(s, id);
    StepMoves(s, a, id);
    RoutesStay(s, a);
  }

  /**
   * A peering and its stored routes change only in a pass or by a caller owning the side entitled to
   * the change, or when the nil account deletes a refused or lapsed peering with an end gone, or
   * overrides a route of it.
   */
  lemma OnlyOwnersChangePeerings(s: State, a: Action, id: Uuid)
    requires Reaches(s) && Enabled(s, a) && id in s.peerings && Affects(s, a, id)
    ensures var p := s.peerings[id];
            || Authorised(s, a, p)
            || ((a.DoDeletePeering? || a.DoOverride?) && a.id == id && a.caller == Some(NIL)
                && RefusedOrLapsed(p) && EndGone(s, p))
  {
    hide Inv, InvGraph, Reaches, Affects;
    ReachableInv(s);
    StoredWf(s, id);
    StoredApart(s);
    match a
    case DoCreateVpc(_, _, _, _, _, _, _) => NotAffected(s, a, id);
    case DoDeleteVpc(_, _) => NotAffected(s, a, id);
    case DoCreatePeering(_, _, _, _, _, _, _) => NotAffected(s, a, id);
    case DoDeletePeering(caller, _) => DeleteAffects(s, a, id); AccessMeans(s, caller, id);
    case DoOverride(caller, _, _, _) => OverrideAffects(s, a, id); AccessMeans(s, caller, id);
    case DoReconcile(_, _) =>
    case DoAccept(caller, at) => SameAt(s, a, id); AnswerChanges(s, caller, at);
    case DoReject(caller, at) => SameAt(s, a, id); AnswerChanges(s, caller, at);
    case DoUpdate(caller, at, direction, policy) => SameAt(s, a, id); UpdateChanges(s, caller, at, direction, policy);
  }

  /** Only passes and entitled owners can change the peering or its stored routes. */
  ghost predicate InOwnersHands(s: State, id: Uuid)
    requires id in s.peerings
  {
    forall a | Enabled(s, a) && Affects(s, a, id) :: Authorised(s, a, s.peerings[id])
  }

  /** The nil account has access to a peering that is not its own. */
  predicate OpenToNil(s: State, p: Peering) {
    RefusedOrLapsed(p) && EndGone(s, p) && !OwnsAnEnd(Some(NIL), s.vpcs, p)
  }

  lemma NilDeletes(s: State, id: Uuid)
    requires id in s.peerings && OpenToNil(s, s.peerings[id])
    ensures var a := DoDeletePeering(Some(NIL), id);
            Enabled(s, a) && Affects(s, a, id) && !Authorised(s, a, s.peerings[id])
  {
  }

  /**
   * A stored peering is in its owners' hands exactly unless it was rejected or has expired, an end
   * of it is gone and the nil account owns neither end.
   */
  lemma InOwnersHandsExactly(s: State, id: Uuid)
    requires Reaches(s) && id in s.peerings
    ensures InOwnersHands(s, id) <==> !OpenToNil(s, s.peerings[id])
  {
    hide Reaches, Affects, Enabled;
    if OpenToNil(s, s.peerings[id]) {
      NilDeletes(s, id);
    } else {
      forall a | Enabled(s, a) && Affects(s, a, id) ensures Authorised(s, a, s.peerings[id]) {
        OnlyOwnersChangePeerings(s, a, id);
      }
    }
  }
}
