/** Runs of the control plane: sequences of handler calls and reconcile passes. */
module Runs {
  import opened Common
  import opened Prefixes
  import opened Model
  import opened Lifecycle
  import opened Invariant
  import opened Preservation
  import opened Passes

  /** One atomic step, with everything the environment chooses: caller, request, fresh UUID, clock, map orders. */
  datatype Action =
    | DoCreateVpc(caller: Option<Uuid>, region: string, name: string, cidrs: Option<seq<Prefix>>, shard: nat,
                  id: Uuid, now: int)
    | DoDeleteVpc(caller: Option<Uuid>, id: Uuid)
    | DoCreatePeering(caller: Option<Uuid>, requester: Uuid, accepter: Uuid, direction: string, policy: PolicyRequest,
                      id: Uuid, now: int)
    | DoAccept(caller: Option<Uuid>, id: Uuid)
    | DoReject(caller: Option<Uuid>, id: Uuid)
    | DoUpdate(caller: Option<Uuid>, id: Uuid, newDirection: Option<string>, policy: PolicyRequest)
    | DoDeletePeering(caller: Option<Uuid>, id: Uuid)
    | DoOverride(caller: Option<Uuid>, id: Uuid, action: RouteAction, prefix: Option<Prefix>)
    | DoReconcile(orders: PassOrders, now: int)

  /** UUIDs are fresh, shards have ten bits, listings list what is stored. */
  ghost predicate Enabled(s: State, a: Action) {
    match a
    case DoCreateVpc(_, _, _, _, shard, id, _) => shard < 1024 && id !in s.vpcs
    case DoCreatePeering(_, _, _, _, _, id, _) => id !in s.peerings
    case DoReconcile(orders, now) => ValidPassOrders(s, orders, now)
    case _ => true
  }

  function Step(s: State, a: Action): State {
    match a
    case DoCreateVpc(caller, region, name, cidrs, shard, id, now) =>
      CreateVpc(s, caller, region, name, cidrs, shard, id, now).0
    case DoDeleteVpc(caller, id) => DeleteVpc(s, caller, id).0
    case DoCreatePeering(caller, r, acc, direction, policy, id, now) =>
      CreatePeering(s, caller, r, acc, direction, policy, id, now).0
    case DoAccept(caller, id) => AcceptPeering(s, caller, id).0
    case DoReject(caller, id) => RejectPeering(s, caller, id).0
    case DoUpdate(caller, id, direction, policy) => UpdatePeering(s, caller, id, direction, policy).0
    case DoDeletePeering(caller, id) => DeletePeering(s, caller, id).0
    case DoOverride(caller, id, action, prefix) => OverrideRoute(s, caller, id, action, prefix).0
    case DoReconcile(orders, now) => ReconcilePass(s, orders, now).state
  }

  lemma StepKeepsInv(s: State, a: Action)
    requires Inv(s) && Enabled(s, a)
    ensures Inv(Step(s, a))
  {
    match a
    case DoCreateVpc(caller, region, name, cidrs, shard, id, now) =>
      CreateVpcKeeps(s, caller, region, name, cidrs, shard, id, now);
    case DoDeleteVpc(caller, id) => DeleteVpcKeeps(s, caller, id);
    case DoCreatePeering(caller, r, acc, direction, policy, id, now) =>
      CreatePeeringKeeps(s, caller, r, acc, direction, policy, id, now);
    case DoAccept(caller, id) => AcceptKeeps(s, caller, id);
    case DoReject(caller, id) => RejectKeeps(s, caller, id);
    case DoUpdate(caller, id, direction, policy) => UpdateKeeps(s, caller, id, direction, policy);
    case DoDeletePeering(caller, id) => DeletePeeringKeeps(s, caller, id);
    case DoOverride(caller, id, action, prefix) => OverrideKeeps(s, caller, id, action, prefix);
    case DoReconcile(orders, now) => PassKeeps(s, orders, now);
  }

  /** The state after the first actions of a run. */
  function Exec(s: State, actions: seq<Action>): State {
    if actions == [] then s else Step(Exec(s, actions[..|actions| - 1]), actions[|actions| - 1])
  }

  function StateAt(s: State, actions: seq<Action>, n: nat): State
    requires n <= |actions|
  {
    Exec(s, actions[..n])
  }

  ghost predicate IsRun(s: State, actions: seq<Action>) {
    Init(s) && forall n | 0 <= n < |actions| :: Enabled(StateAt(s, actions, n), actions[n])
  }

  lemma StepAt(s: State, actions: seq<Action>, n: nat)
    requires n < |actions|
    ensures StateAt(s, actions, n + 1) == Step(StateAt(s, actions, n), actions[n])
  {
    assert actions[..n + 1][..n] == actions[..n];
  }

  /** Every state of every run satisfies the invariant. */
  lemma {:induction false} RunKeepsInv(s: State, actions: seq<Action>, n: nat)
    requires IsRun(s, actions) && n <= |actions|
    ensures Inv(StateAt(s, actions, n))
  {
    if n == 0 {
      InitInv(s);
    } else {
      RunKeepsInv(s, actions, n - 1);
      StepAt(s, actions, n - 1);
      StepKeepsInv(StateAt(s, actions, n - 1), actions[n - 1]);
    }
  }

  /** Some run from a start state ends in `s`. */
  ghost predicate Reaches(s: State) {
    exists start: State, actions: seq<Action> :: IsRun(start, actions) && StateAt(start, actions, |actions|) == s
  }

  lemma ReachableInv(s: State)
    requires Reaches(s)
    ensures Inv(s)
  {
    var start: State, actions: seq<Action> :| IsRun(start, actions) && StateAt(start, actions, |actions|) == s;
    RunKeepsInv(start, actions, |actions|);
  }

  // ---- what one step can do to a peering and to the log ----

  /** What a pass makes of a peering: it provisions the waiting ones and expires the overdue requests. */
  ghost predicate PassMove(p: Peering, q: Peering, vpcs: Vpcs, now: int) {
    if p.state == Provisioning then
      && !Provisioned(p) && p.requester in vpcs && p.accepter in vpcs
      && var sent := p.direction == "bidirectional" || p.direction == "accepter_to_requester";
         q == p.(state := Active,
                 provisionedAt := Some(now),
                 routeCount := |vpcs[p.accepter].cidrs| + (if sent then |vpcs[p.requester].cidrs| else 0))
    else
      q == if p.state == PendingAcceptance && Overdue(p, now) then p.(state := Expired) else p
  }

  /**
   * All that one step can make of a stored peering. A call that changes it is about it, finds it in
   * the right state and writes exactly the fields shown; `vpcs` is what is stored before the step.
   */
  ghost predicate Moves(p: Peering, q: Peering, a: Action, vpcs: Vpcs) {
    match a
    case DoAccept(_, id) => q == p || (p.id == id && p.state == PendingAcceptance && q == p.(state := Provisioning))
    case DoReject(_, id) => q == p || (p.id == id && p.state == PendingAcceptance && q == p.(state := Rejected))
    case DoUpdate(_, id, direction, policy) =>
      || q == p
      || (p.id == id && (p.state == Active || p.state == Provisioning)
          && q == p.(direction := if direction.Some? then direction.value else p.direction,
                     policy := if policy.Given? then policy.policy else p.policy))
    case DoDeletePeering(_, id) => q == p || (p.id == id && p.state != Deleted && q == p.(state := Deleted))
    case DoReconcile(_, now) => PassMove(p, q, vpcs, now)
    case _ => q == p
  }

  lemma PassMoves(s: State, o: PassOrders, now: int, id: Uuid)
    requires Inv(s) && ValidPassOrders(s, o, now) && id in s.peerings
    ensures var q := ReconcilePass(s, o, now).state.peerings;
            id in q && PassMove(s.peerings[id], q[id], s.vpcs, now)
  {
    PassGivesMaps(s, o, now);
    PassKeeps(s, o, now);
    PassMovesFromMaps(s, ReconcilePass(s, o, now).state, o, now, id);
  }

  lemma PassMovesFromMaps(s: State, t: State, o: PassOrders, now: int, id: Uuid)
    requires InvGraph(s) && Lists(o.provisioning, s.peerings, Provisioning) && id in s.peerings
    requires PassMaps(s.peerings, AfterProvisioning(s, o, now).state.peerings, t.peerings,
                      o.provisioning.ids, o.pending.ids, now)
    ensures id in t.peerings && PassMove(s.peerings[id], t.peerings[id], s.vpcs, now)
  {
    ListedReady(s, o.provisioning);
    ProvisionListedRecords(Progress(s, EMPTY_REPORT), o.provisioning.ids, o.provisioning.items, now);
    var mid := AfterProvisioning(s, o, now).state.peerings;
    assert PeeringWf(s.peerings[id], id, s.vpcs);
    assert id in o.provisioning.ids <==> id in InState(s.peerings, Provisioning);
    assert id in o.pending.ids <==> id in InState(mid, PendingAcceptance);
  }

  /** As provisioning leaves the record, or as it was. */
  predicate PerhapsProvisioned(p: Peering, q: Peering, vpcs: Vpcs, now: int) {
    q == p || (p.requester in vpcs && p.accepter in vpcs
               && q == ProvisionedPeering(p, vpcs[p.requester], vpcs[p.accepter], now))
  }

  ghost predicate AllPerhapsProvisioned(before: Peerings, after: Peerings, vpcs: Vpcs, now: int) {
    forall i | i in before :: i in after && PerhapsProvisioned(before[i], after[i], vpcs, now)
  }

  lemma PerhapsProvisionedStep(before: Peerings, mid: Peerings, after: Peerings, k: Uuid, vpcs: Vpcs, now: int)
    requires k in before && k in mid && mid == before[k := mid[k]]
    requires PerhapsProvisioned(before[k], mid[k], vpcs, now) && AllPerhapsProvisioned(mid, after, vpcs, now)
    ensures AllPerhapsProvisioned(before, after, vpcs, now)
  {
    forall i | i in before ensures i in after && PerhapsProvisioned(before[i], after[i], vpcs, now) {
      assert i in mid && PerhapsProvisioned(mid[i], after[i], vpcs, now);
    }
  }

  /** The provisioning phase writes no other record than provisioning does. */
  lemma {:induction false} ProvisionListedRecords(g: Progress, ids: seq<Uuid>, items: seq<Peering>, now: int)
    requires Ready(g.state, ids, items)
    ensures AllPerhapsProvisioned(g.state.peerings, ProvisionListed(g, items, now).state.peerings, g.state.vpcs, now)
    decreases |items|
  {
    if items != [] {
      var next := ProvisionStep(g, ids[0], now);
      assert items[0].id == ids[0];
      ProvisionStepEffect(g, ids[0], now);
      ProvisionStepRecord(g, ids[0], now);
      ReadyRest(g.state, next.state, ids, items);
      ProvisionListedRecords(next, ids[1..], items[1..], now);
      PerhapsProvisionedStep(g.state.peerings, next.state.peerings, ProvisionListed(g, items, now).state.peerings,
                             ids[0], g.state.vpcs, now);
    }
  }

  lemma ProvisionStepRecord(g: Progress, id: Uuid, now: int)
    requires ProvisionRefusal(g.state, id) == None && g.state.peerings[id].id == id
    ensures PerhapsProvisioned(g.state.peerings[id], ProvisionStep(g, id, now).state.peerings[id], g.state.vpcs, now)
  {
  }

  lemma PutMoves(s: State, q: Peering, a: Action, id: Uuid)
    requires id in s.peerings && q.id in s.peerings && !a.DoReconcile? && Moves(s.peerings[q.id], q, a, s.vpcs)
    ensures Moves(s.peerings[id], UpdatePeeringStore(s, q).peerings[id], a, s.vpcs)
  {
  }

  lemma AcceptMoves(s: State, caller: Option<Uuid>, at: Uuid, id: Uuid)
    requires InvGraph(s) && id in s.peerings
    ensures var t := AcceptPeering(s, caller, at).0;
            id in t.peerings && Moves(s.peerings[id], t.peerings[id], DoAccept(caller, at), s.vpcs)
  {
    if AnswerRefusal(s, caller, at) == None {
      assert PeeringWf(s.peerings[at], at, s.vpcs);
      PutMoves(s, s.peerings[at].(state := Provisioning), DoAccept(caller, at), id);
    }
  }

  lemma RejectMoves(s: State, caller: Option<Uuid>, at: Uuid, id: Uuid)
    requires InvGraph(s) && id in s.peerings
    ensures var t := RejectPeering(s, caller, at).0;
            id in t.peerings && Moves(s.peerings[id], t.peerings[id], DoReject(caller, at), s.vpcs)
  {
    if AnswerRefusal(s, caller, at) == None {
      assert PeeringWf(s.peerings[at], at, s.vpcs);
      PutMoves(s, s.peerings[at].(state := Rejected), DoReject(caller, at), id);
    }
  }

  lemma UpdateMoves(s: State, caller: Option<Uuid>, at: Uuid, direction: Option<string>, policy: PolicyRequest,
                    id: Uuid)
    requires InvGraph(s) && id in s.peerings
    ensures var t := UpdatePeering(s, caller, at, direction, policy).0;
            id in t.peerings && Moves(s.peerings[id], t.peerings[id], DoUpdate(caller, at, direction, policy), s.vpcs)
  {
    if UpdateRefusal(s, caller, at, policy) == None {
      assert PeeringWf(s.peerings[at], at, s.vpcs);
      PutMoves(s, Updated(s.peerings[at], direction, policy), DoUpdate(caller, at, direction, policy), id);
    }
  }

  lemma DeleteMoves(s: State, caller: Option<Uuid>, at: Uuid, id: Uuid)
    requires id in s.peerings && s.peerings[id].id == id
    ensures var t := DeletePeering(s, caller, at).0;
            id in t.peerings && Moves(s.peerings[id], t.peerings[id], DoDeletePeering(caller, at), s.vpcs)
  {
  }

  lemma OverrideMoves(s: State, caller: Option<Uuid>, at: Uuid, action: RouteAction, prefix: Option<Prefix>)
    ensures OverrideRoute(s, caller, at, action, prefix).0.peerings == s.peerings
  {
  }

  lemma VpcActionsMove(s: State, a: Action)
    requires a.DoCreateVpc? || a.DoDeleteVpc?
    ensures Step(s, a).peerings == s.peerings && Step(s, a).events == s.events
  {
  }

  lemma CreateMoves(s: State, a: Action, id: Uuid)
    requires a.DoCreatePeering? && a.id !in s.peerings && id in s.peerings
    ensures id in Step(s, a).peerings && Step(s, a).peerings[id] == s.peerings[id]
  {
  }

  lemma StepMoves(s: State, a: Action, id: Uuid)
    requires Inv(s) && Enabled(s, a) && id in s.peerings
    ensures id in Step(s, a).peerings && Moves(s.peerings[id], Step(s, a).peerings[id], a, s.vpcs)
  {
    StoredWf(s, id);
    match a
    case DoCreateVpc(_, _, _, _, _, _, _) => VpcActionsMove(s, a);
    case DoDeleteVpc(_, _) => VpcActionsMove(s, a);
    case DoCreatePeering(_, _, _, _, _, _, _) => CreateMoves(s, a, id);
    case DoAccept(caller, at) => AcceptMoves(s, caller, at, id);
    case DoReject(caller, at) => RejectMoves(s, caller, at, id);
    case DoUpdate(caller, at, direction, policy) => UpdateMoves(s, caller, at, direction, policy, id);
    case DoDeletePeering(caller, at) => DeleteMoves(s, caller, at, id);
    case DoOverride(caller, at, action, prefix) => OverrideMoves(s, caller, at, action, prefix);
    case DoReconcile(o, now) => PassMoves(s, o, now, id);
  }

  /** The VPC record as it was, but perhaps marked deleted. */
  predicate SameVpc(v: Vpc, w: Vpc) {
    w == v || w == v.(state := VpcDeleted)
  }

  lemma PeeringActionsKeepVpcs(s: State, a: Action)
    requires !a.DoCreateVpc? && !a.DoDeleteVpc? && !a.DoReconcile?
    ensures Step(s, a).vpcs == s.vpcs
  {
  }

  lemma VpcActionsKeepVpcs(s: State, a: Action, id: Uuid)
    requires a.DoDeleteVpc? || (a.DoCreateVpc? && a.id !in s.vpcs)
    requires id in s.vpcs
    ensures id in Step(s, a).vpcs && SameVpc(s.vpcs[id], Step(s, a).vpcs[id])
  {
  }

  /** VPC records never disappear and never change but for becoming deleted. */
  lemma StepKeepsVpcs(s: State, a: Action, id: Uuid)
    requires Inv(s) && Enabled(s, a) && id in s.vpcs
    ensures id in Step(s, a).vpcs && SameVpc(s.vpcs[id], Step(s, a).vpcs[id])
  {
    hide Inv;
    match a
    case DoCreateVpc(_, _, _, _, _, _, _) => VpcActionsKeepVpcs(s, a, id);
    case DoDeleteVpc(_, _) => VpcActionsKeepVpcs(s, a, id);
    case DoReconcile(o, now) => PassReport(s, o, now);
    case _ => PeeringActionsKeepVpcs(s, a);
  }

  lemma HandlersGrowLog(s: State, a: Action)
    requires !a.DoReconcile?
    ensures s.events <= Step(s, a).events
  {
  }

  lemma PassGrowsLog(s: State, o: PassOrders, now: int)
    requires Inv(s) && ValidPassOrders(s, o, now)
    ensures s.events <= ReconcilePass(s, o, now).state.events
    ensures ReconcilePass(s, o, now).state.events == AfterProvisioning(s, o, now).state.events
  {
    PassKeeps(s, o, now);
    ProvisionListedGrowsLog(Progress(s, EMPTY_REPORT), o.provisioning.items, now);
    ExpireListedKeepsLog(AfterDeleting(s, o, now), o.pending.items, now);
  }

  /** The event log only grows. */
  lemma StepGrowsLog(s: State, a: Action)
    requires Inv(s) && Enabled(s, a)
    ensures s.events <= Step(s, a).events
  {
    match a
    case DoReconcile(o, now) => PassGrowsLog(s, o, now);
    case _ => HandlersGrowLog(s, a);
  }

  lemma {:induction false} ProvisionListedGrowsLog(g: Progress, items: seq<Peering>, now: int)
    ensures g.state.events <= ProvisionListed(g, items, now).state.events
    decreases |items|
  {
    if items != [] {
      ProvisionListedGrowsLog(ProvisionStep(g, items[0].id, now), items[1..], now);
    }
  }

  lemma {:induction false} ExpireListedKeepsLog(g: Progress, items: seq<Peering>, now: int)
    ensures var q := ExpireListed(g, items, now).state;
            q.events == g.state.events && q.inUse == g.state.inUse && q.regions == g.state.regions
    decreases |items|
  {
    if items != [] {
      ExpireListedKeepsLog(ExpireStep(g, items[0], now), items[1..], now);
    }
  }
}
