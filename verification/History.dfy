/** What holds over whole runs: the dead stay dead, the log grows, consent comes first. */
module History {
  import opened Common
  import opened Model
  import opened Lifecycle
  import opened Invariant
  import opened Preservation
  import opened Passes
  import opened Runs

  // ---- one step of a run ----

  lemma RunMoves(s: State, actions: seq<Action>, n: nat, id: Uuid)
    requires IsRun(s, actions) && n < |actions| && id in StateAt(s, actions, n).peerings
    ensures id in StateAt(s, actions, n + 1).peerings
    ensures Moves(StateAt(s, actions, n).peerings[id], StateAt(s, actions, n + 1).peerings[id], actions[n],
                  StateAt(s, actions, n).vpcs)
  {
    RunKeepsInv(s, actions, n);
    StepAt(s, actions, n);
    StepMoves(StateAt(s, actions, n), actions[n], id);
  }

  lemma RunKeepsVpcs(s: State, actions: seq<Action>, n: nat, id: Uuid)
    requires IsRun(s, actions) && n < |actions| && id in StateAt(s, actions, n).vpcs
    ensures id in StateAt(s, actions, n + 1).vpcs
    ensures SameVpc(StateAt(s, actions, n).vpcs[id], StateAt(s, actions, n + 1).vpcs[id])
  {
    RunKeepsInv(s, actions, n);
    StepAt(s, actions, n);
    StepKeepsVpcs(StateAt(s, actions, n), actions[n], id);
  }

  lemma RunGrowsLog(s: State, actions: seq<Action>, n: nat)
    requires IsRun(s, actions) && n < |actions|
    ensures StateAt(s, actions, n).events <= StateAt(s, actions, n + 1).events
  {
    RunKeepsInv(s, actions, n);
    StepAt(s, actions, n);
    StepGrowsLog(StateAt(s, actions, n), actions[n]);
  }

  // ---- whole runs ----

  /** `q` is a later form of `p`: its fixed fields are the same and the dead stay dead. */
  predicate Follows(p: Peering, q: Peering) {
    && q.id == p.id && q.requester == p.requester && q.accepter == p.accepter && q.account == p.account
    && q.crossRegion == p.crossRegion && q.createdAt == p.createdAt
    && (p.state in {Rejected, Expired, Deleted} ==> q.state in {Rejected, Expired, Deleted})
    && (p.state == Deleted ==> q.state == Deleted)
    && (Provisioned(p) ==> q.provisionedAt == p.provisionedAt && q.routeCount == p.routeCount)
  }

  lemma FollowsMoves(p: Peering, q: Peering, r: Peering, a: Action, vpcs: Vpcs)
    requires Follows(p, q) && Moves(q, r, a, vpcs)
    ensures Follows(p, r)
  {
  }

  /** A stored peering keeps its fixed fields and never comes back to life. */
  lemma {:induction false} NeverLiveAgain(s: State, actions: seq<Action>, n: nat, m: nat, id: Uuid)
    requires IsRun(s, actions) && n <= m <= |actions| && id in StateAt(s, actions, n).peerings
    ensures id in StateAt(s, actions, m).peerings
    ensures Follows(StateAt(s, actions, n).peerings[id], StateAt(s, actions, m).peerings[id])
  {
    hide Step, Exec, IsRun;
    if n < m {
      NeverLiveAgain(s, actions, n, m - 1, id);
      RunMoves(s, actions, m - 1, id);
      FollowsMoves(StateAt(s, actions, n).peerings[id], StateAt(s, actions, m - 1).peerings[id],
                   StateAt(s, actions, m).peerings[id], actions[m - 1], StateAt(s, actions, m - 1).vpcs);
    }
  }

  /** VPC records stay, with every field but the state. */
  lemma {:induction false} VpcsStay(s: State, actions: seq<Action>, n: nat, m: nat, id: Uuid)
    requires IsRun(s, actions) && n <= m <= |actions| && id in StateAt(s, actions, n).vpcs
    ensures id in StateAt(s, actions, m).vpcs
            && SameVpc(StateAt(s, actions, n).vpcs[id], StateAt(s, actions, m).vpcs[id])
  {
    hide Step, Exec, IsRun;
    if n < m {
      VpcsStay(s, actions, n, m - 1, id);
      RunKeepsVpcs(s, actions, m - 1, id);
    }
  }

  /** The event log of an earlier state is a prefix of that of a later one. */
  lemma {:induction false} LogGrows(s: State, actions: seq<Action>, n: nat, m: nat)
    requires IsRun(s, actions) && n <= m <= |actions|
    ensures StateAt(s, actions, n).events <= StateAt(s, actions, m).events
  {
    hide Step, Exec, IsRun;
    if n < m {
      LogGrows(s, actions, n, m - 1);
      RunGrowsLog(s, actions, m - 1);
      PrefixOfPrefix(StateAt(s, actions, n).events, StateAt(s, actions, m - 1).events, StateAt(s, actions, m).events);
    }
  }

  lemma PrefixOfPrefix<T>(a: seq<T>, b: seq<T>, c: seq<T>)
    requires a <= b <= c
    ensures a <= c
  {
  }

  /** Step `n` provisions the peering. */
  ghost predicate ProvisionedAt(s: State, actions: seq<Action>, n: nat, id: Uuid) {
    && n < |actions| && id in StateAt(s, actions, n).peerings && !Provisioned(StateAt(s, actions, n).peerings[id])
    && id in StateAt(s, actions, n + 1).peerings && Provisioned(StateAt(s, actions, n + 1).peerings[id])
  }

  /**
   * For ever after, the route count says what the direction was in the step that provisioned the
   * peering: it exceeds the number of the accepter's blocks exactly when the requester's routes were sent.
   */
  lemma RouteCountRecordsDirection(s: State, actions: seq<Action>, n: nat, m: nat, id: Uuid)
    requires IsRun(s, actions) && ProvisionedAt(s, actions, n, id) && n < m <= |actions|
    ensures var t, p := StateAt(s, actions, m), StateAt(s, actions, n).peerings[id];
            && id in t.peerings && p.requester in t.vpcs && p.accepter in t.vpcs
            && var blocks := |t.vpcs[p.accepter].cidrs|;
               && t.peerings[id].routeCount
                  == blocks + (if p.AlsoRequesterRoutes() then |t.vpcs[p.requester].cidrs| else 0)
               && (t.peerings[id].routeCount > blocks <==> p.AlsoRequesterRoutes())
  {
    hide Step, Exec, IsRun, Inv;
    var p := StateAt(s, actions, n).peerings[id];
    RunKeepsInv(s, actions, n);
    StoredWf(StateAt(s, actions, n), id);
    RunMoves(s, actions, n, id);
    NeverLiveAgain(s, actions, n + 1, m, id);
    VpcsStay(s, actions, n, m, p.requester);
    VpcsStay(s, actions, n, m, p.accepter);
    RunKeepsInv(s, actions, m);
    SomeBlock(StateAt(s, actions, m), p.requester);
  }

  lemma SomeBlock(t: State, v: Uuid)
    requires Inv(t) && v in t.vpcs
    ensures |t.vpcs[v].cidrs| > 0
  {
    assert VpcWf(t.vpcs[v], v, t.regions);
  }

  /** In every reachable state a peering has at most one provisioned event, and one exactly when it is provisioned. */
  lemma ProvisionedOnce(s: State, actions: seq<Action>, n: nat, id: Uuid)
    requires IsRun(s, actions) && n <= |actions|
    ensures var t, e := StateAt(s, actions, n), Event(id, PeeringProvisioned);
            && (e in t.events <==> id in t.peerings && Provisioned(t.peerings[id]))
            && forall i, j | 0 <= i < j < |t.events| :: !(t.events[i] == e && t.events[j] == e)
  {
    RunKeepsInv(s, actions, n);
    ProvisionedEvent(StateAt(s, actions, n).events, StateAt(s, actions, n).peerings, id);
  }

  lemma ProvisionedEvent(events: seq<Event>, peerings: Peerings, id: Uuid)
    requires EventsOk(events, peerings)
    ensures Event(id, PeeringProvisioned) in events <==> id in peerings && Provisioned(peerings[id])
    ensures forall i, j | 0 <= i < j < |events| ::
              !(events[i] == Event(id, PeeringProvisioned) && events[j] == Event(id, PeeringProvisioned))
  {
    if Event(id, PeeringProvisioned) in events {
      var i :| 0 <= i < |events| && events[i] == Event(id, PeeringProvisioned);
      assert events[i].peering in peerings;
    }
  }

  // ---- passes ----

  /** One provisioned event per listed peering, in the order of the listing. */
  function ProvisionedEvents(ids: seq<Uuid>): seq<Event> {
    seq(|ids|, i requires 0 <= i < |ids| => Event(ids[i], PeeringProvisioned))
  }

  lemma ProvisionStepLogs(g: Progress, id: Uuid, now: int)
    requires ProvisionRefusal(g.state, id) == None && g.state.peerings[id].id == id
    ensures var q := ProvisionStep(g, id, now).state;
            && q.events == g.state.events + [Event(id, PeeringProvisioned)]
            && q.inUse == g.state.inUse && q.regions == g.state.regions
  {
  }

  lemma {:induction false} ProvisionListedLogs(g: Progress, ids: seq<Uuid>, items: seq<Peering>, now: int)
    requires Ready(g.state, ids, items)
    ensures var q := ProvisionListed(g, items, now).state;
            && q.events == g.state.events + ProvisionedEvents(ids)
            && q.inUse == g.state.inUse && q.regions == g.state.regions
    decreases |items|
  {
    hide ProvisionStep, ProvisionRefusal;
    if items != [] {
      var next := ProvisionStep(g, ids[0], now);
      assert items[0].id == ids[0];
      ProvisionStepEffect(g, ids[0], now);
      ProvisionStepLogs(g, ids[0], now);
      ReadyRest(g.state, next.state, ids, items);
      ProvisionListedLogs(next, ids[1..], items[1..], now);
      assert ProvisionedEvents(ids) == [Event(ids[0], PeeringProvisioned)] + ProvisionedEvents(ids[1..]);
    }
  }

  lemma PassLogs(s: State, o: PassOrders, now: int)
    requires Inv(s) && ValidPassOrders(s, o, now)
    ensures var q := ReconcilePass(s, o, now).state;
            q.events == s.events + ProvisionedEvents(o.provisioning.ids) && q.inUse == s.inUse && q.regions == s.regions
  {
    PassKeeps(s, o, now);
    ListedReady(s, o.provisioning);
    ProvisionListedLogs(Progress(s, EMPTY_REPORT), o.provisioning.ids, o.provisioning.items, now);
    ExpireListedKeepsLog(AfterDeleting(s, o, now), o.pending.items, now);
  }

  /**
   * In every reachable state, in whatever order the listings come, a pass has no errors, provisions
   * and counts every waiting peering, expires and counts every overdue request, and keeps every
   * other peering; it logs the provisioned ones in the order of the listing and nothing else.
   */
  lemma EveryPassSettles(s: State, o: PassOrders, now: int)
    requires Reaches(s) && ValidPassOrders(s, o, now)
    ensures var q := ReconcilePass(s, o, now);
            && q.report == Report(|InState(s.peerings, Provisioning)|, 0, |OverduePending(s.peerings, now)|, 0, [])
            && q.state.vpcs == s.vpcs && q.state.peerings.Keys == s.peerings.Keys
            && (forall id | id in s.peerings :: q.state.peerings[id].state == SettledState(s.peerings[id], now))
            && (forall id | id in s.peerings :: PassMove(s.peerings[id], q.state.peerings[id], s.vpcs, now))
            && q.state.events == s.events + ProvisionedEvents(o.provisioning.ids)
            && q.state.inUse == s.inUse && q.state.regions == s.regions
            && InState(q.state.peerings, Provisioning) == {}
            && OverduePending(q.state.peerings, now) == {}
  {
    hide Inv, Reaches, ReconcilePass, ValidPassOrders, PassMove;
    ReachableInv(s);
    PassSettlesEverything(s, o, now);
    var after := ReconcilePass(s, o, now).state.peerings;
    forall id | id in s.peerings ensures PassMove(s.peerings[id], after[id], s.vpcs, now) {
      PassMoves(s, o, now, id);
    }
    PassLogs(s, o, now);
  }

  /** After it a second pass at the same time changes nothing and reports nothing. */
  lemma RepeatedPassIsQuiet(s: State, o1: PassOrders, o2: PassOrders, now: int)
    requires Reaches(s) && ValidPassOrders(s, o1, now) && ValidPassOrders(ReconcilePass(s, o1, now).state, o2, now)
    ensures var t := ReconcilePass(s, o1, now).state;
            ReconcilePass(t, o2, now) == Progress(t, EMPTY_REPORT)
  {
    hide Inv, Reaches, ReconcilePass, ValidPassOrders;
    ReachableInv(s);
    SecondPassIsQuiet(s, o1, o2, now);
  }

  /** In every reachable state provisioning a waiting peering is not refused and does not fail. */
  lemma WaitingCanBeProvisioned(s: State, id: Uuid, now: int)
    requires Reaches(s) && id in s.peerings && s.peerings[id].state == Provisioning
    ensures ProvisionRefusal(s, id) == None && ProvisionPeering(s, id, now).1 == None
  {
    hide Inv, Reaches;
    ReachableInv(s);
    StoredWf(s, id);
  }

  // ---- consent ----

  ghost predicate CrossAccount(t: State, id: Uuid) {
    && id in t.peerings && t.peerings[id].requester in t.vpcs && t.peerings[id].accepter in t.vpcs
    && t.vpcs[t.peerings[id].requester].account != t.vpcs[t.peerings[id].accepter].account
  }

  /** Step `m` is a successful `Accept` of the peering by the account owning the accepter VPC. */
  ghost predicate AcceptedAt(s: State, actions: seq<Action>, m: nat, id: Uuid, owner: Uuid) {
    && m < |actions|
    && actions[m] == DoAccept(Some(owner), id)
    && AnswerRefusal(StateAt(s, actions, m), Some(owner), id) == None
  }

  lemma AcceptLogs(s: State, actions: seq<Action>, m: nat, id: Uuid, owner: Uuid)
    requires IsRun(s, actions) && AcceptedAt(s, actions, m, id, owner)
    ensures StateAt(s, actions, m + 1).events == StateAt(s, actions, m).events + [Event(id, PeeringAccepted)]
  {
    hide Inv, IsRun;
    RunKeepsInv(s, actions, m);
    StoredWf(StateAt(s, actions, m), id);
    StepAt(s, actions, m);
  }

  lemma PassKeepsPeeringIds(s: State, a: Action)
    requires Inv(s) && Enabled(s, a) && a.DoReconcile?
    ensures Step(s, a).peerings.Keys == s.peerings.Keys
  {
    PassSettlesEverything(s, a.orders, a.now);
  }

  lemma PutKeepsIds(s: State, a: Action)
    requires a.DoAccept? || a.DoReject? || a.DoUpdate? || a.DoDeletePeering? || a.DoOverride?
    requires forall i | i in s.peerings :: s.peerings[i].id == i
    ensures Step(s, a).peerings.Keys == s.peerings.Keys
  {
  }

  /** A peering that appears in a step was just requested: across accounts, it awaits acceptance. */
  lemma NewPeeringsWait(s: State, a: Action, id: Uuid)
    requires Inv(s) && Enabled(s, a) && id !in s.peerings && id in Step(s, a).peerings
    ensures var t := Step(s, a);
            && a.DoCreatePeering? && !Provisioned(t.peerings[id])
            && (CrossAccount(t, id) ==> t.peerings[id].state == PendingAcceptance)
  {
    hide Inv;
    match a
    case DoCreateVpc(_, _, _, _, _, _, _) => VpcActionsMove(s, a);
    case DoDeleteVpc(_, _) => VpcActionsMove(s, a);
    case DoReconcile(o, now) => PassKeepsPeeringIds(s, a);
    case DoCreatePeering(_, _, _, _, _, _, _) => NewPeeringWaits(s, a, id);
    case _ =>
      forall i | i in s.peerings ensures s.peerings[i].id == i {
        StoredWf(s, i);
      }
      PutKeepsIds(s, a);
  }

  lemma NewPeeringWaits(s: State, a: Action, id: Uuid)
    requires a.DoCreatePeering? && id !in s.peerings && id in Step(s, a).peerings
    ensures var t := Step(s, a);
            !Provisioned(t.peerings[id]) && (CrossAccount(t, id) ==> t.peerings[id].state == PendingAcceptance)
  {
  }

  ghost predicate Consented(s: State, actions: seq<Action>, n: nat, id: Uuid, owner: Uuid) {
    exists m: nat :: m < n && AcceptedAt(s, actions, m, id, owner)
  }

  lemma AcceptingStep(s: State, a: Action, id: Uuid)
    requires id in s.peerings && s.peerings[id].state == PendingAcceptance && a.DoAccept? && a.id == id
    requires id in Step(s, a).peerings && Step(s, a).peerings[id].state == Provisioning
    ensures a.caller != None && AnswerRefusal(s, a.caller, id) == None
    ensures s.peerings[id].accepter in s.vpcs && s.vpcs[s.peerings[id].accepter].account == a.caller.value
  {
  }

  predicate UnderWay(p: Peering) {
    p.state == Provisioning || Provisioned(p)
  }

  ghost function OwnerOf(t: State, id: Uuid): Uuid
    requires CrossAccount(t, id)
  {
    t.vpcs[t.peerings[id].accepter].account
  }

  lemma StepKeepsEnds(s: State, a: Action, id: Uuid)
    requires Inv(s) && Enabled(s, a) && id in s.peerings && CrossAccount(Step(s, a), id)
    ensures CrossAccount(s, id) && OwnerOf(s, id) == OwnerOf(Step(s, a), id)
  {
    hide Inv, Enabled;
    StoredWf(s, id);
    StepMoves(s, a, id);
    StepKeepsVpcs(s, a, s.peerings[id].requester);
    StepKeepsVpcs(s, a, s.peerings[id].accepter);
  }

  /** A peering gets under way only from acceptance by the owner of the accepter VPC. */
  lemma GettingUnderWay(s: State, a: Action, id: Uuid)
    requires Inv(s) && Enabled(s, a) && id in s.peerings && CrossAccount(s, id)
    requires id in Step(s, a).peerings && UnderWay(Step(s, a).peerings[id]) && !UnderWay(s.peerings[id])
    ensures a == DoAccept(Some(OwnerOf(s, id)), id) && AnswerRefusal(s, a.caller, id) == None
  {
    hide Inv, Enabled;
    StepMoves(s, a, id);
    StepKeepsInv(s, a);
    StoredWf(Step(s, a), id);
    AcceptingStep(s, a, id);
  }

  lemma ConsentLater(s: State, actions: seq<Action>, n: nat, k: nat, id: Uuid, owner: Uuid)
    requires Consented(s, actions, n, id, owner) && n <= k
    ensures Consented(s, actions, k, id, owner)
  {
    var m: nat :| m < n && AcceptedAt(s, actions, m, id, owner);
  }

  /** No cross-account peering gets as far as provisioning without the accepter owner's `Accept`. */
  lemma {:induction false} ConsentFirst(s: State, actions: seq<Action>, n: nat, id: Uuid)
    requires IsRun(s, actions) && n <= |actions|
    requires CrossAccount(StateAt(s, actions, n), id) && UnderWay(StateAt(s, actions, n).peerings[id])
    ensures Consented(s, actions, n, id, OwnerOf(StateAt(s, actions, n), id))
  {
    hide Inv;
    if n > 0 {
      var before, a := StateAt(s, actions, n - 1), actions[n - 1];
      RunKeepsInv(s, actions, n - 1);
      StepAt(s, actions, n - 1);
      if id !in before.peerings {
        NewPeeringsWait(before, a, id);
      } else {
        StepKeepsEnds(before, a, id);
        if UnderWay(before.peerings[id]) {
          ConsentFirst(s, actions, n - 1, id);
          ConsentLater(s, actions, n - 1, n, id, OwnerOf(before, id));
        } else {
          GettingUnderWay(before, a, id);
          assert AcceptedAt(s, actions, n - 1, id, OwnerOf(before, id));
        }
      }
    }
  }

  /** The step that wrote event `k`. */
  lemma {:induction false} WrittenAt(s: State, actions: seq<Action>, n: nat, k: nat) returns (w: nat)
    requires IsRun(s, actions) && n <= |actions| && k < |StateAt(s, actions, n).events|
    ensures w < n && |StateAt(s, actions, w).events| <= k < |StateAt(s, actions, w + 1).events|
  {
    if n == 0 {
      assert false;
    } else if k < |StateAt(s, actions, n - 1).events| {
      w := WrittenAt(s, actions, n - 1, k);
    } else {
      w := n - 1;
    }
  }

  /** The accepted event that `Accept` wrote is in every later log, at the place it was written. */
  lemma AcceptedEventStays(s: State, actions: seq<Action>, m: nat, n: nat, id: Uuid, owner: Uuid)
    requires IsRun(s, actions) && m < n <= |actions| && AcceptedAt(s, actions, m, id, owner)
    ensures var j := |StateAt(s, actions, m).events|;
            j < |StateAt(s, actions, n).events| && StateAt(s, actions, n).events[j] == Event(id, PeeringAccepted)
  {
    AcceptLogs(s, actions, m, id, owner);
    LogGrows(s, actions, m + 1, n);
    var j := |StateAt(s, actions, m).events|;
    assert StateAt(s, actions, m + 1).events[j] == Event(id, PeeringAccepted);
  }

  lemma EnabledAt(s: State, actions: seq<Action>, w: nat)
    requires IsRun(s, actions) && w < |actions|
    ensures Enabled(StateAt(s, actions, w), actions[w])
  {
  }

  /** The step that provisions a cross-account peering comes after the acceptance. */
  lemma ConsentBeforeStep(s: State, actions: seq<Action>, w: nat, id: Uuid)
    requires IsRun(s, actions) && w < |actions|
    requires CrossAccount(StateAt(s, actions, w + 1), id) && Provisioned(StateAt(s, actions, w + 1).peerings[id])
    requires id in StateAt(s, actions, w).peerings ==> !Provisioned(StateAt(s, actions, w).peerings[id])
    ensures Consented(s, actions, w, id, OwnerOf(StateAt(s, actions, w + 1), id))
  {
    hide Inv, IsRun, Exec, StateAt;
    var before, a := StateAt(s, actions, w), actions[w];
    EnabledAt(s, actions, w);
    RunKeepsInv(s, actions, w);
    StepAt(s, actions, w);
    if id !in before.peerings {
      NewPeeringsWait(before, a, id);
    } else {
      StepMoves(before, a, id);
      StepKeepsEnds(before, a, id);
      ConsentFirst(s, actions, w, id);
    }
  }

  /**
   * Over every run, the provisioned event of a cross-account peering is preceded in the log by an
   * accepted event, written by a step of the account that owns the accepter VPC.
   */
  lemma ConsentPrecedesProvisioning(s: State, actions: seq<Action>, n: nat, k: nat, id: Uuid)
    requires IsRun(s, actions) && n <= |actions| && k < |StateAt(s, actions, n).events|
    requires StateAt(s, actions, n).events[k] == Event(id, PeeringProvisioned)
            && CrossAccount(StateAt(s, actions, n), id)
    ensures var t := StateAt(s, actions, n);
            exists m: nat :: m < n && AcceptedAt(s, actions, m, id, OwnerOf(t, id))
              && |StateAt(s, actions, m).events| < k
              && t.events[|StateAt(s, actions, m).events|] == Event(id, PeeringAccepted)
  {
    var w := WrittenAt(s, actions, n, k);
    LogGrows(s, actions, w + 1, n);
    ProvisionedOnce(s, actions, w + 1, id);
    NotProvisionedYet(s, actions, w, k, id);
    EndsBefore(s, actions, w + 1, n, id);
    ConsentBeforeStep(s, actions, w, id);
    var owner := OwnerOf(StateAt(s, actions, n), id);
    var m: nat :| m < w && AcceptedAt(s, actions, m, id, owner);
    AcceptedEventStays(s, actions, m, w, id, owner);
    AcceptedEventStays(s, actions, m, n, id, owner);
  }

  /** Before the step that writes the one provisioned event the peering is not provisioned. */
  lemma NotProvisionedYet(s: State, actions: seq<Action>, w: nat, k: nat, id: Uuid)
    requires IsRun(s, actions) && w < |actions|
    requires |StateAt(s, actions, w).events| <= k < |StateAt(s, actions, w + 1).events|
    requires StateAt(s, actions, w + 1).events[k] == Event(id, PeeringProvisioned)
    ensures id in StateAt(s, actions, w).peerings ==> !Provisioned(StateAt(s, actions, w).peerings[id])
  {
    var before, after := StateAt(s, actions, w), StateAt(s, actions, w + 1);
    var e := Event(id, PeeringProvisioned);
    ProvisionedOnce(s, actions, w, id);
    ProvisionedOnce(s, actions, w + 1, id);
    LogGrows(s, actions, w, w + 1);
    StaysElsewhere(before.events, after.events, e, k);
  }

  lemma StaysElsewhere(before: seq<Event>, after: seq<Event>, e: Event, k: nat)
    requires before <= after && |before| <= k < |after| && after[k] == e
    ensures e in before ==> exists i :: 0 <= i < k && after[i] == e
  {
    if e in before {
      var i :| 0 <= i < |before| && before[i] == e;
      assert after[i] == e;
    }
  }

  /** The ends of a peering and their accounts are the same earlier on. */
  lemma EndsBefore(s: State, actions: seq<Action>, w: nat, n: nat, id: Uuid)
    requires IsRun(s, actions) && w <= n <= |actions| && id in StateAt(s, actions, w).peerings
            && CrossAccount(StateAt(s, actions, n), id)
    ensures CrossAccount(StateAt(s, actions, w), id)
    ensures OwnerOf(StateAt(s, actions, w), id) == OwnerOf(StateAt(s, actions, n), id)
  {
    hide Inv, Exec, Step, IsRun;
    var b := StateAt(s, actions, w);
    RunKeepsInv(s, actions, w);
    StoredWf(b, id);
    NeverLiveAgain(s, actions, w, n, id);
    VpcsStay(s, actions, w, n, b.peerings[id].requester);
    VpcsStay(s, actions, w, n, b.peerings[id].accepter);
  }
}
