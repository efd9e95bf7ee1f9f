/** What one reconcile pass does to an invariant state. */
module Passes {
  import opened Common
  import opened Model
  import opened Lifecycle
  import opened Invariant
  import opened Preservation
  import opened Provisioning

  predicate DistinctIds(ids: seq<Uuid>) {
    forall i, j | 0 <= i < j < |ids| :: ids[i] != ids[j]
  }

  /** The listed records are the stored ones, in state `st`, under distinct IDs. */
  ghost predicate Current(ids: seq<Uuid>, items: seq<Peering>, peerings: Peerings, st: PeeringState) {
    && |ids| == |items| && DistinctIds(ids)
    && forall i | 0 <= i < |ids| ::
         ids[i] in peerings && items[i] == peerings[ids[i]] && items[i].id == ids[i] && items[i].state == st
  }

  lemma ListingCurrent(l: Listing, peerings: Peerings, vpcs: Vpcs, st: PeeringState)
    requires Lists(l, peerings, st) && PeeringsOk(peerings, vpcs)
    ensures Current(l.ids, l.items, peerings, st) && |l.items| == |InState(peerings, st)|
    ensures forall id :: id in l.ids <==> id in InState(peerings, st)
  {
    EnumerationLength(l.ids, InState(peerings, st));
    forall i | 0 <= i < |l.ids| ensures l.items[i].id == l.ids[i] && l.items[i].state == st {
      assert l.ids[i] in l.ids;
      assert PeeringWf(peerings[l.ids[i]], l.ids[i], vpcs);
    }
  }

  /** No reachable peering is `Deleting` or `Failed`, so those phases meet nothing. */
  lemma NothingListed(l: Listing, peerings: Peerings, vpcs: Vpcs, st: PeeringState)
    requires Lists(l, peerings, st) && PeeringsOk(peerings, vpcs) && (st == Deleting || st == Failed)
    ensures l.items == []
  {
    forall id | id in peerings ensures peerings[id].state != st {
      assert PeeringWf(peerings[id], id, vpcs);
    }
    assert InState(peerings, st) == {};
    EnumerationLength(l.ids, InState(peerings, st));
  }

  // ---- phase 1 ----

  /** Provisioning one peering touches neither VPCs nor other peerings. */
  lemma ProvisionStepEffect(g: Progress, id: Uuid, now: int)
    requires ProvisionRefusal(g.state, id) == None && g.state.peerings[id].id == id
    ensures var q := ProvisionStep(g, id, now);
            && q.state.vpcs == g.state.vpcs
            && q.report == g.report.(provisioned := g.report.provisioned + 1)
            && q.state.peerings == g.state.peerings[id := q.state.peerings[id]]
            && q.state.peerings[id].state == Active
  {
  }

  /** Exactly the peerings in `ids` have become active. */
  ghost predicate Activated(before: Peerings, after: Peerings, ids: seq<Uuid>) {
    && after.Keys == before.Keys
    && forall i | i in before :: if i in ids then after[i].state == Active else after[i] == before[i]
  }

  lemma ActivatedCons(before: Peerings, mid: Peerings, after: Peerings, ids: seq<Uuid>)
    requires ids != [] && DistinctIds(ids) && ids[0] in before && ids[0] in mid
    requires mid == before[ids[0] := mid[ids[0]]] && mid[ids[0]].state == Active
    requires Activated(mid, after, ids[1..])
    ensures Activated(before, after, ids)
  {
    assert ids == [ids[0]] + ids[1..];
  }

  /** Each listed ID can be provisioned now. */
  ghost predicate Ready(s: State, ids: seq<Uuid>, items: seq<Peering>) {
    && |ids| == |items| && DistinctIds(ids)
    && forall i | 0 <= i < |ids| ::
         items[i].id == ids[i] && ProvisionRefusal(s, ids[i]) == None && s.peerings[ids[i]].id == ids[i]
  }

  lemma ReadyRest(s: State, t: State, ids: seq<Uuid>, items: seq<Peering>)
    requires ids != [] && Ready(s, ids, items) && t.vpcs == s.vpcs && ids[0] in t.peerings
    requires t.peerings == s.peerings[ids[0] := t.peerings[ids[0]]]
    ensures Ready(t, ids[1..], items[1..])
  {
    forall i | 0 <= i < |ids[1..]|
      ensures items[1..][i].id == ids[1..][i] && ProvisionRefusal(t, ids[1..][i]) == None
              && t.peerings[ids[1..][i]].id == ids[1..][i]
    {
      assert ids[1..][i] == ids[i + 1] && items[1..][i] == items[i + 1];
      assert ProvisionRefusal(s, ids[i + 1]) == None;
    }
  }

  lemma {:induction false} ProvisionListedEffect(g: Progress, ids: seq<Uuid>, items: seq<Peering>, now: int)
    requires Ready(g.state, ids, items)
    ensures var q := ProvisionListed(g, items, now);
            && q.state.vpcs == g.state.vpcs
            && q.report == g.report.(provisioned := g.report.provisioned + |items|)
            && Activated(g.state.peerings, q.state.peerings, ids)
    decreases |items|
  {
    if items != [] {
      var id := ids[0];
      assert items[0].id == id;
      var next := ProvisionStep(g, id, now);
      ProvisionStepEffect(g, id, now);
      ReadyRest(g.state, next.state, ids, items);
      ProvisionListedEffect(next, ids[1..], items[1..], now);
      ActivatedCons(g.state.peerings, next.state.peerings, ProvisionListed(g, items, now).state.peerings, ids);
    }
  }

  lemma {:induction false} ProvisionListedKeeps(g: Progress, items: seq<Peering>, now: int)
    requires Inv(g.state)
    ensures Inv(ProvisionListed(g, items, now).state)
    decreases |items|
  {
    if items != [] {
      ProvisionKeeps(g.state, items[0].id, now);
      ProvisionListedKeeps(ProvisionStep(g, items[0].id, now), items[1..], now);
    }
  }

  lemma ListedReady(s: State, l: Listing)
    requires InvGraph(s) && Lists(l, s.peerings, Provisioning)
    ensures Ready(s, l.ids, l.items)
  {
    ListingCurrent(l, s.peerings, s.vpcs, Provisioning);
    forall i | 0 <= i < |l.ids| ensures ProvisionRefusal(s, l.ids[i]) == None {
      ProvisionCannotFail(s, l.ids[i]);
    }
  }

  // ---- phase 3 ----

  /** More than seven days old, in nanoseconds. */
  predicate Overdue(p: Peering, now: int) {
    now - p.createdAt > 604_800_000_000_000
  }

  lemma ExpireKeeps(s: State, p: Peering)
    requires Inv(s) && p.id in s.peerings && s.peerings[p.id] == p && p.state == PendingAcceptance
    ensures Inv(PutPeering(s, p.(state := Expired)))
  {
    assert PeeringWf(p, p.id, s.vpcs);
    ChangeKeeps(s, PutPeering(s, p.(state := Expired)), p.(state := Expired), PeeringDeleted);
  }

  function ExpiredIf(p: Peering, now: int): Peering {
    if Overdue(p, now) then p.(state := Expired) else p
  }

  /** Exactly the overdue peerings in `ids` have become expired. */
  ghost predicate ExpiredAmong(before: Peerings, after: Peerings, ids: seq<Uuid>, now: int) {
    && after.Keys == before.Keys
    && forall i | i in before :: after[i] == if i in ids then ExpiredIf(before[i], now) else before[i]
  }

  function CountOverdue(items: seq<Peering>, now: int): nat {
    if items == [] then 0 else (if Overdue(items[0], now) then 1 else 0) + CountOverdue(items[1..], now)
  }

  lemma CurrentRest(ids: seq<Uuid>, items: seq<Peering>, before: Peerings, after: Peerings, st: PeeringState)
    requires ids != [] && Current(ids, items, before, st) && ids[0] in after && after == before[ids[0] := after[ids[0]]]
    ensures Current(ids[1..], items[1..], after, st)
  {
    forall i | 0 <= i < |ids[1..]|
      ensures ids[1..][i] in after && items[1..][i] == after[ids[1..][i]] && items[1..][i].id == ids[1..][i]
              && items[1..][i].state == st
    {
      assert ids[1..][i] == ids[i + 1] && items[1..][i] == items[i + 1];
    }
  }

  lemma ExpiredCons(before: Peerings, mid: Peerings, after: Peerings, ids: seq<Uuid>, now: int)
    requires ids != [] && DistinctIds(ids) && ids[0] in before
    requires mid == before[ids[0] := ExpiredIf(before[ids[0]], now)]
    requires ExpiredAmong(mid, after, ids[1..], now)
    ensures ExpiredAmong(before, after, ids, now)
  {
    assert ids == [ids[0]] + ids[1..];
  }

  lemma ExpireStepEffect(g: Progress, p: Peering, now: int)
    requires p.id in g.state.peerings && g.state.peerings[p.id] == p
    ensures var q := ExpireStep(g, p, now);
            && q.state == g.state.(peerings := q.state.peerings)
            && q.state.peerings == g.state.peerings[p.id := ExpiredIf(p, now)]
            && q.report == g.report.(expiredPending := g.report.expiredPending + if Overdue(p, now) then 1 else 0)
  {
    assert g.state.peerings[p.id := p] == g.state.peerings;
  }

  lemma {:induction false} ExpireListedEffect(g: Progress, ids: seq<Uuid>, items: seq<Peering>, now: int)
    requires Current(ids, items, g.state.peerings, PendingAcceptance)
    ensures var q := ExpireListed(g, items, now);
            && q.state == g.state.(peerings := q.state.peerings)
            && q.report == g.report.(expiredPending := g.report.expiredPending + CountOverdue(items, now))
            && ExpiredAmong(g.state.peerings, q.state.peerings, ids, now)
    decreases |items|
  {
    if items != [] {
      var next := ExpireStep(g, items[0], now);
      ExpireStepEffect(g, items[0], now);
      CurrentRest(ids, items, g.state.peerings, next.state.peerings, PendingAcceptance);
      ExpireListedEffect(next, ids[1..], items[1..], now);
      ExpiredCons(g.state.peerings, next.state.peerings, ExpireListed(g, items, now).state.peerings, ids, now);
    }
  }

  lemma ExpireStepKeeps(g: Progress, p: Peering, now: int)
    requires Inv(g.state) && p.id in g.state.peerings && g.state.peerings[p.id] == p && p.state == PendingAcceptance
    ensures Inv(ExpireStep(g, p, now).state)
  {
    ExpireKeeps(g.state, p);
  }

  lemma {:induction false} ExpireListedKeeps(g: Progress, ids: seq<Uuid>, items: seq<Peering>, now: int)
    requires Inv(g.state) && Current(ids, items, g.state.peerings, PendingAcceptance)
    ensures Inv(ExpireListed(g, items, now).state)
    decreases |items|
  {
    if items != [] {
      var next := ExpireStep(g, items[0], now);
      ExpireStepEffect(g, items[0], now);
      ExpireStepKeeps(g, items[0], now);
      CurrentRest(ids, items, g.state.peerings, next.state.peerings, PendingAcceptance);
      ExpireListedKeeps(next, ids[1..], items[1..], now);
    }
  }

  ghost function OverduePending(peerings: Peerings, now: int): set<Uuid> {
    set id | id in peerings && peerings[id].state == PendingAcceptance && Overdue(peerings[id], now)
  }

  ghost function OverdueIn(ids: seq<Uuid>, items: seq<Peering>, now: int): set<Uuid>
    requires |ids| == |items|
  {
    set i | 0 <= i < |ids| && Overdue(items[i], now) :: ids[i]
  }

  lemma {:induction false} CountOverdueIsSize(ids: seq<Uuid>, items: seq<Peering>, now: int)
    requires |ids| == |items| && DistinctIds(ids)
    ensures CountOverdue(items, now) == |OverdueIn(ids, items, now)|
  {
    if items == [] {
      assert OverdueIn(ids, items, now) == {};
    } else {
      CountOverdueIsSize(ids[1..], items[1..], now);
      OverdueInCons(ids, items, now);
    }
  }

  lemma OverdueInCons(ids: seq<Uuid>, items: seq<Peering>, now: int)
    requires |ids| == |items| && ids != [] && DistinctIds(ids)
    ensures |OverdueIn(ids, items, now)|
         == |OverdueIn(ids[1..], items[1..], now)| + if Overdue(items[0], now) then 1 else 0
  {
    var all, rest := OverdueIn(ids, items, now), OverdueIn(ids[1..], items[1..], now);
    forall x ensures x in all <==> x in rest || (x == ids[0] && Overdue(items[0], now)) {
      if x in all {
        var i :| 0 <= i < |ids| && Overdue(items[i], now) && ids[i] == x;
        if i > 0 { assert Overdue(items[1..][i - 1], now) && ids[1..][i - 1] == x; }
      }
      if x in rest {
        var i :| 0 <= i < |ids[1..]| && Overdue(items[1..][i], now) && ids[1..][i] == x;
        assert Overdue(items[i + 1], now) && ids[i + 1] == x;
      }
    }
    forall i | 0 <= i < |ids[1..]| ensures ids[1..][i] != ids[0] {
      assert ids[1..][i] == ids[i + 1];
    }
    if Overdue(items[0], now) {
      assert all == rest + {ids[0]};
    } else {
      assert all == rest;
    }
  }

  // ---- the whole pass ----

  /** What a pass makes of one stored peering's state. */
  function SettledState(p: Peering, now: int): PeeringState {
    if p.state == Provisioning then Active
    else if p.state == PendingAcceptance && Overdue(p, now) then Expired
    else p.state
  }

  lemma FirstPhases(s: State, o: PassOrders, now: int)
    requires InvGraph(s) && Lists(o.provisioning, s.peerings, Provisioning)
    ensures var g := AfterProvisioning(s, o, now);
            && g.state.vpcs == s.vpcs
            && g.report == EMPTY_REPORT.(provisioned := |InState(s.peerings, Provisioning)|)
            && Activated(s.peerings, g.state.peerings, o.provisioning.ids)
  {
    ListedReady(s, o.provisioning);
    ListingCurrent(o.provisioning, s.peerings, s.vpcs, Provisioning);
    ProvisionListedEffect(Progress(s, EMPTY_REPORT), o.provisioning.ids, o.provisioning.items, now);
  }

  lemma FirstPhaseKeeps(s: State, o: PassOrders, now: int)
    requires Inv(s)
    ensures Inv(AfterProvisioning(s, o, now).state)
  {
    ProvisionListedKeeps(Progress(s, EMPTY_REPORT), o.provisioning.items, now);
  }

  /** The deprovisioning phase meets nothing. */
  lemma SecondPhase(s: State, o: PassOrders, now: int)
    requires Inv(s) && ValidPassOrders(s, o, now)
    ensures AfterDeleting(s, o, now) == AfterProvisioning(s, o, now)
  {
    FirstPhaseKeeps(s, o, now);
    var g := AfterProvisioning(s, o, now);
    NothingListed(o.deleting, g.state.peerings, g.state.vpcs, Deleting);
  }

  lemma ThirdPhase(s: State, o: PassOrders, now: int, g: Progress)
    requires InvGraph(g.state) && g == AfterDeleting(s, o, now) && Lists(o.pending, g.state.peerings, PendingAcceptance)
    ensures var e := AfterExpiry(s, o, now);
            && e.state == g.state.(peerings := e.state.peerings)
            && e.report == g.report.(expiredPending := g.report.expiredPending + CountOverdue(o.pending.items, now))
            && ExpiredAmong(g.state.peerings, e.state.peerings, o.pending.ids, now)
  {
    ListingCurrent(o.pending, g.state.peerings, g.state.vpcs, PendingAcceptance);
    ExpireListedEffect(g, o.pending.ids, o.pending.items, now);
  }

  lemma ThirdPhaseKeeps(s: State, o: PassOrders, now: int, g: Progress)
    requires Inv(g.state) && g == AfterDeleting(s, o, now) && Lists(o.pending, g.state.peerings, PendingAcceptance)
    ensures Inv(AfterExpiry(s, o, now).state)
  {
    ListingCurrent(o.pending, g.state.peerings, g.state.vpcs, PendingAcceptance);
    ExpireListedKeeps(g, o.pending.ids, o.pending.items, now);
  }

  /** The retry phase meets nothing. */
  lemma LastPhase(s: State, o: PassOrders, now: int)
    requires Inv(AfterExpiry(s, o, now).state) && Lists(o.failed, AfterExpiry(s, o, now).state.peerings, Failed)
    ensures ReconcilePass(s, o, now) == AfterExpiry(s, o, now)
  {
    var e := AfterExpiry(s, o, now).state;
    NothingListed(o.failed, e.peerings, e.vpcs, Failed);
  }

  lemma PassKeeps(s: State, o: PassOrders, now: int)
    requires Inv(s) && ValidPassOrders(s, o, now)
    ensures Inv(ReconcilePass(s, o, now).state)
    ensures ReconcilePass(s, o, now) == AfterExpiry(s, o, now)
    ensures AfterDeleting(s, o, now) == AfterProvisioning(s, o, now)
    ensures Inv(AfterProvisioning(s, o, now).state)
  {
    SecondPhase(s, o, now);
    FirstPhaseKeeps(s, o, now);
    ThirdPhaseKeeps(s, o, now, AfterDeleting(s, o, now));
    LastPhase(s, o, now);
  }

  // The two maps a pass goes through, without the rest of the state.

  ghost predicate PassMaps(before: Peerings, mid: Peerings, after: Peerings, provisioned: seq<Uuid>,
                           pending: seq<Uuid>, now: int)
  {
    && Activated(before, mid, provisioned) && ExpiredAmong(mid, after, pending, now)
    && (forall id :: id in provisioned <==> id in InState(before, Provisioning))
    && (forall id :: id in pending <==> id in InState(mid, PendingAcceptance))
  }

  lemma PassGivesMaps(s: State, o: PassOrders, now: int)
    requires Inv(s) && ValidPassOrders(s, o, now)
    ensures PassMaps(s.peerings, AfterProvisioning(s, o, now).state.peerings, ReconcilePass(s, o, now).state.peerings,
                     o.provisioning.ids, o.pending.ids, now)
  {
    PassKeeps(s, o, now);
    FirstPhases(s, o, now);
    ThirdPhase(s, o, now, AfterProvisioning(s, o, now));
    var g := AfterProvisioning(s, o, now).state;
    ListingCurrent(o.provisioning, s.peerings, s.vpcs, Provisioning);
    ListingCurrent(o.pending, g.peerings, g.vpcs, PendingAcceptance);
  }

  lemma MapsSettle(before: Peerings, mid: Peerings, after: Peerings, provisioned: seq<Uuid>, pending: seq<Uuid>,
                   now: int, id: Uuid)
    requires PassMaps(before, mid, after, provisioned, pending, now) && id in before
    ensures id in after && after[id].state == SettledState(before[id], now)
    ensures after[id].state == PendingAcceptance ==> after[id] == before[id]
    ensures (before[id].state != Provisioning && !(before[id].state == PendingAcceptance && Overdue(before[id], now)))
            ==> after[id] == before[id]
  {
    assert id in provisioned <==> id in InState(before, Provisioning);
    assert id in pending <==> id in InState(mid, PendingAcceptance);
  }

  lemma MapsOverdue(before: Peerings, mid: Peerings, after: Peerings, provisioned: seq<Uuid>, l: Listing, now: int)
    requires PassMaps(before, mid, after, provisioned, l.ids, now) && Current(l.ids, l.items, mid, PendingAcceptance)
    ensures OverdueIn(l.ids, l.items, now) == OverduePending(before, now)
  {
    forall id ensures id in OverdueIn(l.ids, l.items, now) <==> id in OverduePending(before, now) {
      assert id in provisioned <==> id in InState(before, Provisioning);
      assert id in l.ids <==> id in InState(mid, PendingAcceptance);
      if id in OverduePending(before, now) {
        var i :| 0 <= i < |l.ids| && l.ids[i] == id;
        assert Overdue(l.items[i], now);
      }
      if id in OverdueIn(l.ids, l.items, now) {
        var i :| 0 <= i < |l.ids| && Overdue(l.items[i], now) && l.ids[i] == id;
        assert id in l.ids;
      }
    }
  }

  lemma PassReport(s: State, o: PassOrders, now: int)
    requires Inv(s) && ValidPassOrders(s, o, now)
    ensures ReconcilePass(s, o, now).report
         == Report(|InState(s.peerings, Provisioning)|, 0, |OverduePending(s.peerings, now)|, 0, [])
    ensures ReconcilePass(s, o, now).state.vpcs == s.vpcs
  {
    PassKeeps(s, o, now);
    PassGivesMaps(s, o, now);
    FirstPhases(s, o, now);
    var g := AfterProvisioning(s, o, now);
    ThirdPhase(s, o, now, g);
    ListingCurrent(o.pending, g.state.peerings, g.state.vpcs, PendingAcceptance);
    CountOverdueIsSize(o.pending.ids, o.pending.items, now);
    MapsOverdue(s.peerings, g.state.peerings, ReconcilePass(s, o, now).state.peerings, o.provisioning.ids, o.pending,
                now);
  }

  /**
   * From an invariant state, in whatever order the listings come: no errors, every waiting peering
   * is provisioned and counted, every overdue request expires and is counted, the other two phases
   * meet nothing, and every other peering keeps its state.
   */
  lemma PassSettlesEverything(s: State, o: PassOrders, now: int)
    requires Inv(s) && ValidPassOrders(s, o, now)
    ensures var q := ReconcilePass(s, o, now);
            && Inv(q.state)
            && q.report == Report(|InState(s.peerings, Provisioning)|, 0, |OverduePending(s.peerings, now)|, 0, [])
            && q.state.vpcs == s.vpcs && q.state.peerings.Keys == s.peerings.Keys
            && (forall id | id in s.peerings :: q.state.peerings[id].state == SettledState(s.peerings[id], now))
            && InState(q.state.peerings, Provisioning) == {}
            && OverduePending(q.state.peerings, now) == {}
  {
    PassKeeps(s, o, now);
    PassReport(s, o, now);
    PassGivesMaps(s, o, now);
    NothingLeft(s.peerings, AfterProvisioning(s, o, now).state.peerings, ReconcilePass(s, o, now).state.peerings,
                o.provisioning.ids, o.pending.ids, now);
  }

  lemma NothingLeft(before: Peerings, mid: Peerings, after: Peerings, provisioned: seq<Uuid>, pending: seq<Uuid>,
                    now: int)
    requires PassMaps(before, mid, after, provisioned, pending, now)
    ensures after.Keys == before.Keys
    ensures forall id | id in before :: after[id].state == SettledState(before[id], now)
    ensures InState(after, Provisioning) == {} && OverduePending(after, now) == {}
  {
    forall id | id in before
      ensures after[id].state == SettledState(before[id], now)
      ensures !(after[id].state == PendingAcceptance && Overdue(after[id], now))
    {
      MapsSettle(before, mid, after, provisioned, pending, now, id);
    }
  }

  /** A second pass at the same time finds nothing to do and changes nothing. */
  lemma SecondPassIsQuiet(s: State, o1: PassOrders, o2: PassOrders, now: int)
    requires Inv(s) && ValidPassOrders(s, o1, now)
    requires ValidPassOrders(ReconcilePass(s, o1, now).state, o2, now)
    ensures var t := ReconcilePass(s, o1, now).state;
            ReconcilePass(t, o2, now) == Progress(t, EMPTY_REPORT)
  {
    PassSettlesEverything(s, o1, now);
    var t := ReconcilePass(s, o1, now).state;
    QuietPass(t, o2, now);
  }

  lemma QuietPass(t: State, o: PassOrders, now: int)
    requires Inv(t) && ValidPassOrders(t, o, now)
    requires InState(t.peerings, Provisioning) == {} && OverduePending(t.peerings, now) == {}
    ensures ReconcilePass(t, o, now) == Progress(t, EMPTY_REPORT)
  {
    PassKeeps(t, o, now);
    PassReport(t, o, now);
    ListingCurrent(o.provisioning, t.peerings, t.vpcs, Provisioning);
    assert AfterProvisioning(t, o, now) == Progress(t, EMPTY_REPORT);
    ThirdPhase(t, o, now, Progress(t, EMPTY_REPORT));
    PassGivesMaps(t, o, now);
    var q := ReconcilePass(t, o, now).state;
    NothingMoves(t.peerings, t.peerings, q.peerings, o.provisioning.ids, o.pending.ids, now);
  }

  lemma NothingMoves(before: Peerings, mid: Peerings, after: Peerings, provisioned: seq<Uuid>, pending: seq<Uuid>,
                     now: int)
    requires PassMaps(before, mid, after, provisioned, pending, now)
    requires InState(before, Provisioning) == {} && OverduePending(before, now) == {}
    ensures after == before
  {
    forall id | id in before ensures after[id] == before[id] {
      MapsSettle(before, mid, after, provisioned, pending, now, id);
      assert id !in InState(before, Provisioning) && id !in OverduePending(before, now);
    }
  }
}
