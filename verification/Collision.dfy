/**
 * A pass is possible in every state; and a run in which two VPCs whose UUIDs agree in their first 8
 * characters break isolation.
 */
module Collision {
  import opened Common
  import opened Prefixes
  import opened Model
  import Bgp
  import Cidr
  import Vni
  import opened Lifecycle
  import opened Invariant
  import opened Preservation
  import opened Passes
  import opened Runs
  import opened Fabric

  // ---- a reconcile pass is always possible ----

  lemma SomeListing(peerings: Peerings, st: PeeringState) returns (l: Listing)
    ensures Lists(l, peerings, st)
  {
    var ids := SomeOrder(InState(peerings, st));
    forall i | 0 <= i < |ids| ensures ids[i] in peerings { assert ids[i] in ids; }
    l := Listing(ids, seq(|ids|, i requires 0 <= i < |ids| => peerings[ids[i]]));
  }

  /** Whatever the state and the time, there are listings a pass can meet. */
  lemma PassAlwaysPossible(s: State, now: int) returns (o: PassOrders)
    ensures ValidPassOrders(s, o, now)
  {
    var none := Listing([], []);
    var l1 := SomeListing(s.peerings, Provisioning);
    o := PassOrders(l1, none, none, none);
    var l2 := SomeListing(AfterProvisioning(s, o, now).state.peerings, Deleting);
    o := PassOrders(l1, l2, none, none);
    var l3 := SomeListing(AfterDeleting(s, o, now).state.peerings, PendingAcceptance);
    o := PassOrders(l1, l2, l3, none);
    var l4 := SomeListing(AfterExpiry(s, o, now).state.peerings, Failed);
    o := PassOrders(l1, l2, l3, l4);
  }

  // ---- runs built one action at a time ----

  ghost predicate ReachedBy(s: State, actions: seq<Action>, t: State) {
    IsRun(s, actions) && StateAt(s, actions, |actions|) == t
  }

  lemma OneMore(s: State, actions: seq<Action>, t: State, a: Action)
    requires ReachedBy(s, actions, t) && Enabled(t, a)
    ensures ReachedBy(s, actions + [a], Step(t, a))
  {
    hide Enabled, Step, Init, Exec;
    var more := actions + [a];
    forall n: nat | n <= |actions| ensures StateAt(s, more, n) == StateAt(s, actions, n) {
      assert more[..n] == actions[..n];
    }
    forall n: nat | n < |more| ensures Enabled(StateAt(s, more, n), more[n]) {
      if n < |actions| { assert Enabled(StateAt(s, actions, n), actions[n]); }
    }
    StepAt(s, more, |actions|);
  }

  lemma ReachedInv(s: State, actions: seq<Action>, t: State)
    requires ReachedBy(s, actions, t)
    ensures Inv(t)
  {
    RunKeepsInv(s, actions, |actions|);
  }

  // ---- the three VPCs ----

  const ACCOUNT: Uuid := "cccccccc-0000-4000-8000-00000000000c"
  const A: Uuid := "aaaaaaaa-0000-4000-8000-00000000000a"
  const B: Uuid := "bbbbbbbb-0000-4000-8000-00000000000b"
  const O: Uuid := "bbbbbbbb-0000-4000-8000-0000000000ff"
  const P: Uuid := "eeeeeeee-0000-4000-8000-000000000001"
  const Q: Uuid := "eeeeeeee-0000-4000-8000-000000000002"

  /** 10.n.0.0/16 */
  function Block(n: nat): Prefix {
    Prefix(IPv4, 0x0A00_0000 + n * 0x1_0000, 16)
  }

  lemma BlockFacts(n: nat)
    requires n < 256
    ensures Cidr.ValidatedBlocks([Block(n)]) == Ok([Block(n)])
  {
    Pow2Values();
    var c := Block(n);
    assert c.Size() == 0x1_0000 && c.value / 0x1_0000 == 0x0A00 + n;
    assert c.Masked() == c;
    assert c.value / 0x100_0000 == 0x0A;
    assert Cidr.RFC1918_RANGES[0].Contains(c.Addr());
    assert Cidr.ValidateCIDR(c) == Ok(c);
    assert [c][..|[c]| - 1] == [] && [] + [c] == [c];
    assert Cidr.NormalizeAll([c][..|[c]| - 1]) == Ok([]);
    assert Cidr.NormalizeAll([c]) == Ok([c]);
  }

  lemma BlocksApart(n: nat, m: nat)
    requires n != m
    ensures !Cidr.CIDRsOverlap([Block(n)], [Block(m)])
  {
    Pow2Values();
    assert Block(n).value / 0x1_0000 == 0x0A00 + n;
    assert Block(m).value / 0x1_0000 == 0x0A00 + m;
  }

  lemma OneOfThreeIsFree(three: set<nat>, inUse: set<nat>) returns (v: nat)
    requires |three| == 3 && |inUse| <= 2
    ensures v in three && v !in inUse
  {
    if three <= inUse { SubsetSize(three, inUse); }
    v :| v in three && v !in inUse;
  }

  lemma FirstOfRegionOne(k: nat)
    requires k < 1024
    ensures Vni.LegalInRegion(0x10_0000 + k, 1)
  {
    Vni.InRegionMeaning(0x10_0000 + k, 1);
  }

  /** Fewer than three VNIs are in use, so region 1 has one to grant. */
  lemma RoomInRegionOne(inUse: set<nat>, regions: map<string, nat>)
    requires |inUse| <= 2 && regions == map["r" := 1]
    ensures Vni.AllocateResult(inUse, regions, "r", 0).Ok?
  {
    hide Vni.AllocateResult, Vni.LegalInRegion;
    var three: set<nat> := {0x10_0000, 0x10_0001, 0x10_0002};
    var v := OneOfThreeIsFree(three, inUse);
    FirstOfRegionOne(v - 0x10_0000);
    Vni.AllocateIsCompleteAndLowestFirst(inUse, regions, "r", 0);
    assert !Vni.AllTaken((n: nat) => Vni.LegalInRegion(n, 1), inUse);
    Vni.AllocateErrors(inUse, regions, "r", 0);
  }

  /** What the example needs to know of the state after `n` VPC creations. */
  ghost predicate Stage(s: State, n: nat) {
    && s.regions == map["r" := 1] && |s.inUse| <= n && s.peerings == map[]
    && forall id | id in s.vpcs :: exists m: nat :: m < n && Plain(s.vpcs[id], m)
  }

  /** The `m`-th VPC of the example. */
  predicate Plain(v: Vpc, m: nat) {
    v.cidrs == [Block(m)] && v.name == Name(m) && v.state == VpcActive
  }

  function Name(m: nat): string {
    seq(m + 1, i => 'v')
  }

  lemma NamesDiffer(n: nat, m: nat)
    requires n != m
    ensures Name(n) != Name(m)
  {
    assert |Name(n)| == n + 1 && |Name(m)| == m + 1;
  }

  function Creation(n: nat, id: Uuid, account: Uuid): Action {
    DoCreateVpc(Some(account), "r", Name(n), Some([Block(n)]), 0, id, 0)
  }

  lemma NothingInTheWay(s: State, n: nat, account: Uuid)
    requires Stage(s, n)
    ensures !NameTaken(s.vpcs, account, "r", Name(n)) && !AddressesTaken(s.vpcs, account, [Block(n)])
  {
    forall id | id in s.vpcs
      ensures !HasName(s.vpcs[id], account, "r", Name(n)) && !UsesAddresses(s.vpcs[id], account, [Block(n)])
    {
      var m: nat :| m < n && Plain(s.vpcs[id], m);
      NamesDiffer(n, m);
      BlocksApart(m, n);
    }
  }

  lemma CreationSucceeds(s: State, n: nat, id: Uuid, account: Uuid)
    requires Stage(s, n) && n <= 2 && id !in s.vpcs
    ensures var t := Step(s, Creation(n, id, account));
            && id in t.vpcs && t.vpcs == s.vpcs[id := t.vpcs[id]] && Plain(t.vpcs[id], n)
            && t.vpcs[id].account == account
            && t.regions == s.regions && t.peerings == s.peerings && |t.inUse| <= n + 1
  {
    hide Cidr.ValidatedBlocks, Vni.AllocateResult, NameTaken, AddressesTaken;
    BlockFacts(n);
    NothingInTheWay(s, n, account);
    RoomInRegionOne(s.inUse, s.regions);
    assert |Name(n)| == n + 1;
  }

  lemma StageGrows(s: State, n: nat, id: Uuid, account: Uuid)
    requires Stage(s, n) && n <= 2 && id !in s.vpcs
    ensures var t := Step(s, Creation(n, id, account));
            && Enabled(s, Creation(n, id, account)) && Stage(t, n + 1)
            && t.vpcs.Keys == s.vpcs.Keys + {id} && Plain(t.vpcs[id], n) && t.vpcs[id].account == account
            && forall i | i in s.vpcs :: t.vpcs[i] == s.vpcs[i]
  {
    hide Step, Plain;
    CreationSucceeds(s, n, id, account);
    var t := Step(s, Creation(n, id, account));
    forall i | i in t.vpcs ensures exists m: nat :: m < n + 1 && Plain(t.vpcs[i], m) {
      if i != id {
        var m: nat :| m < n && Plain(s.vpcs[i], m);
        assert Plain(t.vpcs[i], m);
      }
    }
  }

  lemma IdsDiffer()
    ensures A != B && B != O && A != O && P != Q && ShortId(B) == ShortId(O)
  {
    assert A[0] != B[0] && A[0] != O[0];
    assert B[34] != O[34] && P[35] != Q[35];
    assert B[..8] == O[..8];
  }

  /** Three VPCs of one account, apart in address space. */
  ghost predicate ThreeVpcs(vpcs: Vpcs) {
    && vpcs.Keys == {A, B, O} && (forall id | id in vpcs :: vpcs[id].account == ACCOUNT)
    && Plain(vpcs[A], 0) && Plain(vpcs[B], 1) && Plain(vpcs[O], 2)
  }

  lemma CreateThree() returns (s: State, actions: seq<Action>, t: State)
    ensures ReachedBy(s, actions, t) && ThreeVpcs(t.vpcs) && t.peerings == map[]
  {
    hide Step, Creation, Exec, Plain, Enabled;
    IdsDiffer();
    s := State(map[], map[], [], [], Bgp.EMPTY_BGP, {}, map["r" := 1]);
    assert Init(s);
    Started(s);
    var a0, a1, a2 := Creation(0, A, ACCOUNT), Creation(1, B, ACCOUNT), Creation(2, O, ACCOUNT);
    var t1, t2 := Step(s, a0), Step(Step(s, a0), a1);
    StageGrows(s, 0, A, ACCOUNT);
    StageGrows(t1, 1, B, ACCOUNT);
    StageGrows(t2, 2, O, ACCOUNT);
    OneMore(s, [], s, a0);
    OneMore(s, [] + [a0], t1, a1);
    OneMore(s, [] + [a0] + [a1], t2, a2);
    actions := [] + [a0] + [a1] + [a2];
    t := Step(t2, a2);
  }

  lemma Started(s: State)
    requires Init(s)
    ensures ReachedBy(s, [], s)
  {
  }

  // ---- the two peerings ----

  function Request(requester: Uuid, accepter: Uuid, id: Uuid): Action {
    DoCreatePeering(Some(ACCOUNT), requester, accepter, "", Absent, id, 0)
  }

  predicate Waiting(p: Peering, requester: Uuid, accepter: Uuid) {
    p.requester == requester && p.accepter == accepter && p.state == Provisioning
  }

  lemma FewPeerings(peerings: Peerings, vpc: Uuid)
    requires |peerings| <= 1
    ensures CountByVpc(peerings, vpc) < MAX_PEERINGS
  {
    SubsetSize(LiveAt(peerings, vpc), peerings.Keys);
  }

  lemma RequestSucceeds(s: State, requester: Uuid, accepter: Uuid, id: Uuid)
    requires requester in s.vpcs && accepter in s.vpcs && requester != accepter && |s.peerings| <= 1
    requires s.vpcs[requester].account == ACCOUNT && s.vpcs[accepter].account == ACCOUNT
    requires exists n: nat, m: nat :: n != m && Plain(s.vpcs[requester], n) && Plain(s.vpcs[accepter], m)
    requires forall i | i in s.peerings :: !Joins(s.peerings[i], requester, accepter)
    ensures var t := Step(s, Request(requester, accepter, id));
            && t.vpcs == s.vpcs && id in t.peerings && t.peerings == s.peerings[id := t.peerings[id]]
            && Waiting(t.peerings[id], requester, accepter)
  {
    var n: nat, m: nat :| n != m && Plain(s.vpcs[requester], n) && Plain(s.vpcs[accepter], m);
    BlocksApart(n, m);
    FewPeerings(s.peerings, requester);
    FewPeerings(s.peerings, accepter);
  }

  ghost predicate TwoRequests(t: State) {
    && ThreeVpcs(t.vpcs) && t.peerings.Keys == {P, Q}
    && Waiting(t.peerings[P], A, B) && Waiting(t.peerings[Q], B, O)
  }

  lemma RequestBoth(s: State)
    requires ThreeVpcs(s.vpcs) && s.peerings == map[]
    ensures var t := Step(s, Request(A, B, P));
            Enabled(s, Request(A, B, P)) && Enabled(t, Request(B, O, Q)) && TwoRequests(Step(t, Request(B, O, Q)))
  {
    hide Step, Plain, CountByVpc;
    IdsDiffer();
    RequestSucceeds(s, A, B, P);
    var t := Step(s, Request(A, B, P));
    assert t.peerings.Keys == {P};
    RequestSucceeds(t, B, O, Q);
  }

  // ---- after a pass ----

  /** `A`-`B` and `B`-`O` are active. */
  ghost predicate TwoActive(t: State) {
    && ThreeVpcs(t.vpcs) && t.peerings.Keys == {P, Q}
    && t.peerings[P].state == Active && t.peerings[P].requester == A && t.peerings[P].accepter == B
    && t.peerings[Q].state == Active && t.peerings[Q].requester == B && t.peerings[Q].accepter == O
  }

  lemma WaitingGetsProvisioned(s: State, o: PassOrders, now: int, id: Uuid)
    requires Inv(s) && ValidPassOrders(s, o, now) && id in s.peerings && s.peerings[id].state == Provisioning
    ensures var t := ReconcilePass(s, o, now).state;
            && id in t.peerings && t.peerings[id].state == Active
            && t.peerings[id].requester == s.peerings[id].requester
            && t.peerings[id].accepter == s.peerings[id].accepter
  {
    hide Inv, ReconcilePass, ValidPassOrders;
    PassMoves(s, o, now, id);
  }

  lemma PassProvisionsBoth(s: State, o: PassOrders, now: int)
    requires Inv(s) && ValidPassOrders(s, o, now) && TwoRequests(s)
    ensures TwoActive(ReconcilePass(s, o, now).state)
  {
    hide Inv, ReconcilePass, ValidPassOrders, ThreeVpcs;
    PassSettlesEverything(s, o, now);
    WaitingGetsProvisioned(s, o, now, P);
    WaitingGetsProvisioned(s, o, now, Q);
  }

  lemma NoPeeringOfTheirs(t: State)
    requires TwoActive(t)
    ensures !SharePeering(t.peerings, A, O)
  {
    IdsDiffer();
  }

  /** `A` imports what `O` advertises: `O` goes by the names of its peer `B`. */
  lemma SeesANamesake(t: State)
    requires Reaches(t) && TwoActive(t)
    ensures O in t.vpcs && Advertised(t, O, AdvertOf(t.vpcs[O], Block(2))) && Sees(t, A, AdvertOf(t.vpcs[O], Block(2)))
  {
    hide Inv, Reaches;
    ReachableInv(t);
    IdsDiffer();
    StoredWf(t, P);
    StoredWf(t, Q);
    Reachability(t, Q, Block(2));
    SeesExactly(t, A, O, AdvertOf(t.vpcs[O], Block(2)));
    StoredVpc(t, A);
    StoredVpc(t, B);
    StoredVpc(t, O);
    assert JoinsNamesakes(t.peerings[P], t.vpcs, t.vpcs[A], t.vpcs[O]);
  }

  lemma StoredVpc(t: State, id: Uuid)
    requires Inv(t) && id in t.vpcs
    ensures t.vpcs[id].id == id
  {
    assert VpcWf(t.vpcs[id], id, t.regions);
  }

  lemma ReachTwoActive() returns (s: State, actions: seq<Action>, t: State)
    ensures ReachedBy(s, actions, t) && TwoActive(t)
  {
    hide Step, Exec, IsRun, Inv, ReconcilePass, ValidPassOrders, TwoActive, TwoRequests, ThreeVpcs, Request, Enabled;
    var first, s3;
    s, first, s3 := CreateThree();
    RequestBoth(s3);
    var s4 := Step(s3, Request(A, B, P));
    var s5 := Step(s4, Request(B, O, Q));
    OneMore(s, first, s3, Request(A, B, P));
    OneMore(s, first + [Request(A, B, P)], s4, Request(B, O, Q));
    var five := first + [Request(A, B, P)] + [Request(B, O, Q)];
    ReachedInv(s, five, s5);
    var o := PassAlwaysPossible(s5, 0);
    PassIsStep(s5, o);
    OneMore(s, five, s5, DoReconcile(o, 0));
    PassProvisionsBoth(s5, o, 0);
    actions := five + [DoReconcile(o, 0)];
    t := ReconcilePass(s5, o, 0).state;
  }

  /**
   * Isolation can fail where truncated IDs coincide: a run of handler calls and one pass reaches a
   * state in which a VPC sees a route of a VPC it shares no peering with.
   */
  lemma CollisionBreaksIsolation()
    ensures exists s: State, actions: seq<Action>, t: State, r: Bgp.Type5Route ::
              ReachedBy(s, actions, t) && Advertised(t, O, r) && Sees(t, A, r) && !SharePeering(t.peerings, A, O)
  {
    hide TwoActive, IsRun, StateAt;
    var s, actions, t := ReachTwoActive();
    SeesANamesake(t);
    NoPeeringOfTheirs(t);
  }

  lemma PassIsStep(s: State, o: PassOrders)
    requires ValidPassOrders(s, o, 0)
    ensures Enabled(s, DoReconcile(o, 0)) && Step(s, DoReconcile(o, 0)) == ReconcilePass(s, o, 0).state
  {
  }
}
