/** A run that leaves a peering open to the nil account. */
module Departure {
  import opened Common
  import opened Model
  import Bgp
  import opened Lifecycle
  import opened Invariant
  import opened Runs
  import opened Collision
  import opened Ownership

  const TENANT: Uuid := "dddddddd-0000-4000-8000-00000000000d"

  /** `A` is the tenant's, `B` the other account's. */
  ghost predicate TwoOwners(vpcs: Vpcs) {
    && vpcs.Keys == {A, B} && Plain(vpcs[A], 0) && Plain(vpcs[B], 1)
    && vpcs[A].account == TENANT && vpcs[B].account == ACCOUNT
  }

  lemma CreateTwo() returns (s: State, actions: seq<Action>, t: State)
    ensures ReachedBy(s, actions, t) && TwoOwners(t.vpcs) && t.peerings == map[]
  {
    hide Step, Creation, Exec, Plain, Enabled;
    IdsDiffer();
    s := State(map[], map[], [], [], Bgp.EMPTY_BGP, {}, map["r" := 1]);
    Started(s);
    var a0, a1 := Creation(0, A, TENANT), Creation(1, B, ACCOUNT);
    StageGrows(s, 0, A, TENANT);
    StageGrows(Step(s, a0), 1, B, ACCOUNT);
    OneMore(s, [], s, a0);
    OneMore(s, [] + [a0], Step(s, a0), a1);
    actions := [] + [a0] + [a1];
    t := Step(Step(s, a0), a1);
  }

  const ASK := DoCreatePeering(Some(TENANT), A, B, "", Absent, P, 0)
  const REJECT := DoReject(Some(ACCOUNT), P)
  const LEAVE := DoDeleteVpc(Some(TENANT), A)

  lemma Asked(s: State)
    requires TwoOwners(s.vpcs) && s.peerings == map[]
    ensures var t := Step(s, ASK);
            && Enabled(s, ASK) && t.vpcs == s.vpcs && t.peerings.Keys == {P} && t.peerings[P].id == P
            && t.peerings[P].state == PendingAcceptance && t.peerings[P].requester == A && t.peerings[P].accepter == B
  {
    OwnersDiffer();
    BlocksApart(0, 1);
    assert LiveAt(s.peerings, A) == {} && LiveAt(s.peerings, B) == {};
  }

  lemma OwnersDiffer()
    ensures A != B && TENANT != ACCOUNT && TENANT != NIL && ACCOUNT != NIL
  {
    assert A[0] != B[0] && TENANT[0] != ACCOUNT[0] && TENANT[0] != NIL[0] && ACCOUNT[0] != NIL[0];
  }

  lemma RejectedAndLeft(s: State)
    requires TwoOwners(s.vpcs) && s.peerings.Keys == {P} && s.peerings[P].id == P
    requires s.peerings[P].state == PendingAcceptance && s.peerings[P].requester == A && s.peerings[P].accepter == B
    ensures var t := Step(s, REJECT);
            && Enabled(s, REJECT) && Enabled(t, LEAVE)
            && P in Step(t, LEAVE).peerings && OpenToNil(Step(t, LEAVE), Step(t, LEAVE).peerings[P])
  {
    OwnersDiffer();
    var t := Step(s, REJECT);
    assert t.vpcs == s.vpcs && t.peerings.Keys == {P} && t.peerings[P] == s.peerings[P].(state := Rejected);
    assert LiveAt(t.peerings, A) == {};
  }

  /** Two accounts, a request, its rejection, and the requester's VPC deleted: the record is open to the nil account. */
  lemma SomePeeringIsOpenToNil()
    ensures exists s: State, id: Uuid :: Reaches(s) && id in s.peerings && !InOwnersHands(s, id)
  {
    hide Step, Exec, IsRun, TwoOwners, Enabled, OpenToNil, InOwnersHands;
    var s, two, s2 := CreateTwo();
    Asked(s2);
    OneMore(s, two, s2, ASK);
    var s3 := Step(s2, ASK);
    RejectedAndLeft(s3);
    OneMore(s, two + [ASK], s3, REJECT);
    var s4 := Step(s3, REJECT);
    OneMore(s, two + [ASK] + [REJECT], s4, LEAVE);
    var s5 := Step(s4, LEAVE);
    InOwnersHandsExactly(s5, P);
  }
}
