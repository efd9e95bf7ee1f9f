/** The API handlers (internal/api) over the shared stores. */
module Handlers {
  import opened Common
  import opened Prefixes
  import opened Model
  import Cidr
  import Vni
  import opened Lifecycle
  import opened Stores

  class VpcHandler {
    const s: Shared

    constructor (s: Shared)
      ensures this.s == s
    {
      this.s := s;
    }

    /** Validation and the two uniqueness checks; nothing is written. */
    method CheckRequest(account: Uuid, region: string, name: string, cidrs: Option<seq<Prefix>>)
      returns (r: Result<seq<Prefix>, AppError>)
      ensures r == RequestChecked(s.View(), account, region, name, cidrs)
    {
      if name == "" || |name| > MAX_NAME {
        return Err(InvalidInput);
      }
      if region == "" {
        return Err(InvalidInput);
      }
      if cidrs == None {
        return Err(InvalidCidr);
      }
      var normalized := Cidr.ValidateCIDRBlocks(cidrs.value);
      if normalized.Err? {
        return Err(InvalidCidr);
      }
      var existing := s.vpcs.FindByName(account, region, name);
      if existing.Some? {
        return Err(Conflict);
      }
      var overlap := s.vpcs.FindOverlappingCIDR(account, normalized.value);
      if overlap.Some? {
        return Err(CidrOverlap);
      }
      return Ok(normalized.value);
    }

    method Create(caller: Option<Uuid>, region: string, name: string, cidrs: Option<seq<Prefix>>,
                  shard: nat, id: Uuid, now: int) returns (r: Result<Vpc, AppError>)
      modifies s.vpcs, s.alloc
      ensures (s.View(), r) == CreateVpc(old(s.View()), caller, region, name, cidrs, shard, id, now)
    {
      CreateAfterCheck(s.View(), caller, region, name, cidrs, shard, id, now);
      if caller == None {
        return Err(Unauthenticated);
      }
      var checked := CheckRequest(caller.value, region, name, cidrs);
      if checked.Err? {
        return Err(checked.error);
      }
      var granted := s.alloc.Allocate(region, shard);
      if granted.Err? {
        assert s.View() == old(s.View());
        return Err(VniExhausted);
      }
      var vpc := Vpc(id, caller.value, region, name, checked.value, granted.value,
                     "vpc-" + id[..8],
                     region + ":" + id[..8],
                     "target:" + caller.value[..8] + ":" + id[..8],
                     VpcActive, now);
      var ok := s.vpcs.Create(vpc);
      if !ok {
        return Err(Conflict);
      }
      return Ok(vpc);
    }

    method Delete(caller: Option<Uuid>, id: Uuid) returns (error: Option<AppError>)
      modifies s.vpcs, s.alloc
      ensures (s.View(), error) == DeleteVpc(old(s.View()), caller, id)
    {
      var vpc := s.vpcs.Get(id);
      if vpc == None {
        return Some(NotFound);
      }
      if caller == None {
        return Some(Unauthenticated);
      }
      if vpc.value.account != caller.value {
        return Some(PermissionDenied);
      }
      var count := s.peerings.CountByVPC(id);
      if count > 0 {
        return Some(HasActivePeerings);
      }
      var ok := s.vpcs.Delete(id);
      assert ok;
      s.alloc.Release(vpc.value.vni);
      return None;
    }
  }

  /** What `CheckRequest` finds. */
  function RequestChecked(s: State, account: Uuid, region: string, name: string, cidrs: Option<seq<Prefix>>)
    : Result<seq<Prefix>, AppError>
  {
    if name == "" || |name| > MAX_NAME || region == "" then Err(InvalidInput)
    else if cidrs == None then Err(InvalidCidr)
    else
      match Cidr.ValidatedBlocks(cidrs.value)
      case Err(_) => Err(InvalidCidr)
      case Ok(blocks) =>
        if NameTaken(s.vpcs, account, region, name) then Err(Conflict)
        else if AddressesTaken(s.vpcs, account, blocks) then Err(CidrOverlap)
        else Ok(blocks)
  }

  /** `CreateVpc` is the checks, then the allocation, then the insertion. */
  lemma CreateAfterCheck(s: State, caller: Option<Uuid>, region: string, name: string, cidrs: Option<seq<Prefix>>,
                         shard: nat, id: Uuid, now: int)
    ensures CreateVpc(s, caller, region, name, cidrs, shard, id, now) ==
              if caller == None then (s, Err(Unauthenticated))
              else
                match RequestChecked(s, caller.value, region, name, cidrs)
                case Err(e) => (s, Err(e))
                case Ok(blocks) =>
                  match Vni.AllocateResult(s.inUse, s.regions, region, shard)
                  case Err(_) => (s, Err(VniExhausted))
                  case Ok(vni) =>
                    var granted := s.(inUse := s.inUse + {vni});
                    var vpc := NewVpc(caller.value, region, name, blocks, vni, id, now);
                    if id in s.vpcs then (granted, Err(Conflict)) else (granted.(vpcs := s.vpcs[id := vpc]), Ok(vpc))
  {
  }

  class PeeringHandler {
    const s: Shared

    constructor (s: Shared)
      ensures this.s == s
    {
      this.s := s;
    }

    /** Everything up to the quota checks; nothing is written. */
    method CheckEnds(caller: Uuid, requesterID: Uuid, accepterID: Uuid) returns (r: Result<(Vpc, Vpc), AppError>)
      ensures r.Err? ==> CreateRefusal(s.View(), Some(caller), requesterID, accepterID, "", Absent) == Some(r.error)
      ensures r.Ok? ==> CreateRefusal(s.View(), Some(caller), requesterID, accepterID, "", Absent) == None
                        && GetVpc(s.vpcs.vpcs, requesterID) == Some(r.value.0)
                        && GetVpc(s.vpcs.vpcs, accepterID) == Some(r.value.1)
    {
      if requesterID == accepterID {
        return Err(InvalidInput);
      }
      var requester := s.vpcs.Get(requesterID);
      if requester == None {
        return Err(NotFound);
      }
      if requester.value.account != caller {
        return Err(PermissionDenied);
      }
      var accepter := s.vpcs.Get(accepterID);
      if accepter == None {
        return Err(NotFound);
      }
      if Cidr.CIDRsOverlap(requester.value.cidrs, accepter.value.cidrs) {
        return Err(CidrOverlap);
      }
      var existing := s.peerings.FindByVPCs(requesterID, accepterID);
      if existing.Some? {
        return Err(DuplicatePeering);
      }
      var reqCount := s.peerings.CountByVPC(requesterID);
      if reqCount >= MAX_PEERINGS {
        return Err(QuotaExceeded);
      }
      var accCount := s.peerings.CountByVPC(accepterID);
      if accCount >= MAX_PEERINGS {
        return Err(QuotaExceeded);
      }
      return Ok((requester.value, accepter.value));
    }

    method Create(caller: Option<Uuid>, requesterID: Uuid, accepterID: Uuid, direction: string, policy: PolicyRequest,
                  id: Uuid, now: int) returns (r: Result<Peering, AppError>)
      modifies s.peerings, s.events
      ensures (s.View(), r) == CreatePeering(old(s.View()), caller, requesterID, accepterID, direction, policy, id, now)
    {
      if caller == None {
        return Err(Unauthenticated);
      }
      var ends := CheckEnds(caller.value, requesterID, accepterID);
      RefusalByParts(s.View(), caller.value, requesterID, accepterID, direction, policy);
      if ends.Err? {
        return Err(ends.error);
      }
      var chosen := BIDIRECTIONAL;
      if direction != "" {
        chosen := direction;
        if !IsValidDirection(chosen) {
          return Err(InvalidInput);
        }
      }
      var parsed := ParsePolicy(policy);
      if parsed == None {
        return Err(InvalidCidr);
      }
      var (requester, accepter) := ends.value;
      var state := if requester.account == accepter.account then Provisioning else PendingAcceptance;
      var peering := Peering(id, caller.value, requesterID, accepterID, chosen, state,
                             requester.region != accepter.region, parsed.value, 0, now, None);
      s.peerings.Create(peering);
      s.events.Append(id, PeeringCreated);
      return Ok(peering);
    }

    /** Who may answer a request, shared by `Accept` and `Reject`. */
    method CheckAnswer(caller: Option<Uuid>, id: Uuid) returns (r: Result<Peering, AppError>)
      ensures r.Err? ==> AnswerRefusal(s.View(), caller, id) == Some(r.error)
      ensures r.Ok? ==> AnswerRefusal(s.View(), caller, id) == None && r.value == s.View().peerings[id]
    {
      if caller == None {
        return Err(Unauthenticated);
      }
      var peering := s.peerings.Get(id);
      if peering == None {
        return Err(NotFound);
      }
      if peering.value.state != PendingAcceptance {
        return Err(InvalidState);
      }
      var accepter := s.vpcs.Get(peering.value.accepter);
      if accepter == None || accepter.value.account != caller.value {
        return Err(PermissionDenied);
      }
      return Ok(peering.value);
    }

    method Accept(caller: Option<Uuid>, id: Uuid) returns (error: Option<AppError>)
      modifies s.peerings, s.events
      ensures (s.View(), error) == AcceptPeering(old(s.View()), caller, id)
    {
      var checked := CheckAnswer(caller, id);
      if checked.Err? {
        return Some(checked.error);
      }
      var ok := s.peerings.Update(checked.value.(state := Provisioning));
      if !ok {
        return Some(NotFound);
      }
      s.events.Append(id, PeeringAccepted);
      return None;
    }

    method Reject(caller: Option<Uuid>, id: Uuid) returns (error: Option<AppError>)
      modifies s.peerings
      ensures (s.View(), error) == RejectPeering(old(s.View()), caller, id)
    {
      var checked := CheckAnswer(caller, id);
      if checked.Err? {
        return Some(checked.error);
      }
      var _ := s.peerings.Update(checked.value.(state := Rejected));
      return None;
    }

    method Update(caller: Option<Uuid>, id: Uuid, direction: Option<string>, policy: PolicyRequest)
      returns (error: Option<AppError>)
      modifies s.peerings, s.events
      ensures (s.View(), error) == UpdatePeering(old(s.View()), caller, id, direction, policy)
    {
      if caller == None {
        return Some(Unauthenticated);
      }
      var found := s.peerings.Get(id);
      if found == None {
        return Some(NotFound);
      }
      var peering := found.value;
      var requester := s.vpcs.Get(peering.requester);
      if requester == None || requester.value.account != caller.value {
        return Some(PermissionDenied);
      }
      if peering.state != Active && peering.state != Provisioning {
        return Some(InvalidState);
      }
      if direction.Some? {
        peering := peering.(direction := direction.value);
      }
      if policy != Absent {
        var parsed := ParsePolicy(policy);
        if parsed == None {
          return Some(InvalidCidr);
        }
        peering := peering.(policy := parsed.value);
      }
      var ok := s.peerings.Update(peering);
      if !ok {
        return Some(NotFound);
      }
      s.events.Append(id, PolicyUpdated);
      return None;
    }

    /** `requirePeeringAuth` after finding the peering. */
    method CheckAccess(caller: Option<Uuid>, id: Uuid) returns (error: Option<AppError>)
      ensures error == PeeringRefusal(s.View(), caller, id)
    {
      var peering := s.peerings.Get(id);
      if peering == None {
        return Some(NotFound);
      }
      var requester := s.vpcs.Get(peering.value.requester);
      var accepter := s.vpcs.Get(peering.value.accepter);
      var reqAccount, accAccount := NIL, NIL;
      if requester.Some? {
        reqAccount := requester.value.account;
      }
      if accepter.Some? {
        accAccount := accepter.value.account;
      }
      if caller == None {
        return Some(Unauthenticated);
      }
      if caller.value != reqAccount && caller.value != accAccount {
        return Some(PermissionDenied);
      }
      return None;
    }

    method Delete(caller: Option<Uuid>, id: Uuid) returns (error: Option<AppError>)
      modifies s.peerings, s.events
      ensures (s.View(), error) == DeletePeering(old(s.View()), caller, id)
    {
      error := CheckAccess(caller, id);
      if error.Some? {
        return;
      }
      var ok := s.peerings.Delete(id);
      assert ok;
      s.events.Append(id, PeeringDeleted);
      return None;
    }

    method OverrideRoute(caller: Option<Uuid>, id: Uuid, action: RouteAction, prefix: Option<Prefix>)
      returns (error: Option<AppError>)
      modifies s.routes, s.events
      ensures (s.View(), error) == Lifecycle.OverrideRoute(old(s.View()), caller, id, action, prefix)
    {
      error := CheckAccess(caller, id);
      if error.Some? {
        return;
      }
      if prefix == None {
        return Some(InvalidCidr);
      }
      match action
      case AddStatic =>
        s.routes.Upsert(RouteEntry(prefix.value, NIL, id, Static, PreferenceForOrigin(Static), RouteActive));
        s.events.Append(id, RouteAdded);
      case WithdrawRoute =>
        s.routes.Delete(id, prefix.value);
        s.events.Append(id, RouteWithdrawnEvent);
      case UnknownRouteAction =>
        return Some(InvalidInput);
    }
  }

  /** The refusal of a request is that of its ends, then of its direction, then of its policy. */
  lemma RefusalByParts(s: State, caller: Uuid, requester: Uuid, accepter: Uuid, direction: string,
                       policy: PolicyRequest)
    ensures CreateRefusal(s, Some(caller), requester, accepter, direction, policy) ==
              var ends := CreateRefusal(s, Some(caller), requester, accepter, "", Absent);
              if ends.Some? then ends
              else if direction != "" && !IsValidDirection(direction) then Some(InvalidInput)
              else if ParsePolicy(policy) == None then Some(InvalidCidr)
              else None
  {
  }
}
