/**
 * What every call and provisioning makes of a reachable state, field by field, and the error of
 * every call that is refused.
 */
module Effects {
  import opened Common
  import opened Prefixes
  import opened Model
  import Bgp
  import Cidr
  import Vni
  import opened Lifecycle
  import opened Invariant
  import opened Preservation
  import opened Runs
  import opened Provisioning
  import opened Reachable
  import opened Grants

  /** The caller's account owns the VPC, which is live. */
  predicate OwnsLive(s: State, caller: Option<Uuid>, vpc: Uuid) {
    vpc in LiveVpcs(s.vpcs) && caller == Some(s.vpcs[vpc].account)
  }

  predicate Found(s: State, id: Uuid) {
    id in s.peerings && s.peerings[id].state != Deleted
  }

  /** The state with one peering's record replaced and one event logged. */
  function Changed(s: State, id: Uuid, q: Peering, event: EventKind): State {
    s.(peerings := s.peerings[id := q], events := s.events + [Event(id, event)])
  }

  lemma StoredUnderId(s: State, id: Uuid)
    requires Reaches(s) && id in s.peerings
    ensures var p := s.peerings[id]; p.id == id && p.requester in s.vpcs && p.accepter in s.vpcs
    ensures s.peerings[id].state in LIVE_STATES ==>
              s.peerings[id].requester in LiveVpcs(s.vpcs) && s.peerings[id].accepter in LiveVpcs(s.vpcs)
  {
    hide Inv, Reaches;
    ReachableInv(s);
    StoredWf(s, id);
    LiveMeans(s.peerings[id]);
  }

  // ---- answers to a request ----

  /** Why an answer is refused. */
  function AnswerError(s: State, caller: Option<Uuid>, id: Uuid): Option<AppError> {
    if caller == None then Some(Unauthenticated)
    else if !Found(s, id) then Some(NotFound)
    else if s.peerings[id].state != PendingAcceptance then Some(InvalidState)
    else if !OwnsLive(s, caller, s.peerings[id].accepter) then Some(PermissionDenied)
    else None
  }

  /**
   * `Accept` is granted exactly to the owner of the live accepter VPC while the request is pending; it
   * then changes the state to `Provisioning` and logs that, and nothing else.
   */
  lemma AcceptEffect(s: State, caller: Option<Uuid>, id: Uuid)
    requires Reaches(s)
    ensures var (t, error) := AcceptPeering(s, caller, id);
            && error == AnswerError(s, caller, id)
            && (error == None <==> id in s.peerings && s.peerings[id].state == PendingAcceptance
                                   && OwnsLive(s, caller, s.peerings[id].accepter))
            && t == (if error.Some? then s
                     else Changed(s, id, s.peerings[id].(state := Provisioning), PeeringAccepted))
  {
    hide Reaches;
    if id in s.peerings { StoredUnderId(s, id); }
  }

  /** `Reject` is granted in the same cases; it changes the state to `Rejected` and logs nothing. */
  lemma RejectEffect(s: State, caller: Option<Uuid>, id: Uuid)
    requires Reaches(s)
    ensures var (t, error) := RejectPeering(s, caller, id);
            && error == AnswerError(s, caller, id)
            && t == (if error.Some? then s
                     else s.(peerings := s.peerings[id := s.peerings[id].(state := Rejected)]))
  {
    hide Reaches;
    if id in s.peerings { StoredUnderId(s, id); }
  }

  // ---- update ----

  function UpdateError(s: State, caller: Option<Uuid>, id: Uuid, policy: PolicyRequest): Option<AppError> {
    if caller == None then Some(Unauthenticated)
    else if !Found(s, id) then Some(NotFound)
    else if !OwnsLive(s, caller, s.peerings[id].requester) then Some(PermissionDenied)
    else if s.peerings[id].state !in {Active, Provisioning} then Some(InvalidState)
    else if policy.Unparseable? then Some(InvalidCidr)
    else None
  }

  /**
   * `Update` is granted exactly to the requester VPC's owner while the peering is active or about to be,
   * if the policy can be read; it replaces direction and policy where they are given, and nothing else.
   */
  lemma UpdateEffect(s: State, caller: Option<Uuid>, id: Uuid, direction: Option<string>, policy: PolicyRequest)
    requires Reaches(s)
    ensures var (t, error) := UpdatePeering(s, caller, id, direction, policy);
            && error == UpdateError(s, caller, id, policy)
            && (error == None <==> id in s.peerings && s.peerings[id].state in {Active, Provisioning}
                                   && OwnsLive(s, caller, s.peerings[id].requester) && !policy.Unparseable?)
            && (error.Some? ==> t == s)
            && (error == None ==>
                  && id in t.peerings && t == Changed(s, id, t.peerings[id], PolicyUpdated)
                  && t.peerings[id]
                     == s.peerings[id].(direction := t.peerings[id].direction, policy := t.peerings[id].policy)
                  && (direction.Some? ==> t.peerings[id].direction == direction.value)
                  && (direction == None ==> t.peerings[id].direction == s.peerings[id].direction)
                  && (policy.Given? ==> t.peerings[id].policy == policy.policy)
                  && (policy == Absent ==> t.peerings[id].policy == s.peerings[id].policy))
  {
    hide Reaches;
    if id in s.peerings { StoredUnderId(s, id); }
  }

  // ---- deletion and overrides ----

  /** An owner of a live end, or the nil account where an end is gone. */
  predicate HasAccess(s: State, caller: Option<Uuid>, p: Peering) {
    || OwnsLive(s, caller, p.requester) || OwnsLive(s, caller, p.accepter)
    || (caller == Some(NIL) && (p.requester !in LiveVpcs(s.vpcs) || p.accepter !in LiveVpcs(s.vpcs)))
  }

  function AccessError(s: State, caller: Option<Uuid>, id: Uuid): Option<AppError> {
    if !Found(s, id) then Some(NotFound)
    else if caller == None then Some(Unauthenticated)
    else if !HasAccess(s, caller, s.peerings[id]) then Some(PermissionDenied)
    else None
  }

  lemma AccessDecided(s: State, caller: Option<Uuid>, id: Uuid)
    ensures PeeringRefusal(s, caller, id) == AccessError(s, caller, id)
  {
  }

  /** Deletion is granted exactly with access to a peering not deleted yet; it marks the record and logs that. */
  lemma DeleteEffect(s: State, caller: Option<Uuid>, id: Uuid)
    ensures var (t, error) := DeletePeering(s, caller, id);
            && error == AccessError(s, caller, id)
            && t == (if error.Some? then s else Changed(s, id, s.peerings[id].(state := Deleted), PeeringDeleted))
  {
    AccessDecided(s, caller, id);
  }

  /** What an override does to the route store, at the position of the peering's entry for the prefix. */
  ghost predicate Overridden(before: seq<RouteEntry>, after: seq<RouteEntry>, id: Uuid, prefix: Prefix, add: bool,
                             i: nat)
  {
    var e := RouteEntry(prefix, NIL, id, Static, 200, RouteActive);
    && i <= |before| && (forall j | 0 <= j < i :: Elsewhere(before[j], id, prefix))
    && (i < |before| ==> !Elsewhere(before[i], id, prefix))
    && after == (if add then (if i < |before| then before[i := e] else before + [e])
                 else if i < |before| then before[..i] + before[i + 1..] else before)
  }

  /**
   * An override needs access, a readable prefix and a known action; it writes a static entry in place
   * or takes the entry out, and logs which.
   */
  lemma OverrideEffect(s: State, caller: Option<Uuid>, id: Uuid, action: RouteAction, prefix: Option<Prefix>)
    returns (i: nat)
    ensures var (t, error) := OverrideRoute(s, caller, id, action, prefix);
            && error == (if AccessError(s, caller, id).Some? then AccessError(s, caller, id)
                         else if prefix == None then Some(InvalidCidr)
                         else if action.UnknownRouteAction? then Some(InvalidInput)
                         else None)
            && (error.Some? ==> t == s)
            && (error == None ==>
                  && Overridden(s.routes, t.routes, id, prefix.value, action.AddStatic?, i)
                  && t == s.(routes := t.routes,
                             events := s.events + [Event(id, if action.AddStatic?
                                                             then RouteAdded else RouteWithdrawnEvent)]))
  {
    AccessDecided(s, caller, id);
    i := 0;
    if prefix.Some? {
      if action.AddStatic? {
        i := UpsertInPlace(s.routes, StaticEntry(id, prefix.value));
      } else {
        i := DeleteInPlace(s.routes, id, prefix.value);
      }
    }
  }

  // ---- VPCs ----

  ghost predicate NameUsed(s: State, account: Uuid, region: string, name: string) {
    exists v ::
      v in LiveVpcs(s.vpcs) && s.vpcs[v].account == account && s.vpcs[v].region == region && s.vpcs[v].name == name
  }

  ghost predicate AddressesUsed(s: State, account: Uuid, cidrs: seq<Prefix>) {
    exists v :: v in LiveVpcs(s.vpcs) && s.vpcs[v].account == account && Cidr.UnionsMeet(s.vpcs[v].cidrs, cidrs)
  }

  ghost predicate RoomInRegion(s: State, region: string) {
    region in s.regions && |VnisIn(s, s.regions[region]).Keys| < Vni.Capacity(s.regions[region])
  }

  /** Why the creation of a VPC is refused. */
  ghost function VpcError(s: State, caller: Option<Uuid>, region: string, name: string, cidrs: Option<seq<Prefix>>)
    : Option<AppError>
  {
    if caller == None then Some(Unauthenticated)
    else if !(1 <= |name| <= 128) || region == "" then Some(InvalidInput)
    else if cidrs == None || !UsableBlocks(cidrs.value) then Some(InvalidCidr)
    else if NameUsed(s, caller.value, region, name) then Some(Conflict)
    else if AddressesUsed(s, caller.value, cidrs.value) then Some(CidrOverlap)
    else if !RoomInRegion(s, region) then Some(VniExhausted)
    else None
  }

  lemma SearchesMean(s: State, account: Uuid, region: string, name: string, cidrs: seq<Prefix>)
    requires Reaches(s) && Cidr.ValidatedBlocks(cidrs).Ok?
    ensures NameTaken(s.vpcs, account, region, name) <==> NameUsed(s, account, region, name)
    ensures AddressesTaken(s.vpcs, account, Cidr.ValidatedBlocks(cidrs).value) <==> AddressesUsed(s, account, cidrs)
  {
    hide Inv, Reaches, Cidr.CIDRsOverlap, Cidr.UnionsMeet, Cidr.ValidatedBlocks;
    ReachableInv(s);
    var blocks := Cidr.ValidatedBlocks(cidrs).value;
    forall v | v in s.vpcs
      ensures HasName(s.vpcs[v], account, region, name) <==>
                && v in LiveVpcs(s.vpcs) && s.vpcs[v].account == account
                && s.vpcs[v].region == region && s.vpcs[v].name == name
      ensures UsesAddresses(s.vpcs[v], account, blocks) <==>
                v in LiveVpcs(s.vpcs) && s.vpcs[v].account == account && Cidr.UnionsMeet(s.vpcs[v].cidrs, cidrs)
    {
      MeetsStored(s, v, cidrs);
    }
  }

  /** The blocks a VPC stores: the requested ones with their host bits cleared. */
  ghost predicate SameBlocks(stored: seq<Prefix>, requested: seq<Prefix>) {
    && |stored| == |requested|
    && forall i | 0 <= i < |stored| ::
         stored[i] == requested[i].Masked() && stored[i].Addresses() == requested[i].Addresses()
  }

  lemma CreationInSteps(s: State, caller: Option<Uuid>, region: string, name: string, cidrs: Option<seq<Prefix>>,
                        shard: nat, id: Uuid, now: int)
    requires id !in s.vpcs
    ensures var (t, r) := CreateVpc(s, caller, region, name, cidrs, shard, id, now);
            if caller == None then (t, r) == (s, Err(Unauthenticated))
            else if !(1 <= |name| <= 128) || region == "" then (t, r) == (s, Err(InvalidInput))
            else if cidrs == None || Cidr.ValidatedBlocks(cidrs.value).Err? then (t, r) == (s, Err(InvalidCidr))
            else if NameTaken(s.vpcs, caller.value, region, name) then (t, r) == (s, Err(Conflict))
            else if AddressesTaken(s.vpcs, caller.value, Cidr.ValidatedBlocks(cidrs.value).value)
            then (t, r) == (s, Err(CidrOverlap))
            else if Vni.AllocateResult(s.inUse, s.regions, region, shard).Err? then (t, r) == (s, Err(VniExhausted))
            else
              var vni := Vni.AllocateResult(s.inUse, s.regions, region, shard).value;
              var v := Vpc(id, caller.value, region, name, Cidr.ValidatedBlocks(cidrs.value).value, vni,
                           "vpc-" + id[..8], region + ":" + id[..8], "target:" + caller.value[..8] + ":" + id[..8],
                           VpcActive, now);
              r == Ok(v) && t == s.(vpcs := s.vpcs[id := v], inUse := s.inUse + {vni})
  {
  }

  lemma BlocksKept(cidrs: seq<Prefix>)
    ensures Cidr.ValidatedBlocks(cidrs).Ok? <==> UsableBlocks(cidrs)
    ensures Cidr.ValidatedBlocks(cidrs).Ok? ==> SameBlocks(Cidr.ValidatedBlocks(cidrs).value, cidrs)
  {
    hide Cidr.ValidatedBlocks, Cidr.Acceptable;
    Cidr.ValidatedBlocksMeaning(cidrs);
    forall i | 0 <= i < |cidrs| ensures cidrs[i].Masked().Addresses() == cidrs[i].Addresses() {
      MaskedSameAddresses(cidrs[i]);
    }
  }

  lemma GrantedVni(s: State, region: string, shard: nat)
    requires Reaches(s) && shard < 1024 && Vni.AllocateResult(s.inUse, s.regions, region, shard).Ok?
    ensures var vni := Vni.AllocateResult(s.inUse, s.regions, region, shard).value;
            region in s.regions && vni !in s.inUse && Vni.LegalInRegion(vni, s.regions[region])
  {
    hide Reaches;
    ReachableInv(s);
    if region in s.regions {
      RegionIds(s, region);
      Vni.AllocateGrantsFreeLegal(s.inUse, s.regions, region, shard);
    }
  }

  /**
   * A VPC is created with the requested blocks, a free VNI of its region and names cut from its ID; it
   * is the only record added, its VNI the only one taken, and a refused request changes nothing.
   */
  lemma CreateVpcEffect(s: State, caller: Option<Uuid>, region: string, name: string, cidrs: Option<seq<Prefix>>,
                        shard: nat, id: Uuid, now: int)
    requires Reaches(s) && id !in s.vpcs && shard < 1024
    ensures var (t, r) := CreateVpc(s, caller, region, name, cidrs, shard, id, now);
            match VpcError(s, caller, region, name, cidrs)
            case Some(e) => r == Err(e) && t == s
            case None =>
              && r.Ok?
              && var v := r.value;
                 && v == Vpc(id, caller.value, region, name, v.cidrs, v.vni,
                             "vpc-" + id[..8], region + ":" + id[..8], "target:" + caller.value[..8] + ":" + id[..8],
                             VpcActive, now)
                 && SameBlocks(v.cidrs, cidrs.value)
                 && v.vni !in s.inUse && region in s.regions && Vni.LegalInRegion(v.vni, s.regions[region])
                 && t == s.(vpcs := s.vpcs[id := v], inUse := s.inUse + {v.vni})
  {
    hide Reaches, CreateVpc, NameTaken, AddressesTaken, Vni.AllocateResult, Vni.LegalInRegion, Cidr.ValidatedBlocks;
    hide NameUsed, AddressesUsed, UsableBlocks, SameBlocks;
    CreationInSteps(s, caller, region, name, cidrs, shard, id, now);
    AllocationMeansCapacity(s, region, shard);
    if cidrs.Some? {
      BlocksKept(cidrs.value);
      if caller.Some? && Cidr.ValidatedBlocks(cidrs.value).Ok? {
        SearchesMean(s, caller.value, region, name, cidrs.value);
      }
    }
    if Vni.AllocateResult(s.inUse, s.regions, region, shard).Ok? { GrantedVni(s, region, shard); }
  }

  /** Deletion needs the owner and an empty neighbourhood; it marks the record and frees its VNI. */
  lemma DeleteVpcEffect(s: State, caller: Option<Uuid>, id: Uuid)
    ensures var (t, error) := DeleteVpc(s, caller, id);
            && error == (if id !in LiveVpcs(s.vpcs) then Some(NotFound)
                         else if caller == None then Some(Unauthenticated)
                         else if caller.value != s.vpcs[id].account then Some(PermissionDenied)
                         else if Neighbours(s.peerings, id).Values != {} then Some(HasActivePeerings)
                         else None)
            && t == (if error.Some? then s
                     else s.(vpcs := s.vpcs[id := s.vpcs[id].(state := VpcDeleted)],
                             inUse := s.inUse - {s.vpcs[id].vni}))
  {
    LiveAtMeans(s.peerings, id);
    assert LiveAt(s.peerings, id) == Neighbours(s.peerings, id).Keys;
  }

  // ---- peering requests ----

  predicate Crowded(s: State, vpc: Uuid) {
    |Neighbours(s.peerings, vpc).Values| >= 125
  }

  /** Why a peering request is refused. */
  ghost function RequestError(s: State, caller: Option<Uuid>, requester: Uuid, accepter: Uuid, direction: string,
                              policy: PolicyRequest): Option<AppError>
  {
    if caller == None then Some(Unauthenticated)
    else if requester == accepter then Some(InvalidInput)
    else if requester !in LiveVpcs(s.vpcs) then Some(NotFound)
    else if s.vpcs[requester].account != caller.value then Some(PermissionDenied)
    else if accepter !in LiveVpcs(s.vpcs) then Some(NotFound)
    else if Cidr.UnionsMeet(s.vpcs[requester].cidrs, s.vpcs[accepter].cidrs) then Some(CidrOverlap)
    else if accepter in Neighbours(s.peerings, requester).Values then Some(DuplicatePeering)
    else if Crowded(s, requester) || Crowded(s, accepter) then Some(QuotaExceeded)
    else if direction !in {"", "bidirectional", "requester_to_accepter", "accepter_to_requester"}
    then Some(InvalidInput)
    else if policy.Unparseable? then Some(InvalidCidr)
    else None
  }

  lemma RequestInSteps(s: State, caller: Option<Uuid>, requester: Uuid, accepter: Uuid, direction: string,
                       policy: PolicyRequest)
    ensures CreateRefusal(s, caller, requester, accepter, direction, policy) ==
              if caller == None then Some(Unauthenticated)
              else if requester == accepter then Some(InvalidInput)
              else if requester !in LiveVpcs(s.vpcs) then Some(NotFound)
              else if s.vpcs[requester].account != caller.value then Some(PermissionDenied)
              else if accepter !in LiveVpcs(s.vpcs) then Some(NotFound)
              else if Cidr.CIDRsOverlap(s.vpcs[requester].cidrs, s.vpcs[accepter].cidrs) then Some(CidrOverlap)
              else if PairTaken(s.peerings, requester, accepter) then Some(DuplicatePeering)
              else if CountByVpc(s.peerings, requester) >= 125 || CountByVpc(s.peerings, accepter) >= 125
              then Some(QuotaExceeded)
              else if direction !in {"", "bidirectional", "requester_to_accepter", "accepter_to_requester"}
              then Some(InvalidInput)
              else if policy.Unparseable? then Some(InvalidCidr)
              else None
  {
  }

  lemma RequestRefused(s: State, caller: Option<Uuid>, requester: Uuid, accepter: Uuid, direction: string,
                       policy: PolicyRequest)
    requires Reaches(s)
    ensures CreateRefusal(s, caller, requester, accepter, direction, policy)
         == RequestError(s, caller, requester, accepter, direction, policy)
  {
    hide Inv, Reaches, CreateRefusal, Neighbours, PairTaken, CountByVpc, Cidr.CIDRsOverlap, Cidr.UnionsMeet;
    ReachableInv(s);
    RequestInSteps(s, caller, requester, accepter, direction, policy);
    if requester != accepter && requester in s.vpcs && accepter in s.vpcs {
      StoredBlocksMeet(s, requester, accepter);
      PairTakenMeansNeighbours(s.peerings, requester, accepter);
    }
    SimpleGraph(s, requester);
    SimpleGraph(s, accepter);
  }

  /**
   * A granted request adds one record, `bidirectional` and with an empty policy of at most 100 prefixes
   * where nothing is said, waiting for acceptance exactly across accounts, and logs that.
   */
  lemma RequestEffect(s: State, caller: Option<Uuid>, requester: Uuid, accepter: Uuid, direction: string,
                      policy: PolicyRequest, id: Uuid, now: int)
    requires Reaches(s)
    ensures var (t, r) := CreatePeering(s, caller, requester, accepter, direction, policy, id, now);
            match RequestError(s, caller, requester, accepter, direction, policy)
            case Some(e) => r == Err(e) && t == s
            case None =>
              && r.Ok? && t == Changed(s, id, r.value, PeeringCreated)
              && r.value == Peering(id, caller.value, requester, accepter,
                                    if direction == "" then "bidirectional" else direction,
                                    if s.vpcs[accepter].account == caller.value
                                    then Provisioning else PendingAcceptance,
                                    s.vpcs[requester].region != s.vpcs[accepter].region,
                                    if policy.Given? then policy.policy else RoutePolicy([], [], 100),
                                    0, now, None)
  {
    hide Reaches, CreateRefusal;
    RequestRefused(s, caller, requester, accepter, direction, policy);
  }

  // ---- provisioning ----

  /** One route per block, in the order of the blocks. */
  function AdvertsOf(v: Vpc): seq<Bgp.Type5Route> {
    seq(|v.cidrs|, i requires 0 <= i < |v.cidrs| => AdvertOf(v, v.cidrs[i]))
  }

  predicate SendsRequester(p: Peering) {
    p.direction == "bidirectional" || p.direction == "accepter_to_requester"
  }

  /** The active record: state, time and route count written, everything else kept. */
  function ActiveForm(p: Peering, r: Vpc, a: Vpc, now: int): Peering {
    p.(state := Active, provisionedAt := Some(now),
       routeCount := |a.cidrs| + (if SendsRequester(p) then |r.cidrs| else 0))
  }

  lemma InjectedLists(b: Bgp.BgpState, p: Peering, r: Vpc, a: Vpc, v: Uuid)
    requires r.id != a.id
    ensures At(ProvisionedBgp(b, p, r, a).routes, v)
         == At(b.routes, v)
             + (if v == a.id then AdvertsOf(a) else if v == r.id && SendsRequester(p) then AdvertsOf(r) else [])
  {
    ConfigureBothAdds(b, r, a, r.vrfName);
    assert RoutesOf(a) == AdvertsOf(a) && RoutesOf(r) == AdvertsOf(r);
    assert At(b.routes, v) + [] == At(b.routes, v);
  }

  /**
   * Provisioning a waiting peering of a reachable state: its record, one event, the accepter's routes
   * and perhaps the requester's at the end of their lists, and each end's target imported by the other.
   */
  lemma ProvisionEffect(s: State, id: Uuid, now: int)
    requires Reaches(s) && id in s.peerings && s.peerings[id].state == Provisioning
    ensures var (t, error) := ProvisionPeering(s, id, now);
            var p := s.peerings[id];
            && p.requester in s.vpcs && p.accepter in s.vpcs
            && var r, a := s.vpcs[p.requester], s.vpcs[p.accepter];
               && error == None
               && t == Changed(s, id, ActiveForm(p, r, a, now), PeeringProvisioned).(bgp := t.bgp, routes := t.routes)
               && (forall v ::
                     At(t.bgp.routes, v) == At(s.bgp.routes, v)
                       + (if v == p.accepter then AdvertsOf(a)
                          else if v == p.requester && SendsRequester(p) then AdvertsOf(r) else []))
               && (forall vrf ::
                     multiset(At(t.bgp.imports, vrf)) == multiset(At(s.bgp.imports, vrf))
                       + (if vrf == r.vrfName then multiset{a.exportRT} else multiset{})
                       + (if vrf == a.vrfName then multiset{r.exportRT} else multiset{}))
  {
    hide Inv, Reaches, ProvisionedBgp, ProvisionedRoutes, ConfigureBoth;
    ReachableInv(s);
    StoredUnderId(s, id);
    WaitingEnds(s, id);
    var p := s.peerings[id];
    var r, a := s.vpcs[p.requester], s.vpcs[p.accepter];
    ProvisionedImports(s.bgp, p, r, a);
    forall v ensures At(ProvisionedBgp(s.bgp, p, r, a).routes, v) == At(s.bgp.routes, v)
      + (if v == p.accepter then AdvertsOf(a) else if v == p.requester && SendsRequester(p) then AdvertsOf(r) else [])
    {
      InjectedLists(s.bgp, p, r, a, v);
    }
    forall vrf ensures multiset(At(ProvisionedBgp(s.bgp, p, r, a).imports, vrf)) == multiset(At(s.bgp.imports, vrf))
      + (if vrf == r.vrfName then multiset{a.exportRT} else multiset{})
      + (if vrf == a.vrfName then multiset{r.exportRT} else multiset{})
    {
      ConfigureBothAdds(s.bgp, r, a, vrf);
    }
  }

  lemma WaitingEnds(s: State, id: Uuid)
    requires Inv(s) && id in s.peerings && s.peerings[id].state == Provisioning
    ensures var p := s.peerings[id];
            && p.requester in s.vpcs && p.accepter in s.vpcs && p.requester != p.accepter
            && LiveVpc(s.vpcs[p.requester]) && LiveVpc(s.vpcs[p.accepter])
            && s.vpcs[p.requester].id == p.requester && s.vpcs[p.accepter].id == p.accepter
  {
    PeeringEnds(s, id);
    assert PeeringWf(s.peerings[id], id, s.vpcs);
  }

  /** In any state, why provisioning is refused; it then changes nothing. */
  function ProvisioningError(s: State, id: Uuid): Option<ProvisionError> {
    if !Found(s, id) then Some(PeeringNotFound)
    else if s.peerings[id].state != Provisioning then Some(WrongState)
    else if s.peerings[id].requester !in LiveVpcs(s.vpcs) then Some(RequesterMissing)
    else if s.peerings[id].accepter !in LiveVpcs(s.vpcs) then Some(AccepterMissing)
    else None
  }

  lemma ProvisionRefused(s: State, id: Uuid, now: int)
    requires id in s.peerings ==> s.peerings[id].id == id
    ensures ProvisionPeering(s, id, now).1 == ProvisioningError(s, id)
    ensures ProvisioningError(s, id) != None ==> ProvisionPeering(s, id, now).0 == s
  {
  }

  /**
   * The retry of a failed peering, in any state that has one: left alone from ten minutes of age on,
   * else provisioned and counted, or left waiting with an error when an end is missing.
   */
  lemma RetryEffect(g: Progress, p: Peering, now: int)
    requires p.id in g.state.peerings && g.state.peerings[p.id] == p && p.state == Failed
    ensures var s, q := g.state, RetryStep(g, p, now);
            if now - p.createdAt >= 600_000_000_000 then q == g
            else if p.requester !in LiveVpcs(s.vpcs) || p.accepter !in LiveVpcs(s.vpcs) then
              && q.state == s.(peerings := s.peerings[p.id := p.(state := Provisioning)])
              && q.report == g.report.(errors := g.report.errors
                   + [if p.requester !in LiveVpcs(s.vpcs) then RequesterMissing else AccepterMissing])
            else
              && q.report == g.report.(failedRetries := g.report.failedRetries + 1)
              && var active := ActiveForm(p, s.vpcs[p.requester], s.vpcs[p.accepter], now);
                 q.state == Changed(s, p.id, active, PeeringProvisioned).(bgp := q.state.bgp, routes := q.state.routes)
  {
    hide ProvisionedBgp, ProvisionedRoutes;
    var waiting := g.state.(peerings := g.state.peerings[p.id := p.(state := Provisioning)]);
    ProvisionRefused(waiting, p.id, now);
    if now - p.createdAt < 600_000_000_000 && ProvisioningError(waiting, p.id) == None {
      var r, a := g.state.vpcs[p.requester], g.state.vpcs[p.accepter];
      assert waiting.peerings[p.id := ActiveForm(p, r, a, now)] == g.state.peerings[p.id := ActiveForm(p, r, a, now)];
    }
  }

  /** Deprovisioning empties the list of every end that is found, and touches the imports only if both are. */
  lemma DeprovisionEffect(s: State, id: Uuid, v: Uuid)
    requires Reaches(s) && Found(s, id)
    ensures var (t, error) := DeprovisionPeering(s, id);
            var p := s.peerings[id];
            && error == None && t == s.(bgp := t.bgp)
            && At(t.bgp.routes, v) == (if p.Touches(v) && v in LiveVpcs(s.vpcs) then [] else At(s.bgp.routes, v))
            && (p.requester !in LiveVpcs(s.vpcs) || p.accepter !in LiveVpcs(s.vpcs) ==> t.bgp.imports == s.bgp.imports)
  {
    hide Inv, Reaches, ConfigureBoth, WithdrawAll;
    ReachableInv(s);
    PeeringEndsOf(s, id);
    var p := s.peerings[id];
    var r, a := s.vpcs[p.requester], s.vpcs[p.accepter];
    var b1 := if LiveVpc(a) then WithdrawAll(s.bgp, a) else s.bgp;
    SilencedAlone(s.bgp, a, s.vpcs, v);
    SilencedAlone(b1, r, s.vpcs, v);
    var b2 := if LiveVpc(r) then WithdrawAll(b1, r) else b1;
    ConfigureKeepsRoutes(b2, r, a);
  }

  /** A pass counts each deprovisioning once, or reports a peering that is gone. */
  lemma DeprovisionCounted(g: Progress, id: Uuid)
    ensures var q := DeprovisionStep(g, id);
            && q.state == DeprovisionPeering(g.state, id).0
            && q.report == if Found(g.state, id)
                           then g.report.(deprovisioned := g.report.deprovisioned + 1)
                           else g.report.(errors := g.report.errors + [PeeringNotFound])
  {
  }

  lemma PeeringEndsOf(s: State, id: Uuid)
    requires Inv(s) && id in s.peerings
    ensures var p := s.peerings[id];
            && p.requester in s.vpcs && p.accepter in s.vpcs && p.requester != p.accepter
            && s.vpcs[p.requester].id == p.requester && s.vpcs[p.accepter].id == p.accepter
    ensures AdvertsSound(s.bgp.routes, s.vpcs)
  {
    PeeringEnds(s, id);
  }

  lemma ConfigureKeepsRoutes(b: Bgp.BgpState, r: Vpc, a: Vpc)
    ensures ConfigureBoth(b, r, a, Bgp.RemoveImport).routes == b.routes
  {
  }

  /** Withdrawing a VPC's blocks empties its list and keeps the others sound. */
  lemma SilencedAlone(b: Bgp.BgpState, v: Vpc, vpcs: Vpcs, w: Uuid)
    requires AdvertsSound(b.routes, vpcs) && v.id in vpcs && vpcs[v.id] == v
    ensures var c := WithdrawAll(b, v);
            && At(c.routes, w) == (if w == v.id then [] else At(b.routes, w))
            && c.imports == b.imports && AdvertsSound(c.routes, vpcs)
  {
    Bgp.RemainingNone(At(b.routes, v.id), Bgp.Members(v.cidrs));
  }
}
