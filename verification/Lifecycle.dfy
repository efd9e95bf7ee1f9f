/**
 * The control plane as one state and what each handler call, provisioning and reconcile pass makes
 * of it (internal/api, internal/controller, internal/store).
 */
module Lifecycle {
  import opened Common
  import opened Prefixes
  import opened Model
  import Cidr
  import Vni
  import Bgp

  datatype State = State(
    vpcs: map<Uuid, Vpc>,
    peerings: map<Uuid, Peering>,
    events: seq<Event>,
    routes: seq<RouteEntry>,
    bgp: Bgp.BgpState,
    inUse: set<nat>,
    regions: map<string, nat>)

  const MAX_PEERINGS: nat := 125
  const MAX_NAME: nat := 128

  // Times are in nanoseconds, as Go's durations are.
  const PENDING_LIFETIME: int := 7 * 24 * 3600 * 1_000_000_000
  const RETRY_WINDOW: int := 10 * 60 * 1_000_000_000

  // ---- the stores' queries ----

  /** `Get` hides deleted VPCs. */
  function GetVpc(vpcs: map<Uuid, Vpc>, id: Uuid): Option<Vpc> {
    if id in vpcs && vpcs[id].state != VpcDeleted then Some(vpcs[id]) else None
  }

  function GetPeering(peerings: map<Uuid, Peering>, id: Uuid): Option<Peering> {
    if id in peerings && peerings[id].state != Deleted then Some(peerings[id]) else None
  }

  predicate HasName(v: Vpc, account: Uuid, region: string, name: string) {
    v.account == account && v.region == region && v.name == name && v.state != VpcDeleted
  }

  predicate NameTaken(vpcs: map<Uuid, Vpc>, account: Uuid, region: string, name: string) {
    exists id | id in vpcs :: HasName(vpcs[id], account, region, name)
  }

  predicate UsesAddresses(v: Vpc, account: Uuid, cidrs: seq<Prefix>) {
    v.account == account && v.state != VpcDeleted && Cidr.CIDRsOverlap(v.cidrs, cidrs)
  }

  predicate AddressesTaken(vpcs: map<Uuid, Vpc>, account: Uuid, cidrs: seq<Prefix>) {
    exists id | id in vpcs :: UsesAddresses(vpcs[id], account, cidrs)
  }

  predicate Joins(p: Peering, a: Uuid, b: Uuid) {
    p.Live() && ((p.requester == a && p.accepter == b) || (p.requester == b && p.accepter == a))
  }

  predicate PairTaken(peerings: map<Uuid, Peering>, a: Uuid, b: Uuid) {
    exists id | id in peerings :: Joins(peerings[id], a, b)
  }

  /** The live peerings a VPC takes part in. */
  function LiveAt(peerings: map<Uuid, Peering>, vpc: Uuid): set<Uuid> {
    set id | id in peerings && peerings[id].Live() && peerings[id].Touches(vpc)
  }

  function CountByVpc(peerings: map<Uuid, Peering>, vpc: Uuid): nat {
    |LiveAt(peerings, vpc)|
  }

  function InState(peerings: map<Uuid, Peering>, st: PeeringState): set<Uuid> {
    set id | id in peerings && peerings[id].state == st
  }

  /** A listing by state in an arbitrary map order: position `i` is the record under `ids[i]`. */
  datatype Listing = Listing(ids: seq<Uuid>, items: seq<Peering>)

  ghost predicate Lists(l: Listing, peerings: map<Uuid, Peering>, st: PeeringState) {
    && |l.ids| == |l.items| && Enumerates(l.ids, InState(peerings, st))
    && forall i | 0 <= i < |l.ids| :: l.ids[i] in peerings && l.items[i] == peerings[l.ids[i]]
  }

  // ---- the stores' writes ----

  predicate SameRoute(a: RouteEntry, b: RouteEntry) {
    a.peering == b.peering && a.prefix == b.prefix
  }

  function Upsert(routes: seq<RouteEntry>, e: RouteEntry): seq<RouteEntry> {
    if routes == [] then [e]
    else if SameRoute(routes[0], e) then [e] + routes[1..]
    else [routes[0]] + Upsert(routes[1..], e)
  }

  function UpsertAll(routes: seq<RouteEntry>, entries: seq<RouteEntry>): seq<RouteEntry> {
    if entries == [] then routes
    else Upsert(UpsertAll(routes, entries[..|entries| - 1]), entries[|entries| - 1])
  }

  function DeleteRoute(routes: seq<RouteEntry>, peering: Uuid, prefix: Prefix): seq<RouteEntry> {
    if routes == [] then []
    else if routes[0].peering == peering && routes[0].prefix == prefix then routes[1..]
    else [routes[0]] + DeleteRoute(routes[1..], peering, prefix)
  }

  /** Replacing the first entry for the place, or appending, is what `Upsert` specifies. */
  lemma {:induction false} UpsertAt(routes: seq<RouteEntry>, e: RouteEntry, i: nat)
    requires i <= |routes| && forall k | 0 <= k < i :: !SameRoute(routes[k], e)
    requires i < |routes| ==> SameRoute(routes[i], e)
    ensures Upsert(routes, e) == if i < |routes| then routes[i := e] else routes + [e]
  {
    if i > 0 {
      assert routes == [routes[0]] + routes[1..];
      UpsertAt(routes[1..], e, i - 1);
    }
  }

  lemma {:induction false} DeleteAt(routes: seq<RouteEntry>, peering: Uuid, prefix: Prefix, i: nat)
    requires i <= |routes| && forall k | 0 <= k < i :: !(routes[k].peering == peering && routes[k].prefix == prefix)
    requires i < |routes| ==> routes[i].peering == peering && routes[i].prefix == prefix
    ensures DeleteRoute(routes, peering, prefix) == if i < |routes| then routes[..i] + routes[i + 1..] else routes
  {
    if i > 0 {
      assert routes == [routes[0]] + routes[1..];
      DeleteAt(routes[1..], peering, prefix, i - 1);
    }
  }

  function PutPeering(s: State, p: Peering): State {
    s.(peerings := s.peerings[p.id := p])
  }

  /** `Update` writes only under an ID the store knows. */
  function UpdatePeeringStore(s: State, p: Peering): State {
    if p.id in s.peerings then PutPeering(s, p) else s
  }

  function Log(s: State, peering: Uuid, kind: EventKind): State {
    s.(events := s.events + [Event(peering, kind)])
  }

  // ---- VPC handlers ----

  function NewVpc(account: Uuid, region: string, name: string, cidrs: seq<Prefix>, vni: nat, id: Uuid, now: int): Vpc {
    Vpc(id, account, region, name, cidrs, vni,
        "vpc-" + id[..8],
        region + ":" + id[..8],
        "target:" + account[..8] + ":" + id[..8],
        VpcActive, now)
  }

  /**
   * VPC `Create`. `cidrs` is `None` when a block does not parse; `shard` is the account's hash
   * shard, `id` the generated UUID, `now` the clock.
   */
  function CreateVpc(s: State, caller: Option<Uuid>, region: string, name: string, cidrs: Option<seq<Prefix>>,
                     shard: nat, id: Uuid, now: int): (State, Result<Vpc, AppError>)
  {
    if caller == None then (s, Err(Unauthenticated))
    else if name == "" || |name| > MAX_NAME then (s, Err(InvalidInput))
    else if region == "" then (s, Err(InvalidInput))
    else if cidrs == None then (s, Err(InvalidCidr))
    else
      match Cidr.ValidatedBlocks(cidrs.value)
      case Err(_) => (s, Err(InvalidCidr))
      case Ok(blocks) =>
        if NameTaken(s.vpcs, caller.value, region, name) then (s, Err(Conflict))
        else if AddressesTaken(s.vpcs, caller.value, blocks) then (s, Err(CidrOverlap))
        else
          match Vni.AllocateResult(s.inUse, s.regions, region, shard)
          case Err(_) => (s, Err(VniExhausted))
          case Ok(vni) =>
            var granted := s.(inUse := s.inUse + {vni});
            var vpc := NewVpc(caller.value, region, name, blocks, vni, id, now);
            if id in s.vpcs then (granted, Err(Conflict))
            else (granted.(vpcs := s.vpcs[id := vpc]), Ok(vpc))
  }

  function DeleteVpc(s: State, caller: Option<Uuid>, id: Uuid): (State, Option<AppError>) {
    match GetVpc(s.vpcs, id)
    case None => (s, Some(NotFound))
    case Some(vpc) =>
      if caller == None then (s, Some(Unauthenticated))
      else if vpc.account != caller.value then (s, Some(PermissionDenied))
      else if CountByVpc(s.peerings, id) > 0 then (s, Some(HasActivePeerings))
      else (s.(vpcs := s.vpcs[id := s.vpcs[id].(state := VpcDeleted)], inUse := s.inUse - {vpc.vni}), None)
  }

  // ---- peering handlers ----

  datatype PolicyRequest = Absent | Unparseable | Given(policy: RoutePolicy)

  function ParsePolicy(r: PolicyRequest): Option<RoutePolicy> {
    match r
    case Absent => Some(DEFAULT_POLICY)
    case Unparseable => None
    case Given(policy) => Some(policy)
  }

  predicate IsValidDirection(d: string) {
    d == BIDIRECTIONAL || d == REQUESTER_TO_ACCEPTER || d == ACCEPTER_TO_REQUESTER
  }

  /** Everything `Create` checks before it builds the peering. */
  function CreateRefusal(s: State, caller: Option<Uuid>, requester: Uuid, accepter: Uuid, direction: string,
                         policy: PolicyRequest): Option<AppError>
  {
    if caller == None then Some(Unauthenticated)
    else if requester == accepter then Some(InvalidInput)
    else if GetVpc(s.vpcs, requester) == None then Some(NotFound)
    else if s.vpcs[requester].account != caller.value then Some(PermissionDenied)
    else if GetVpc(s.vpcs, accepter) == None then Some(NotFound)
    else if Cidr.CIDRsOverlap(s.vpcs[requester].cidrs, s.vpcs[accepter].cidrs) then Some(CidrOverlap)
    else if PairTaken(s.peerings, requester, accepter) then Some(DuplicatePeering)
    else if CountByVpc(s.peerings, requester) >= MAX_PEERINGS then Some(QuotaExceeded)
    else if CountByVpc(s.peerings, accepter) >= MAX_PEERINGS then Some(QuotaExceeded)
    else if direction != "" && !IsValidDirection(direction) then Some(InvalidInput)
    else if ParsePolicy(policy) == None then Some(InvalidCidr)
    else None
  }

  function NewPeering(s: State, requester: Uuid, accepter: Uuid, direction: string, policy: RoutePolicy,
                      id: Uuid, now: int): Peering
    requires requester in s.vpcs && accepter in s.vpcs
  {
    var r, a := s.vpcs[requester], s.vpcs[accepter];
    Peering(id, r.account, requester, accepter,
            if direction == "" then BIDIRECTIONAL else direction,
            if r.account == a.account then Provisioning else PendingAcceptance,
            r.region != a.region, policy, 0, now, None)
  }

  function CreatePeering(s: State, caller: Option<Uuid>, requester: Uuid, accepter: Uuid, direction: string,
                         policy: PolicyRequest, id: Uuid, now: int): (State, Result<Peering, AppError>)
  {
    match CreateRefusal(s, caller, requester, accepter, direction, policy)
    case Some(e) => (s, Err(e))
    case None =>
      var p := NewPeering(s, requester, accepter, direction, ParsePolicy(policy).value, id, now);
      (Log(PutPeering(s, p), id, PeeringCreated), Ok(p))
  }

  /** Accept and reject: the accepter VPC's owner, while acceptance is pending. */
  function AnswerRefusal(s: State, caller: Option<Uuid>, id: Uuid): Option<AppError> {
    if caller == None then Some(Unauthenticated)
    else
      match GetPeering(s.peerings, id)
      case None => Some(NotFound)
      case Some(p) =>
        if p.state != PendingAcceptance then Some(InvalidState)
        else
          match GetVpc(s.vpcs, p.accepter)
          case None => Some(PermissionDenied)
          case Some(a) => if a.account != caller.value then Some(PermissionDenied) else None
  }

  function AcceptPeering(s: State, caller: Option<Uuid>, id: Uuid): (State, Option<AppError>) {
    match AnswerRefusal(s, caller, id)
    case Some(e) => (s, Some(e))
    case None =>
      var p := s.peerings[id].(state := Provisioning);
      if p.id in s.peerings then (Log(PutPeering(s, p), id, PeeringAccepted), None) else (s, Some(NotFound))
  }

  function RejectPeering(s: State, caller: Option<Uuid>, id: Uuid): (State, Option<AppError>) {
    match AnswerRefusal(s, caller, id)
    case Some(e) => (s, Some(e))
    case None => (UpdatePeeringStore(s, s.peerings[id].(state := Rejected)), None)
  }

  function UpdateRefusal(s: State, caller: Option<Uuid>, id: Uuid, policy: PolicyRequest): Option<AppError> {
    if caller == None then Some(Unauthenticated)
    else
      match GetPeering(s.peerings, id)
      case None => Some(NotFound)
      case Some(p) =>
        if GetVpc(s.vpcs, p.requester) == None || s.vpcs[p.requester].account != caller.value
        then Some(PermissionDenied)
        else if p.state != Active && p.state != Provisioning then Some(InvalidState)
        else if policy == Unparseable then Some(InvalidCidr)
        else None
  }

  function Updated(p: Peering, direction: Option<string>, policy: PolicyRequest): Peering {
    p.(direction := if direction.Some? then direction.value else p.direction,
       policy := if policy.Given? then policy.policy else p.policy)
  }

  /** The new direction is stored as it comes. */
  function UpdatePeering(s: State, caller: Option<Uuid>, id: Uuid, direction: Option<string>, policy: PolicyRequest)
    : (State, Option<AppError>)
  {
    match UpdateRefusal(s, caller, id, policy)
    case Some(e) => (s, Some(e))
    case None =>
      var p := Updated(s.peerings[id], direction, policy);
      if p.id in s.peerings then (Log(PutPeering(s, p), id, PolicyUpdated), None) else (s, Some(NotFound))
  }

  /** `requirePeeringAuth`: the caller owns a side; a missing VPC counts as owned by the nil account. */
  function AccessRefusal(s: State, caller: Option<Uuid>, p: Peering): Option<AppError> {
    var r, a := GetVpc(s.vpcs, p.requester), GetVpc(s.vpcs, p.accepter);
    var rAccount := if r.Some? then r.value.account else NIL;
    var aAccount := if a.Some? then a.value.account else NIL;
    if caller == None then Some(Unauthenticated)
    else if caller.value != rAccount && caller.value != aAccount then Some(PermissionDenied)
    else None
  }

  function PeeringRefusal(s: State, caller: Option<Uuid>, id: Uuid): Option<AppError> {
    match GetPeering(s.peerings, id)
    case None => Some(NotFound)
    case Some(p) => AccessRefusal(s, caller, p)
  }

  function DeletePeering(s: State, caller: Option<Uuid>, id: Uuid): (State, Option<AppError>) {
    match PeeringRefusal(s, caller, id)
    case Some(e) => (s, Some(e))
    case None =>
      (Log(s.(peerings := s.peerings[id := s.peerings[id].(state := Deleted)]), id, PeeringDeleted), None)
  }

  datatype RouteAction = AddStatic | WithdrawRoute | UnknownRouteAction

  function StaticEntry(id: Uuid, prefix: Prefix): RouteEntry {
    RouteEntry(prefix, NIL, id, Static, PreferenceForOrigin(Static), RouteActive)
  }

  /** `OverrideRoute`; `prefix` is `None` when it does not parse. */
  function OverrideRoute(s: State, caller: Option<Uuid>, id: Uuid, action: RouteAction, prefix: Option<Prefix>)
    : (State, Option<AppError>)
  {
    match PeeringRefusal(s, caller, id)
    case Some(e) => (s, Some(e))
    case None =>
      if prefix == None then (s, Some(InvalidCidr))
      else
        match action
        case AddStatic => (Log(s.(routes := Upsert(s.routes, StaticEntry(id, prefix.value))), id, RouteAdded), None)
        case WithdrawRoute =>
          (Log(s.(routes := DeleteRoute(s.routes, id, prefix.value)), id, RouteWithdrawnEvent), None)
        case UnknownRouteAction => (s, Some(InvalidInput))
  }

  // ---- provisioning ----

  datatype ProvisionError = PeeringNotFound | WrongState | RequesterMissing | AccepterMissing | UpdateFailed

  function ProvisionRefusal(s: State, id: Uuid): Option<ProvisionError> {
    match GetPeering(s.peerings, id)
    case None => Some(PeeringNotFound)
    case Some(p) =>
      if p.state != Provisioning then Some(WrongState)
      else if GetVpc(s.vpcs, p.requester) == None then Some(RequesterMissing)
      else if GetVpc(s.vpcs, p.accepter) == None then Some(AccepterMissing)
      else None
  }

  function ConfigureBoth(b: Bgp.BgpState, r: Vpc, a: Vpc, action: Bgp.RTAction): Bgp.BgpState {
    var cs := Bgp.BuildPeeringRTConfigs(r.vrfName, a.vrfName, r.exportRT, a.exportRT, action);
    Bgp.Configured(Bgp.Configured(b, cs[0]), cs[1])
  }

  function RoutesOf(v: Vpc): seq<Bgp.Type5Route> {
    Bgp.Type5Routes(v.id, v.region, v.account, v.cidrs, v.vni)
  }

  function DirectEntry(v: Vpc, id: Uuid, cidr: Prefix): RouteEntry {
    RouteEntry(cidr, v.id, id, Direct, PreferenceForOrigin(Direct), RouteActive)
  }

  function DirectEntries(v: Vpc, id: Uuid): seq<RouteEntry> {
    seq(|v.cidrs|, i requires 0 <= i < |v.cidrs| => DirectEntry(v, id, v.cidrs[i]))
  }

  /** The BGP side of provisioning: both imports, the accepter's routes, maybe the requester's. */
  function ProvisionedBgp(b: Bgp.BgpState, p: Peering, r: Vpc, a: Vpc): Bgp.BgpState {
    var b1 := ConfigureBoth(b, r, a, Bgp.AddImport);
    var b2 := Bgp.Injected(b1, a.id, RoutesOf(a));
    if p.AlsoRequesterRoutes() then Bgp.Injected(b2, r.id, RoutesOf(r)) else b2
  }

  function ProvisionedRoutes(routes: seq<RouteEntry>, p: Peering, id: Uuid, r: Vpc, a: Vpc): seq<RouteEntry> {
    var withAccepter := UpsertAll(routes, DirectEntries(a, id));
    if p.AlsoRequesterRoutes() then UpsertAll(withAccepter, DirectEntries(r, id)) else withAccepter
  }

  function ProvisionedPeering(p: Peering, r: Vpc, a: Vpc, now: int): Peering {
    p.(state := Active,
       provisionedAt := Some(now),
       routeCount := |a.cidrs| + (if p.AlsoRequesterRoutes() then |r.cidrs| else 0))
  }

  function ProvisionPeering(s: State, id: Uuid, now: int): (State, Option<ProvisionError>) {
    match ProvisionRefusal(s, id)
    case Some(e) => (s, Some(e))
    case None =>
      var p := s.peerings[id];
      var r, a := s.vpcs[p.requester], s.vpcs[p.accepter];
      var s1 := s.(bgp := ProvisionedBgp(s.bgp, p, r, a), routes := ProvisionedRoutes(s.routes, p, id, r, a));
      if p.id in s.peerings
      then (Log(PutPeering(s1, ProvisionedPeering(p, r, a, now)), id, PeeringProvisioned), None)
      else (s1, Some(UpdateFailed))
  }

  function WithdrawAll(b: Bgp.BgpState, v: Vpc): Bgp.BgpState {
    Bgp.Withdrawn(b, v.id, Bgp.Members(v.cidrs))
  }

  function DeprovisionedBgp(b: Bgp.BgpState, r: Option<Vpc>, a: Option<Vpc>): Bgp.BgpState {
    var b1 := if a.Some? then WithdrawAll(b, a.value) else b;
    var b2 := if r.Some? then WithdrawAll(b1, r.value) else b1;
    if r.Some? && a.Some? then ConfigureBoth(b2, r.value, a.value, Bgp.RemoveImport) else b2
  }

  /** Withdraws both sides' routes and removes the imports; the peering's state stays as it is. */
  function DeprovisionPeering(s: State, id: Uuid): (State, Option<ProvisionError>) {
    match GetPeering(s.peerings, id)
    case None => (s, Some(PeeringNotFound))
    case Some(p) =>
      (s.(bgp := DeprovisionedBgp(s.bgp, GetVpc(s.vpcs, p.requester), GetVpc(s.vpcs, p.accepter))), None)
  }

  // ---- a reconcile pass ----

  datatype Report = Report(
    provisioned: nat,
    deprovisioned: nat,
    expiredPending: nat,
    failedRetries: nat,
    errors: seq<ProvisionError>)

  const EMPTY_REPORT := Report(0, 0, 0, 0, [])

  datatype Progress = Progress(state: State, report: Report)

  function ProvisionStep(g: Progress, id: Uuid, now: int): Progress {
    match ProvisionPeering(g.state, id, now)
    case (s, Some(e)) => Progress(s, g.report.(errors := g.report.errors + [e]))
    case (s, None) => Progress(s, g.report.(provisioned := g.report.provisioned + 1))
  }

  function ProvisionListed(g: Progress, items: seq<Peering>, now: int): Progress
    decreases |items|
  {
    if items == [] then g else ProvisionListed(ProvisionStep(g, items[0].id, now), items[1..], now)
  }

  function DeprovisionStep(g: Progress, id: Uuid): Progress {
    match DeprovisionPeering(g.state, id)
    case (s, Some(e)) => Progress(s, g.report.(errors := g.report.errors + [e]))
    case (s, None) => Progress(s, g.report.(deprovisioned := g.report.deprovisioned + 1))
  }

  function DeprovisionListed(g: Progress, items: seq<Peering>): Progress
    decreases |items|
  {
    if items == [] then g else DeprovisionListed(DeprovisionStep(g, items[0].id), items[1..])
  }

  function ExpireStep(g: Progress, p: Peering, now: int): Progress {
    if now - p.createdAt > PENDING_LIFETIME
    then Progress(UpdatePeeringStore(g.state, p.(state := Expired)),
                  g.report.(expiredPending := g.report.expiredPending + 1))
    else g
  }

  function ExpireListed(g: Progress, items: seq<Peering>, now: int): Progress
    decreases |items|
  {
    if items == [] then g else ExpireListed(ExpireStep(g, items[0], now), items[1..], now)
  }

  function RetryStep(g: Progress, p: Peering, now: int): Progress {
    if now - p.createdAt < RETRY_WINDOW
    then
      match ProvisionPeering(UpdatePeeringStore(g.state, p.(state := Provisioning)), p.id, now)
      case (s, Some(e)) => Progress(s, g.report.(errors := g.report.errors + [e]))
      case (s, None) => Progress(s, g.report.(failedRetries := g.report.failedRetries + 1))
    else g
  }

  function RetryListed(g: Progress, items: seq<Peering>, now: int): Progress
    decreases |items|
  {
    if items == [] then g else RetryListed(RetryStep(g, items[0], now), items[1..], now)
  }

  /** The four listings a pass takes, each from the state it then sees. */
  datatype PassOrders = PassOrders(provisioning: Listing, deleting: Listing, pending: Listing, failed: Listing)

  function AfterProvisioning(s: State, o: PassOrders, now: int): Progress {
    ProvisionListed(Progress(s, EMPTY_REPORT), o.provisioning.items, now)
  }

  function AfterDeleting(s: State, o: PassOrders, now: int): Progress {
    DeprovisionListed(AfterProvisioning(s, o, now), o.deleting.items)
  }

  function AfterExpiry(s: State, o: PassOrders, now: int): Progress {
    ExpireListed(AfterDeleting(s, o, now), o.pending.items, now)
  }

  function ReconcilePass(s: State, o: PassOrders, now: int): Progress {
    RetryListed(AfterExpiry(s, o, now), o.failed.items, now)
  }

  ghost predicate ValidPassOrders(s: State, o: PassOrders, now: int) {
    && Lists(o.provisioning, s.peerings, Provisioning)
    && Lists(o.deleting, AfterProvisioning(s, o, now).state.peerings, Deleting)
    && Lists(o.pending, AfterDeleting(s, o, now).state.peerings, PendingAcceptance)
    && Lists(o.failed, AfterExpiry(s, o, now).state.peerings, Failed)
  }
}
