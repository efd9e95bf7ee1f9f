/** The entities of the control plane (internal/model), with the fields its code reads. */
module Model {
  import opened Common
  import opened Prefixes

  datatype RoutePolicy = RoutePolicy(allowed: seq<Prefix>, denied: seq<Prefix>, maxPrefixes: int)

  const DEFAULT_POLICY := RoutePolicy([], [], 100)

  datatype VpcState = VpcActive | VpcDeleting | VpcDeleted

  datatype Vpc = Vpc(
    id: Uuid,
    account: Uuid,
    region: string,
    name: string,
    cidrs: seq<Prefix>,
    vni: nat,
    vrfName: string,
    rd: string,
    exportRT: string,
    state: VpcState,
    createdAt: int)

  datatype PeeringState =
    | PendingAcceptance | Provisioning | Active | Degraded | Deleting
    | Failed | Rejected | Expired | Deleted

  /** A direction is a string; `Update` stores any. */
  const BIDIRECTIONAL := "bidirectional"
  const REQUESTER_TO_ACCEPTER := "requester_to_accepter"
  const ACCEPTER_TO_REQUESTER := "accepter_to_requester"

  datatype Peering = Peering(
    id: Uuid,
    account: Uuid,
    requester: Uuid,
    accepter: Uuid,
    direction: string,
    state: PeeringState,
    crossRegion: bool,
    policy: RoutePolicy,
    routeCount: nat,
    createdAt: int,
    provisionedAt: Option<int>)
  {
    /** The states `FindByVPCs` and `CountByVPC` do not skip. */
    predicate Live() {
      state != Deleted && state != Rejected && state != Expired
    }

    predicate Touches(vpc: Uuid) {
      requester == vpc || accepter == vpc
    }

    /** The accepter's VPC also imports the requester's prefixes as routes. */
    predicate AlsoRequesterRoutes() {
      direction == BIDIRECTIONAL || direction == ACCEPTER_TO_REQUESTER
    }
  }

  datatype RouteOrigin = Direct | Static | Transit

  datatype RouteState = RouteActive | RouteWithdrawn | RouteFiltered

  datatype RouteEntry = RouteEntry(
    prefix: Prefix,
    originVpc: Uuid,
    peering: Uuid,
    origin: RouteOrigin,
    preference: nat,
    state: RouteState)

  function PreferenceForOrigin(origin: RouteOrigin): nat {
    match origin
    case Direct => 100
    case Static => 200
    case Transit => 300
  }

  /** Direct routes are preferred to static ones, and those to transit ones. */
  lemma PreferenceOrder()
    ensures PreferenceForOrigin(Direct) == 100 && PreferenceForOrigin(Static) == 200
            && PreferenceForOrigin(Transit) == 300
  {
  }

  datatype EventKind =
    | PeeringCreated | PeeringAccepted | PeeringProvisioned | PeeringDeleted
    | RouteAdded | RouteWithdrawnEvent | PolicyUpdated

  datatype Event = Event(peering: Uuid, kind: EventKind)

  /** The application errors of internal/model/errors.go that the modelled handlers return. */
  datatype AppError =
    | Unauthenticated | InvalidInput | InvalidCidr | PermissionDenied | NotFound
    | CidrOverlap | DuplicatePeering | HasActivePeerings | InvalidState | Conflict
    | QuotaExceeded | VniExhausted
}
