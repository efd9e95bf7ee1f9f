# A verified model of the VPC peering control plane

The system peers virtual networks (VPCs) with each other. API handlers create and delete VPCs and
peerings and answer peering requests; a controller reconciles the stored peerings with an EVPN fabric
through an in-memory BGP service; on every host an agent reconciles a table of VRFs, routes and ACLs
with a desired state. This project models those parts and proves what they keep over every run.

The shared state (the four stores, the VNI allocator, the BGP service) is one value, `Lifecycle.State`.
Each handler call and each reconcile pass is one atomic step: a function on that value which is the
specification, and a method on store objects which is proved equal to it. Everything the environment
chooses (the caller, the request, a fresh UUID, the clock, the order in which a Go map is met) is an
argument of the step, so a statement about all steps is a statement about all of those choices.

`Invariant.Inv` is inductive (`Runs.StepKeepsInv`) and `Runs.RunKeepsInv` carries it to every state of
every run. The main results require `Runs.Reaches(s)`, that some run ends in `s`, or speak of runs
directly; nothing else is assumed of the state.

| file | subject |
|---|---|
| `Common`, `Prefixes` | options, results, UUIDs; prefix arithmetic and the sets of addresses prefixes mean |
| `Cidr`, `Policy` | CIDR validation and overlap; route policy and the effective-routes fold |
| `Vni` | packed 24-bit identifiers and their allocation |
| `Netlink`, `Agent`, `AgentVrfs`, `AgentRoutes`, `AgentPass`, `AgentTargets`, `AgentAcls`, `AgentCounts`, `AgentRepair`, `AgentOrder`, `AgentTheorems`, `AgentRecords`, `AgentErrors`, `AgentSecond` | the host table and the agent's pass over it |
| `Model`, `Bgp`, `Lifecycle` | entities, the BGP service, and every step of the control plane as a function |
| `Stores`, `Handlers`, `Controller` | the same steps as objects that update stores in place |
| `Invariant`, `Preservation`, `Provisioning`, `Passes`, `Runs` | the invariant, that every step keeps it, what a pass achieves, runs |
| `History`, `Ownership`, `Fabric`, `Reachable`, `Grants`, `Effects`, `Undo` | what holds over runs and in every reachable state |
| `Collision`, `Departure`, `Teardown` | concrete runs that reach the exceptions, and what tearing a peering down takes from the others |

A pass over the listings names the order it met them in with a ghost result (`orders`), and the lemmas
about passes hold for every valid order; `Collision.PassAlwaysPossible` shows that one always exists.

## Model

| member | source | states |
|---|---|---|
| Prefixes.OverlapsIsSharing | internal/model/cidr.go:56-59 | two prefixes overlap exactly when some address lies in both, also when host bits are set |
| Prefixes.ContainsIsMembership | internal/model/cidr.go:35-42 | `Contains` is membership in the prefix's set of addresses |
| Prefixes.MaskedSameAddresses | internal/model/cidr.go:20-21 | masking keeps the set of addresses |
| Prefixes.MaskedIsCanonical | internal/model/cidr.go:20-21 | the masked form starts at the least address, and two prefixes have the same one exactly when they stand for the same addresses |
| Prefixes.ContainsBaseContainsAll | internal/model/cidr.go:35-42 | a range containing the base of a longer prefix contains all of it |
| Cidr.CIDRsOverlapMeaning | internal/model/cidr.go:44-54 | `CIDRsOverlap` holds exactly when the two unions have an address in common |
| Cidr.ValidateCIDRMeaning | internal/model/cidr.go:14-42 | a block is accepted exactly when it is IPv4, /16 to /28 and every one of its addresses is in the three private ranges, given as numbers, though only the base is tested; else the error says which of those fails first |
| Cidr.RangesArePrivateSpace | internal/model/cidr.go:8-12 | the three prefixes cover exactly 10.0.0.0 to 10.255.255.255, 172.16.0.0 to 172.31.255.255 and 192.168.0.0 to 192.168.255.255 |
| Cidr.NormalizeBlocks | internal/model/cidr.go:67-74 | the masked blocks, or the error of the first refused block |
| Cidr.CheckApart | internal/model/cidr.go:75-82 | true exactly when no two blocks overlap |
| Cidr.ValidateCIDRBlocks | internal/model/cidr.go:61-84 | the loops compute the specified validation with its order of errors |
| Cidr.ValidatedBlocksMeaning | internal/model/cidr.go:61-84 | accepted exactly when there are one to five private blocks and no address lies in two; the stored blocks stand for the same addresses |
| Cidr.ValidationErrors | internal/model/cidr.go:61-84 | a refused list has a wrong count, or the error of its first unusable block, or else two blocks with a common address |
| Cidr.UnionSize | internal/model/cidr.go:75-82 | validated blocks cover exactly the sum of 2^(32-bits) addresses |
| Policy.PrefixContainsMeaning | internal/model/policy.go:58-65 | `prefixContains` is inclusion of address sets, also for an unmasked outer prefix |
| Policy.EvaluatePrefix | internal/model/policy.go:28-56 | the loops with the `found` flag compute the specified decision |
| Policy.EvaluateMeaning | internal/model/policy.go:28-56 | when a prefix is denied and when it is accepted, said about sets of addresses and the limit |
| Policy.ListByPeering | internal/store/memory.go:318-328 | the stored routes of one peering in stored order |
| Policy.ByPeeringPicks | internal/store/memory.go:318-328 | those are exactly the entries at the positions where the peering's ID stands, in order |
| Policy.EffectiveOfPeering | internal/api/peering_handler.go:651-673 | the inner loop with its counter computes the fold over one peering's routes |
| Policy.GetEffectiveRoutes | internal/api/peering_handler.go:646-674 | active peerings' routes, each with a count of its own, concatenated in listing order |
| Policy.TableMeaning | internal/api/peering_handler.go:646-674 | the table has exactly one entry for every active listed peering and every stored route of its own that its policy does not deny, ordered by the listing and then the store; it is marked as filtered unless it is eligible and fewer than the limit of the peering's eligible routes are stored before it |
| Policy.EffectiveIsGreedy | internal/api/peering_handler.go:651-673 | the output is the routes not denied, in order; accepted are exactly the first `MaxPrefixes` eligible ones, or all if the limit is not positive |
| Policy.RaisingTheLimit | internal/api/peering_handler.go:651-673 | a higher limit only turns filtered entries into accepted ones |
| Vni.EncodeIsPositional | internal/vni/allocator.go:102-105 | within the field widths the shifts and ors are positional arithmetic |
| Vni.DecodeIsPositional | internal/vni/allocator.go:107-113 | masks and shifts are quotients and remainders, for every number |
| Vni.DecodeEncode | internal/vni/allocator.go:102-113 | decoding undoes encoding within the field widths |
| Vni.EncodeDecode | internal/vni/allocator.go:102-113 | encoding undoes decoding below 2^24 |
| Vni.EncodeMonotone | internal/vni/allocator.go:102-105 | encoding is strictly monotone in lexicographic field order, and only so |
| Vni.Allocator.RegisterRegion | internal/vni/allocator.go:35-44 | IDs over 15 are refused and change nothing |
| Vni.Allocator.Allocate | internal/vni/allocator.go:46-85 | the three nested searches return what the specification chooses and mark exactly that VNI |
| Vni.Allocator.Release | internal/vni/allocator.go:87-93 | exactly the released VNI becomes free |
| Vni.AllocateIsCompleteAndLowestFirst | internal/vni/allocator.go:46-85 | the smallest free legal VNI of the tenant shard, else of the region; a known region fails exactly when all its legal VNIs are taken |
| Vni.RegionCapacity | internal/vni/allocator.go:13-19 | 1044480 legal VNIs in region 0, 1048576 in regions 1 to 14, 271360 in region 15 |
| Vni.BoundsCutAtShards | internal/vni/allocator.go:59-67 | both reserved bounds fall on shard boundaries |
| Netlink.InMemoryNetlink.CreateVRF | internal/agent/netlink.go:75-84 | refuses an existing name, else adds the VRF |
| Netlink.InMemoryNetlink.DeleteVRF | internal/agent/netlink.go:86-97 | refuses an unknown name, else removes the VRF with its routes and ACLs |
| Netlink.InMemoryNetlink.AddRoute | internal/agent/netlink.go:99-114 | refuses an unknown VRF and a duplicate prefix, else appends |
| Netlink.InMemoryNetlink.DeleteRoute | internal/agent/netlink.go:116-128 | removes the first route with the prefix in place, or refuses |
| Netlink.InMemoryNetlink.ListRoutes | internal/agent/netlink.go:130-137 | a copy of the VRF's list |
| Netlink.InMemoryNetlink.ProgramACL | internal/agent/netlink.go:139-154 | replaces the peering's ACL and moves it to the end |
| Netlink.InMemoryNetlink.ClearACL | internal/agent/netlink.go:156-169 | keeps exactly the other peerings' ACLs, in order |
| Netlink.InMemoryNetlink.ListVRFs | internal/agent/netlink.go:171-180 | every VRF once, in some order |
| Netlink.VrfOpsMeaning | internal/agent/netlink.go:75-97 | creating stores the given record as it is, deleting takes the name out of all three maps, and the two errors |
| Netlink.AddRouteMeaning | internal/agent/netlink.go:99-114 | which of the two errors an addition has; else the route comes last in its VRF's list |
| Netlink.DeleteRouteMeaning | internal/agent/netlink.go:116-128 | the first route with the prefix leaves and the others keep their order |
| Netlink.DeleteRouteRefused | internal/agent/netlink.go:127 | where no route has the prefix the deletion is refused and changes nothing |
| Netlink.AclOpsMeaning | internal/agent/netlink.go:139-169 | both ACL operations keep exactly the other peerings' entries in order; programming puts the new one last |
| Netlink.OpKeepsInv | internal/agent/netlink.go:75-169 | each operation keeps: routes only under existing VRFs and under their own name, prefixes unique per VRF, peering IDs unique per ACL list |
| Netlink.ReachableHostInv | internal/agent/netlink.go:67-169 | those facts hold after every sequence of operations on an empty table |
| Netlink.ReachableExactly | internal/agent/netlink.go:67-169 | the tables that satisfy those facts are exactly the ones some sequence of operations leaves |
| Netlink.AddRouteRefinesMap | internal/agent/netlink.go:99-114 | read as a map from prefix to route, adding inserts a new key and is refused for an old one |
| Netlink.DeleteRouteRefinesMap | internal/agent/netlink.go:116-128 | read as that map, deleting removes a key and is refused when it is absent |
| Netlink.AclListRefinesMap | internal/agent/netlink.go:139-169 | read as a map from peering to ACL, programming sets a key and clearing removes one |
| Agent.Reconciler.SetDesiredState | internal/agent/reconciler.go:40-45 | replaces the desired state |
| Agent.Reconciler.AddDesiredVRF | internal/agent/reconciler.go:47-52 | appends one VRF and changes nothing else |
| Agent.Reconciler.AddDesiredRoutes | internal/agent/reconciler.go:54-59 | appends to one VRF's list, leaving the others |
| Agent.Reconciler.RepairVrfs | internal/agent/reconciler.go:128-155 | the two VRF loops over the host table with their counters |
| Agent.Reconciler.RepairRoutes | internal/agent/reconciler.go:159-186 | the two route loops of one VRF |
| Agent.Reconciler.ProgramAcls | internal/agent/reconciler.go:191-197 | the inner ACL loop |
| Agent.Reconciler.Reconcile | internal/agent/reconciler.go:121-212 | a pass over the host object is the specified pass in the orders it met the maps in |
| AgentRepair.PassRepairsDrift | internal/agent/reconciler.go:121-187 | from any table operations can reach, in any map order and for every well-targeted desired state: VRF names become exactly the desired ones, each new VRF is the first desired entry of its name, listed VRFs hold exactly the desired prefixes, surviving VRFs and unlisted route lists are untouched |
| AgentRepair.RepairsExactlyWhenWellTargeted | internal/agent/reconciler.go:157-187 | a pass repairs every table in every order exactly when the desired state is well targeted: each route naming a desired VRF is for a prefix of that VRF's own list, and each listed prefix is named for its VRF by that list or by one under a name that is no desired VRF |
| AgentRepair.KeyedIsWellTargeted | internal/agent/reconciler.go:54-59 | lists whose routes all name their key are well targeted |
| AgentCounts.RepairAllConserves | internal/agent/reconciler.go:166-186 | over the whole route loop each counted addition takes one pair off the routes to add, each counted removal one off the routes to remove |
| AgentTheorems.PassCounts | internal/agent/reconciler.go:121-199 | for well-targeted desired states the four VRF and route counters are the sizes of the set differences, and the ACL counter is the number of desired ACL entries |
| AgentRecords.PassRouteRecords | internal/agent/reconciler.go:157-187 | for every desired state a VRF's list becomes its old records, in order, without the prefixes its own desired list lacks, then records taken unchanged from desired lists that name it |
| AgentRecords.KeyedRouteRecords | internal/agent/reconciler.go:157-187 | for keyed lists the new records are exactly the first desired entry of each prefix that was not there, in order |
| AgentRecords.ErrorsAreExplained | internal/agent/reconciler.go:136-186 | every error is a desired VRF name that exists, a listed route for a VRF that is not desired, or a listed prefix its VRF already has; no deletion fails |
| AgentTheorems.PassErrors | internal/agent/reconciler.go:136-186 | for keyed route lists no errors exactly when no missing VRF name or prefix is listed twice and every nonempty list belongs to a desired VRF |
| AgentErrors.NeverAnErrorExactlyWhenClean | internal/agent/reconciler.go:136-186 | no table and no map order gives a pass an error exactly when desired VRF names do not repeat and every nonempty route list is keyed by a desired VRF and repeats no prefix |
| AgentTheorems.PassAcls | internal/agent/reconciler.go:189-199 | for every desired state each ACL list becomes the kept entries of other peerings, then the last config met per peering in last-occurrence order |
| AgentTheorems.AclsIgnoreOrderExactlyWhenNested | internal/agent/reconciler.go:189-199 | the ACL lists are the same in any two map orders, on every table, exactly when for each VRF the last configs that any two keys list are nested: one is a suffix of the other |
| AgentTheorems.KeyedIsNested | internal/agent/reconciler.go:189-199 | lists whose configs all name their key are nested |
| AgentOrder.PassOutcome | internal/agent/reconciler.go:157-187 | where no route strays to a VRF whose list lacks its prefix and no lists race, which prefixes every VRF ends with: those its list allows that were there or that some list brings whose own VRF lacked them at the start |
| AgentOrder.WellTargetedIsOrderFree | internal/agent/reconciler.go:157-187 | well-targeted lists neither stray nor race |
| AgentOrder.PrefixesIgnoreOrderExactlyWhenOrderFree | internal/agent/reconciler.go:157-187 | the prefixes left are the same in any two map orders, on every table, exactly when no route strays to a listed VRF and no list races another: a list j names a prefix for VRF k whose list passes it on to v, while j does not name it for v and nothing else is sure to |
| AgentTheorems.PassIgnoresMapOrder | internal/agent/reconciler.go:157-199 | under that condition and with nested ACLs the VRFs, each VRF's prefixes and each ACL list do not depend on map iteration order; for keyed routes neither does the order within a route list |
| AgentTheorems.IgnoresMapOrderExactly | internal/agent/reconciler.go:121-199 | for every desired state: VRFs, prefixes and ACL lists are the same in any two map orders, on every table, exactly under those two conditions |
| AgentSecond.SecondPassTakesOver | internal/agent/reconciler.go:189-199 | for every desired state the ACL lists after a second pass are those its own map order alone would have given |
| AgentSecond.SecondPassChangesNothing | internal/agent/reconciler.go:121-212 | where no route strays to a VRF whose list lacks its prefix and ACLs are nested, a second pass without drift changes and counts nothing, even with repeats in the desired lists; it has an error exactly when a listed prefix is not under its key, which for well-targeted lists means a nonempty list under a name that is no desired VRF |
| AgentSecond.SecondPassStillExactly | internal/agent/reconciler.go:121-212 | a second pass leaves every table as it is, in any map orders, exactly under those two conditions |
| AgentTheorems.MisKeyedListIsNotRepaired | internal/agent/reconciler.go:158-175 | a concrete desired state that is not well targeted and a pass that leaves a listed VRF without its prefix |
| AgentTheorems.MisKeyedAclsDependOnOrder | internal/agent/reconciler.go:189-199 | a concrete pair of lists that are not nested: the map order decides which ACL stays |
| Bgp.BuildType5Routes | internal/bgp/evpn.go:19-37 | one route per block with the truncated RD and target |
| Bgp.InMemoryService.ConfigureRT | internal/bgp/service.go:127-148 | appends a target, removes its first occurrence, or refuses an unknown action and changes nothing |
| Bgp.InMemoryService.InjectRoutes | internal/bgp/service.go:150-170 | appends to the VPC's advertised list |
| Bgp.InMemoryService.WithdrawRoutes | internal/bgp/service.go:172-196 | keeps exactly the routes with other prefixes in order; the count and what remains make up the old list |
| Bgp.RemainingPicks | internal/bgp/service.go:172-196 | what remains after a withdrawal are exactly the routes at the positions with other prefixes, in order |
| Bgp.ImportsInOrder | internal/bgp/service.go:127-148 | an added import comes last, the first occurrence of a removed one leaves, the others keep their order |
| Bgp.ImportUndo | internal/bgp/service.go:131-142 | removing an import after adding it restores the multiset |
| Stores.VpcStore.Create | internal/store/memory.go:24-33 | refuses an ID already stored |
| Stores.VpcStore.Get | internal/store/memory.go:35-44 | deleted VPCs are not found |
| Stores.VpcStore.Delete | internal/store/memory.go:73-84 | marks the record deleted and keeps it |
| Stores.VpcStore.FindOverlappingCIDR | internal/store/memory.go:86-99 | finds a live VPC of the account meeting the blocks exactly when one exists |
| Stores.VpcStore.FindByName | internal/store/memory.go:101-111 | finds a live VPC with the name exactly when one exists |
| Stores.PeeringStore.Create | internal/store/memory.go:123-129 | stores under the record's own ID |
| Stores.PeeringStore.Get | internal/store/memory.go:131-140 | deleted peerings are not found |
| Stores.PeeringStore.Update | internal/store/memory.go:176-185 | refuses an unknown ID |
| Stores.PeeringStore.Delete | internal/store/memory.go:187-198 | marks the record deleted and keeps it |
| Stores.PeeringStore.FindByVPCs | internal/store/memory.go:200-214 | finds a live peering of the unordered pair exactly when one exists |
| Stores.PeeringStore.CountByVPC | internal/store/memory.go:216-229 | the number of live peerings with that VPC on a side |
| Stores.PeeringStore.ListByState | internal/store/memory.go:231-241 | every record in the state once, in some order |
| Stores.EventStore.Append | internal/store/memory.go:253-258 | the log grows by one event |
| Stores.RouteStore.Upsert | internal/store/memory.go:293-304 | replaces the first entry with the same peering and prefix in place, or appends |
| Stores.RouteStore.Delete | internal/store/memory.go:306-316 | removes the first entry with the peering and prefix, if there is one |
| Preservation.UpsertMembers | internal/store/memory.go:293-304 | where peering and prefix identify an entry, `Upsert` keeps it so: the new entry and every entry it does not replace |
| Preservation.DeleteRouteMembers | internal/store/memory.go:306-316 | where peering and prefix identify an entry, `Delete` removes exactly that entry |
| Preservation.UpsertInPlace | internal/store/memory.go:293-304 | for any list: the first entry of the peering and prefix is replaced where it stands, else the entry comes last |
| Preservation.DeleteInPlace | internal/store/memory.go:306-316 | for any list: the first entry of the peering and prefix leaves and the others keep their order |
| Handlers.VpcHandler.CheckRequest | internal/api/vpc_handler.go:79-126 | the checks and searches before allocation, in order |
| Handlers.VpcHandler.Create | internal/api/vpc_handler.go:65-156 | result and whole new state; a VNI granted before a failed insertion stays taken |
| Handlers.VpcHandler.Delete | internal/api/vpc_handler.go:199-226 | refused while live peerings exist; else the record is marked and its VNI released |
| Handlers.PeeringHandler.CheckEnds | internal/api/peering_handler.go:189-247 | ownership, overlap, duplicate and quota checks in order |
| Handlers.PeeringHandler.Create | internal/api/peering_handler.go:165-300 | result and whole new state of a request |
| Handlers.PeeringHandler.CheckAnswer | internal/api/peering_handler.go:457-480 | only the accepter VPC's owner may answer, and only while the request is pending |
| Handlers.PeeringHandler.Accept | internal/api/peering_handler.go:457-491 | result and whole new state |
| Handlers.PeeringHandler.Reject | internal/api/peering_handler.go:493-522 | result and whole new state |
| Handlers.PeeringHandler.Update | internal/api/peering_handler.go:370-421 | result and whole new state; the direction is stored unchecked |
| Handlers.PeeringHandler.CheckAccess | internal/api/peering_handler.go:699-712 | either side's owner has access; a missing VPC counts as the nil account's |
| Handlers.PeeringHandler.Delete | internal/api/peering_handler.go:423-455 | result and whole new state |
| Handlers.PeeringHandler.OverrideRoute | internal/api/peering_handler.go:555-606 | result and whole new state of adding or withdrawing one static route |
| Controller.Provisioner.StoreRoutes | internal/controller/provisioner.go:93-117 | the upsert loop and its count |
| Controller.Provisioner.ConfigureFabric | internal/controller/provisioner.go:61-90 | both imports, then the accepter's routes, then the requester's if the direction asks for them |
| Controller.Provisioner.ProvisionPeering | internal/controller/provisioner.go:41-133 | result and whole new state of the pipeline |
| Controller.Provisioner.DeprovisionPeering | internal/controller/provisioner.go:135-175 | result and whole new state; the peering's record does not change |
| Controller.Reconciler.ProvisionWaiting | internal/controller/reconciler.go:89-98 | phase 1 over its own listing |
| Controller.Reconciler.DeprovisionDeleting | internal/controller/reconciler.go:100-109 | phase 2 over its own listing |
| Controller.Reconciler.ExpirePending | internal/controller/reconciler.go:111-120 | phase 3 over its own listing |
| Controller.Reconciler.RetryFailed | internal/controller/reconciler.go:122-135 | phase 4 over its own listing |
| Controller.Reconciler.ReconcileAll | internal/controller/reconciler.go:86-148 | a pass over the stores is the specified pass for listings valid in the states it passes through |
| Invariant.InitInv | internal/store/memory.go:119-121 | the empty start state satisfies the invariant |
| Preservation.CreateVpcKeeps | internal/api/vpc_handler.go:65-156 | VPC creation keeps the whole invariant |
| Preservation.DeleteVpcKeeps | internal/api/vpc_handler.go:199-226 | VPC deletion keeps it: no live peering is left dangling |
| Preservation.CreatePeeringKeeps | internal/api/peering_handler.go:165-300 | a peering request keeps it, pair uniqueness and quota included |
| Preservation.UpdateKeeps | internal/api/peering_handler.go:370-421 | an update keeps it |
| Preservation.OverrideKeeps | internal/api/peering_handler.go:555-606 | a route override keeps it |
| Provisioning.ImportersGain | internal/controller/provisioner.go:61-71 | provisioning adds exactly one importer per side of the peering |
| Provisioning.ProvisionKeeps | internal/controller/provisioner.go:41-133 | provisioning keeps the whole invariant, successful or not |
| History.WaitingCanBeProvisioned | internal/controller/provisioner.go:43-59 | in every reachable state provisioning a waiting peering succeeds: neither VPC is missing |
| History.EveryPassSettles | internal/controller/reconciler.go:86-148 | in every reachable state and any listing order: no errors, every waiting peering provisioned and counted, every request older than seven days expired and counted, each record written out, all others kept, nothing left waiting, the provisioned ones logged in listing order |
| History.RepeatedPassIsQuiet | internal/controller/reconciler.go:86-148 | a second pass at the same time changes nothing and reports nothing |
| Collision.PassAlwaysPossible | internal/controller/reconciler.go:86-124 | in every state and at every time there are listings a pass can meet |
| Runs.StepKeepsInv | internal/controller/reconciler.go:86-148 | every handler call and every pass keeps the invariant |
| Runs.RunKeepsInv | internal/controller/reconciler.go:72-75 | every state of every run satisfies the invariant |
| History.RunMoves | internal/api/peering_handler.go:370-522 | all a step of a run can make of a stored peering, field by field: a call changes only the peering it is about, only from the right state and only the fields it is for; a pass writes state, time and route count of a waiting peering and the state of an overdue request, and keeps every other field and record |
| History.RouteCountRecordsDirection | internal/controller/provisioner.go:73-126 | from the step that provisions a peering on, whatever `Update` stores later, the route count is the number of the accepter's blocks, plus the requester's exactly when the direction in that step sent them |
| Ownership.OnlyOwnersChangePeerings | internal/api/peering_handler.go:384-606 | a stored peering or one of its stored routes changes only in a pass or by a caller owning the side entitled to the change, except that the nil account can delete, or override routes of, a rejected or expired peering with an end gone |
| Ownership.InOwnersHandsExactly | internal/api/peering_handler.go:699-712 | in every reachable state only passes and entitled owners can change a peering or its stored routes exactly unless it is rejected or expired, an end of it is gone and the nil account owns neither end |
| Departure.SomePeeringIsOpenToNil | internal/api/peering_handler.go:699-712 | a concrete run, a request across accounts, its rejection and the deletion of the requester's VPC, to a peering where that fails |
| History.RunKeepsVpcs | internal/store/memory.go:73-84 | in a run VPC records stay and change only to deleted |
| History.NeverLiveAgain | internal/controller/reconciler.go:111-135 | over every run rejected, expired and deleted peerings never become live again, and ends, account and provisioning time are fixed |
| History.LogGrows | internal/store/memory.go:253-258 | over every run an earlier log is a prefix of a later one |
| History.ProvisionedOnce | internal/controller/provisioner.go:119-129 | in every reachable state a peering has at most one provisioned event, and one exactly when `ProvisionedAt` is set |
| History.ConsentFirst | internal/api/peering_handler.go:457-491 | a cross-account peering is never under way without an earlier successful `Accept` by the accepter VPC's owner |
| History.ConsentPrecedesProvisioning | internal/api/peering_handler.go:476-487 | its provisioned event comes after an accepted event that this owner's step wrote |
| Fabric.AdvertMatchesStored | internal/bgp/evpn.go:20-37 | the routes are built with exactly the RD and export target stored with the VPC |
| Fabric.ImportsAreTheSum | internal/controller/provisioner.go:61-71 | a VRF's imports, as a multiset, are the sum of the other sides' targets over all peerings with `ProvisionedAt` set, deleted ones included |
| Fabric.SeesExactly | internal/bgp/evpn.go:65-74 | with nothing assumed about truncation: a VRF imports an advertised route exactly when a provisioned peering joins VPCs with the same truncated names |
| Fabric.Isolation | internal/bgp/evpn.go:65-74 | where the 8-character IDs of stored VPCs differ: a VPC sees an advertised route exactly when it shares a provisioned peering with its owner |
| Fabric.IsolatedExactly | internal/bgp/evpn.go:65-74 | with nothing assumed about truncation: in a reachable state every VPC sees only routes of VPCs it shares a provisioned peering with, exactly when two VPCs whose namesakes a provisioned peering joins share one whenever the second has had its routes injected |
| Fabric.AdvertsAreTheSum | internal/controller/provisioner.go:73-90 | each block of a VPC is advertised exactly as often as provisioned peerings have it as accepter, plus those with it as requester whose route count exceeds the accepter's blocks, which `History.RouteCountRecordsDirection` ties to the direction at provisioning |
| Fabric.Reachability | internal/controller/provisioner.go:73-80 | the requester of every provisioned peering sees every block of the accepter under the accepter's RD and VNI |
| Fabric.AccepterReachability | internal/controller/provisioner.go:82-90 | the accepter imports the requester's target too, so it sees a block of the requester exactly when that block is advertised by one of the injections counted above |
| Collision.CollisionBreaksIsolation | internal/bgp/evpn.go:40-45 | a concrete run in which two IDs share 8 characters and a VPC sees a route of a VPC it shares no peering with |
| Reachable.SimpleGraph | internal/api/peering_handler.go:189-247 | live peerings have no loops and no parallel edges, join live VPCs, and a VPC has as many neighbours as `CountByVPC` counts, at most 125 |
| Reachable.Handshake | internal/store/memory.go:216-229 | `CountByVPC` summed over the live VPCs is twice the number of live peerings |
| Reachable.AllocatorAgreesWithStore | internal/api/vpc_handler.go:128-153 | the allocated set is exactly the live VPCs' VNIs, as many as there are live VPCs; each is in range and decodes to its region |
| Reachable.ExhaustedMeansFull | internal/vni/allocator.go:70-84 | allocation in a known region fails exactly when its live VPCs number the region's capacity |
| Reachable.AccountSpacesApart | internal/api/vpc_handler.go:117-126 | no address lies in two blocks of one account's live VPCs, within a VPC or across VPCs |
| Reachable.PeeredSpacesApart | internal/api/peering_handler.go:212-216 | the two VPCs of every stored peering share no address |
| Grants.VpcGranted | internal/api/vpc_handler.go:79-155 | a VPC is created exactly for an authenticated caller with a usable name, a registered region that is not full, one to five disjoint private blocks, and no live VPC of the account with that name or a common address |
| Grants.DeletionGranted | internal/api/vpc_handler.go:199-225 | a VPC is deleted exactly by its owner while it has no neighbours in the peering graph |
| Grants.RequestGranted | internal/api/peering_handler.go:189-264 | a peering is granted exactly between the caller's live VPC and another live VPC without common addresses that is not a neighbour, when both have fewer than 125 neighbours and direction and policy can be read |
| Effects.CreateVpcEffect | internal/api/vpc_handler.go:65-156 | which error each refused creation has, said about names, addresses and capacity; a granted one stores the requested blocks masked, a free VNI of the region, the caller, the time and the names cut from the ID, and changes nothing else |
| Effects.DeleteVpcEffect | internal/api/vpc_handler.go:199-226 | which error each refused deletion has; a granted one marks the record and frees exactly its VNI |
| Effects.RequestEffect | internal/api/peering_handler.go:165-300 | which error each refused request has; a granted one stores every field, with the defaults, and logs its creation |
| Effects.AcceptEffect | internal/api/peering_handler.go:457-491 | granted exactly to the owner of the live accepter VPC while the request is pending; it then becomes `provisioning`, an accepted event is logged and nothing else changes; the error of every refusal |
| Effects.RejectEffect | internal/api/peering_handler.go:493-522 | granted in the same cases; the record becomes `rejected` and nothing else changes |
| Effects.UpdateEffect | internal/api/peering_handler.go:370-421 | granted exactly to the requester's owner while active or provisioning and with a readable policy; direction and policy are replaced where given, nothing else, and an update event is logged |
| Effects.DeleteEffect | internal/api/peering_handler.go:423-455 | granted exactly with access to a peering not deleted yet; the record is marked and a deletion event logged |
| Effects.OverrideEffect | internal/api/peering_handler.go:555-606 | the error of every refusal; a granted addition writes one static entry in place or at the end, a granted withdrawal takes the entry out, with the event for each |
| Effects.ProvisionEffect | internal/controller/provisioner.go:41-133 | in every reachable state: the record with state, time and route count written out, one event, the accepter's routes and by direction the requester's at the end of their lists, one import per end |
| Effects.ProvisionRefused | internal/controller/provisioner.go:43-59 | in any state, the error of every refusal, which changes nothing |
| Effects.RetryEffect | internal/controller/reconciler.go:122-135 | in any state with a failed peering: left alone from ten minutes of age on, else active and counted, or left `provisioning` with an error when an end is missing |
| Effects.DeprovisionEffect | internal/controller/provisioner.go:135-175 | in every reachable state the ends that are found advertise nothing, other lists stay, and imports are touched only if both ends are found |
| Effects.DeprovisionCounted | internal/controller/reconciler.go:100-109 | one step of phase 2 counts a deprovisioning once, or reports a peering that is gone |
| Undo.ProvisioningStoresDirectRoutes | internal/controller/provisioner.go:92-126 | right after provisioning the direct prefixes are the accepter's, plus the requester's if the direction says so, each once and credited to the VPC that has it; `RouteCount` is their number; every other entry is kept |
| Undo.ProvisioningKeepsOrder | internal/controller/provisioner.go:92-117 | the order of the store after provisioning: entries for one of the blocks are replaced where they stand, all other old ones stay, and the remaining blocks follow, the accepter's before the requester's |
| Undo.OverrideChangesOneEntry | internal/api/peering_handler.go:580-603 | a granted override leaves exactly one static entry at the peering and prefix, or none, and every other entry as it was; a refused one changes nothing |
| Undo.ConfigureBothRemoves | internal/controller/provisioner.go:161-171 | deprovisioning takes exactly one occurrence of each side's target from the other's imports |
| Undo.DeprovisionRestoresImports | internal/controller/provisioner.go:161-171 | provisioning and then deprovisioning restores every VRF's import multiset |
| Undo.DeprovisionEmptiesAdverts | internal/controller/provisioner.go:145-159 | it leaves both VPCs advertising nothing, all other VPCs' lists as before provisioning, and nothing but BGP touched |
| Undo.DeprovisionLeavesTheOthers | internal/controller/provisioner.go:161-171 | deprovisioning any active peering, in any reachable state, leaves every VRF's imports, as a multiset, as the sum over the other provisioned peerings |
| Undo.DeprovisionSilencesTheEnds | internal/controller/provisioner.go:145-159 | it leaves both ends advertising nothing, also what other peerings injected, every other VPC's list as it was, and touches nothing but BGP |
| Teardown.OthersKeepReachability | internal/controller/provisioner.go:145-171 | after that, the requester of another provisioned peering sees its accepter's blocks exactly when the torn-down peering does not touch that accepter |
| Teardown.TeardownCutsOffOthers | internal/controller/provisioner.go:145-159 | a concrete run in which it does touch it and the blocks are lost |

## Comments and code

Where a comment and the code disagree the model follows the code: failed peerings are retried by age
only, without the count of ten that internal/controller/reconciler.go:122 mentions; the two imports that
internal/bgp/evpn.go:61-64 describes for bidirectional peerings are configured for every direction;
`PreferenceForOrigin`'s default of 1000 is unreachable for the three origins and has no case here.

## Left out

- HTTP routing, JSON, the response envelopes, authentication of tokens, configuration, logging, protobuf: a handler gets a parsed request and an optional caller; which of several syntax errors comes first in a body is not modelled.
- The read-only handlers `Get`, `List`, `ListRoutes` and `ListEvents`, with sorting and page sizes: `GetEffectiveRoutes` is modelled from the peerings that the truncated listing returned.
- The PostgreSQL stores and migrations: the memory stores are modelled.
- SHA-256 of the account ID: the tenant shard is an argument below 1024.
- `netip`, `uuid` and `sort`: primitives with stated meaning; UUIDs are 36-character strings and a fresh one is assumed not to be stored yet.
- Interleavings finer than one handler call or one pass: the sequences of store calls are not transactional, so a step is assumed atomic; the locks are not modelled.
- Background tickers, start and stop, BGP sessions, the rate limiter: not part of this model.
- Event IDs, messages and timestamps, `DeletedAt`, health, latency and the bandwidth limit: no modelled decision reads them.
- The clock during one step: one time per step stands for the several readings a pass takes.
- String lengths in bytes: a name is counted in characters.
- Aliasing of slice backing arrays: lists are values, reassigned to fields where the source splices in place.
- Region registration after start: `Runs` starts from any registration with IDs 0 to 15 and keeps it.
- Start states with a missing map: the agent's `AddDesiredRoutes` is modelled from an initialised desired state.
- Bgp.InMemoryService.InjectRoutes: does not model the service's second copy of each route, a route table keyed by RD that nothing but a status query reads.
- Bgp.InMemoryService.WithdrawRoutes: says nothing of that route table, which the source never clears on withdrawal.
- Fabric.Isolation: counts deleted peerings as shared, because `Delete` goes straight to `deleted` and no handler sets `deleting`, so the controller's deprovisioning phase never meets a peering.
- Fabric.AccepterReachability: makes no claim that the direction is respected: both imports are always configured, another peering's injection makes a block visible too, and `Update` stores a new direction without provisioning again.
- AgentRepair.PassRepairsDrift: compares VRF names and prefixes only, as the source does; next hops, VNIs and table IDs of entries already on the host are not repaired.
- AgentTheorems.PassErrors: is about keyed route lists; for others which additions are refused can depend on the map order, and `AgentErrors.NeverAnErrorExactlyWhenClean` says when none ever is.
- AgentTheorems.PassIgnoresMapOrder: says nothing of the order within a route list, or of next hops and VNIs, for lists that are not keyed; several lists may then name the same pair.
- Undo.DeprovisionLeavesTheOthers: is about the function; no handler sets `deleting`, so the controller's deprovisioning phase never meets a peering in a run.
- Design-document features without code (grace periods, disabling, transit gateways, metering, backoff, leader election): not part of this model.
