# Fleetboard in Dafny

Fleetboard connects clusters: it publishes the pods of a service as endpoint slices, mirrors them to other
clusters, programs IPVS so that traffic reaches them, and hands out address blocks to clusters and nodes. This
project models the five places where that is algorithmically hard and proves what they are there for. The whole
project is verified with `dafny verify dfyconfig.toml`.

**Endpoint slice reconciler.** A service's desired endpoints are packed into existing and new slices of bounded
size. `Keeping` is step 1 (drop what is not desired, mark slices), `Packing` steps 2 and 3 (fill slices that are
updated anyway, then one untouched slice or new ones), `PortMapping` and `GroupReconciler` put the three together
for one port mapping, `Idempotence` looks at their own output as the next input. `DesiredEndpoints`, `Groups`,
`GroupProgress`, `AddressTypes` and `Placeholders` do all port mappings of an address type; `HintedPlans` carries the
plan through the hints pass; `ApiServer`, `Finalizing` and `CarryingOut` turn creates into updates of doomed slices
and make the API calls, any of which may fail; `Reconciler` is the whole path, and
`Publication` says what it means for pods and slices, field by field. `SliceTracker` is the tracker that
holds the controller back while its informer lags.

**Topology hints.** `Allocation` (shares by CPU, minima from the overload threshold), `Redistribution` (greedy rounding),
`Hints`, `HintScan`, `HintMoves` (counting, assigning and moving hints) and `TopologyCache` (the cache and `AddHints`).
`HintBalance` says when hints end within the allocations and when they can stay as they are.
Shares are `real` numbers where the source has float64.

**Proxy.** `ProxyEndpoints` (order and duplicates of endpoint strings), `EndpointGroups` (slices to endpoints by port),
`EndpointSliceCache` (pending and applied slices), `EndpointsMaps` and `EndpointRuns` (the incremental map and its
runs), `ServiceImports` (service ports), `Categories` (endpoints for cluster and local traffic).

**IPVS.** `GracefulTermination` (kernel table and termination list), `EndpointSync` (one sync), `SyncRuns` (runs over the
lifetime of a virtual server). Kernel calls may fail; a ghost counter counts the failures. `Routing` joins the two: from
the slices last delivered to the servers in the kernel.

**Address blocks.** `Cidrs` (IPv4 prefix notation, section 3.1 of RFC 4632, and the overlap test), `CidrAllocation`
(first fit), `NodeCidrs` (the blocks a leader hands out).

State that the source updates in place is a class (`EndpointSet`, `SliceInfo`, `TopologyCache`, `ApiServer`, `Reconciler`,
`EndpointSliceTracker`, `Cache`, `EndpointsMap`, `ServiceImportChangeTracker`, `ServicePortMap`, `Kernel`,
`GracefulTerminationManager`, `Proxier`, `InnerTunnelController`); loops are loops; Go's ranging over a map is a loop
over a set in arbitrary order. Runs are sequences of states related by the same predicates the methods promise.
Hashes of endpoints and of port mappings are taken to be injective, and names that are only compared are opaque ids.

What does not hold of the code, with the exact condition under which it does:

- An unowned slice can be kept as the placeholder, because the comparison ignores owners. An owned slice remains
  exactly unless the only slice there is belongs to another owner, passes for the placeholder and nothing is desired
  (`Placeholders.EnsurePlaceholder`, `Placeholders.StrayExample`, `Reconcilers.Reconciler.ReconcileByAddressType`).
- Hints of endpoints that are not ready survive adding hints, because the assignment meant to clear them goes to a
  copy. There are none afterwards if and only if there were none before (`TopologyCache.TopologyCache.AddHints`,
  `TopologyCache.StaleHintSurvives`).
- Redistribution does not always bring every zone between its minimum and maximum, because it stops below half an
  endpoint. It does exactly if the moves make up for what zones lack by nature, which is exactly if the plan is enough
  where all planned endpoints can be moved (`HintBalance.MinimaExactly`, `HintBalance.BalancedExactly`,
  `HintBalance.LopsidedStays`).
- With hints on, reconciling again is not always quiet. It is exactly if all hints are for zones with an allocation and
  within their maxima, or there is no allocation and no hint; a zone above its maximum, or a service whose endpoints
  lack a zone, is written on every pass (`Reconcilers.SecondPass`, `HintBalance.LopsidedIsRewritten`,
  `HintBalance.UnhintedIsRewritten`).
- Two services of different exporting clusters share the service part of their `ServicePortName`s. The incremental
  endpoints map equals recomputation in every run if no two services share a port, and not otherwise
  (`EndpointRuns.IncrementalIsRecomputed`, `EndpointRuns.CollisionLosesPort`).
- A sync reaches the desired weights unless it is not the first one and a desired, non-terminating server stands at
  another weight, which happens when the first sync had no entry (`SyncRuns.ConvergesUnlessStale`, `SyncRuns.StaleWeightStays`).
- Runs start with the listed servers in order, in particular with an empty list. A virtual server added later may find
  servers of a predecessor still listed; its weights are right all its life exactly if no sync adds such a server, which
  would get weight 1 while listed and be deleted by the next flush (`SyncRuns.AddedLater`, `SyncRuns.OrderlyAfterSync`,
  `SyncRuns.LeftoverIsDeleted`).
- The tracker forgets requested deletions when a service disappears, and then calls a view fresh that still shows
  those slices. A fresh listing shows a slice that was ever asked to be deleted only if the service was forgotten after
  the request, or the slice went between listing and judging (`SliceTracker.ReadYourOwnDeletions`,
  `SliceTracker.ForgettingHides`, `SliceTracker.ForgettingExample`, `SliceTracker.HandledMeanwhile`).
- An entry of the tracker can outlive its slice and keep the service stale until it is forgotten. That is so exactly if
  the version shown at deletion names another service or manager, or the tracker was told of a write only after the
  deletion had been handled (`SliceTracker.OutlivesUntilForgotten`, `SliceTracker.OutlivingExamples`).
- The UDP addresses reported as deleted may still be in use. One still is, after a sync, if and only if a live import
  with a port has it (`ServiceImports.StillInUse`, `ServiceImports.ReportedButInUse`).
- The block scan goes by the number of host bits, so it leaves a full network or stops before the end of a large
  one (`CidrAllocation.InsideIfFree`, `CidrAllocation.FullNetworkIsLeft`, `CidrAllocation.GivesUpIfTaken`,
  `CidrAllocation.GivesUpEarly`, `CidrAllocation.ScanReach`).
- A cluster network of length 13 cannot be divided although the table above the code gives it a node length; it
  arises from a tunnel network of length 9 and from no other (`CidrAllocation.ClusterOfTunnel`).

Where comments in the source and its code differ, the code is modelled: the service tracker's `Update` returns whether
any change is pending rather than whether this one is; the branch of `AddHints` for an empty count map is unreachable
(`Hints.EveryHintIsCounted`).

## Model

| member | source | states |
|---|---|---|
| `Keeping.KeepDesired` | pkg/controller/endpointslice/reconciler.go:455-508 | step 1 takes every existing key out of the desired set once, judges each slice unchanged, updated or deleted, and counts what it removed |
| `Keeping.CurrentConserves` | pkg/controller/endpointslice/reconciler.go:455-508 | after step 1 every desired key stands in exactly one kept slice or is still to be placed |
| `Keeping.JudgeSlice` | pkg/controller/endpointslice/reconciler.go:458-508 | one slice is marked by its verdict: deleted if nothing in it is desired, updated if endpoints or labels changed, untouched otherwise |
| `Keeping.JudgedExactly` | pkg/controller/endpointslice/reconciler.go:458-508 | a slice is deleted if and only if it has endpoints and none is desired, and left alone if and only if its endpoints are desired, different, with the desired node, zone, conditions and target, and its labels are the service's outside three keys |
| `Discovery.EqualBeyondHash` | pkg/controller/endpointslice/util/controller_utils.go:251-277 | same node, zone, three conditions, and target but for its resource version |
| `Keeping.KeepEndpoints` | pkg/controller/endpointslice/reconciler.go:462-476 | the endpoints kept are the desired versions, each key once, and each leaves the desired set |
| `SliceLabels.SetEndpointSliceLabels` | pkg/controller/endpointslice/utils.go:225-264 | the labels are the service's unreserved ones plus the three reserved ones, and a change is seen exactly if the unreserved labels differ |
| `SliceLabels.LabelsSettle` | pkg/controller/endpointslice/utils.go:225-264 | a slice given these labels shows no label change the next time |
| `SliceLabels.LabelsExactly` | pkg/controller/endpointslice/utils.go:225-274 | the value under each of the three reserved keys, and the service's labels under every other |
| `SliceLabels.MirrorsExactly` | pkg/controller/endpointslice/utils.go:225-274 | no label change is seen if and only if slice and service agree under every key but the three |
| `EndpointSets.EndpointSet.Insert` | pkg/controller/endpointslice/util/endpointset.go:54-59 | the endpoint replaces what stood under its key and nothing else |
| `EndpointSets.EndpointSet.Delete` | pkg/controller/endpointslice/util/endpointset.go:62-67 | exactly the endpoint's key is removed |
| `EndpointSets.EndpointSet.PopAny` | pkg/controller/endpointslice/util/endpointset.go:90-96 | some element leaves the set; none only if it is empty |
| `Packing.FillUpdated` | pkg/controller/endpointslice/reconciler.go:512-530 | step 2 conserves every key, grows updated slices fullest first and never past the limit, and leaves endpoints over only if all of them are full |
| `Packing.GetSliceToFill` | pkg/controller/endpointslice/utils.go:177-192 | the fullest slice that takes all given endpoints within the limit, if there is one |
| `Packing.PlaceRemainder` | pkg/controller/endpointslice/reconciler.go:537-574 | step 3 terminates with nothing left over, in one untouched slice and new slices |
| `PortMapping.StepsPacked` | pkg/controller/endpointslice/reconciler.go:512-574 | no slice grown past the limit; creation only when all updated slices are full; all created slices but the last full; at most one unchanged slice touched, the fullest that fits the whole remainder |
| `PortMapping.AppliedIsCurrent` | pkg/controller/endpointslice/reconciler.go:576-589 | applying the returned lists to the existing slices gives the state the steps worked on |
| `GroupReconciler.ReconcileByPortMapping` | pkg/controller/endpointslice/reconciler.go:442-589 | conservation, up-to-date versions, labels, packing and the counters: old total - removed + added = desired; nothing is written for a settled group |
| `GroupReconciler.RemainingAsDesired` | pkg/controller/endpointslice/reconciler.go:442-589 | every endpoint of every slice that remains has the node, zone, conditions and target of its desired version |
| `GroupReconciler.LeftAloneIsRight` | pkg/controller/endpointslice/reconciler.go:442-589 | a slice neither updated nor deleted has only such endpoints, and the service's labels outside three keys |
| `GroupReconciler.CreatedFor` | pkg/controller/endpointslice/utils.go:130-151 | a slice created has the service's namespace, owner reference and labels |
| `GroupReconciler.UpdatedLabels` | pkg/controller/endpointslice/reconciler.go:478-500 | a slice updated gets these labels unless it is only filled up |
| `GroupReconciler.SettledIsKept` | pkg/controller/endpointslice/reconciler.go:455-508 | every slice of a settled group is judged unchanged |
| `Idempotence.SettledRelisted` | pkg/controller/endpointslice/reconciler.go:455-508 | being settled does not depend on the order, names or hints of the slices |
| `Idempotence.ReconcilingAgain` | pkg/controller/endpointslice/reconciler.go:442-589 | reconciling the outcome of an earlier call again creates, updates and deletes nothing |
| `DesiredEndpoints.BuildDesired` | pkg/controller/endpointslice/reconciler.go:165-209 | aborts exactly on a failed node lookup, reports skipped pods, and collects the rest by port mapping |
| `DesiredEndpoints.DesiredIsAsked` | pkg/controller/endpointslice/reconciler.go:165-209 | each group holds under each key the endpoint of the last published pod with that key and nothing else |
| `AddressTypes.OwnedBy` | pkg/controller/endpointslice/utils.go:165-172 | true exactly if an owner reference is the service's |
| `AddressTypes.GroupExisting` | pkg/controller/endpointslice/reconciler.go:151-159 | slices by port mapping in order; those of other owners apart |
| `AddressTypes.ReconcileDesiredGroups` | pkg/controller/endpointslice/reconciler.go:216-232 | whatever order the groups are taken in, each done group has its endpoints under the service's labels, other groups are untouched, foreign slices are doomed; settled groups yield nothing |
| `AddressTypes.DropUndesired` | pkg/controller/endpointslice/reconciler.go:236-240 | groups nobody desires end up empty without touching others |
| `GroupProgress.JoinProgress` | pkg/controller/endpointslice/reconciler.go:216-232 | joining one group's plan to the others keeps names distinct and every other group's outcome |
| `Placeholders.EnsurePlaceholder` | pkg/controller/endpointslice/reconciler.go:243-257 | the plan changes only if no slice would remain; then a slice that passes for the placeholder is kept or else the placeholder created; what remains is stable, and stable slices are left alone; an owned slice remains exactly unless the only slice is a stray placeholder |
| `Placeholders.OwnedUnlessStray` | pkg/controller/endpointslice/reconciler.go:318-340 | when the comparison that ignores owners lets a foreign slice stand in for the placeholder |
| `Placeholders.StrayExample` | pkg/controller/endpointslice/reconciler.go:318-340 | the placeholder of an earlier service of the same name is such a foreign slice |
| `HintedPlans.UnchangedSlices` | pkg/controller/endpointslice/utils.go:350-367 | the existing slices named in neither list, in order |
| `HintedPlans.HintedPlanned` | pkg/controller/endpointslice/reconciler.go:268-292 | writing or removing hints leaves names, groups and endpoints of the outcome as planned |
| `Finalizing.ConvertCreates` | pkg/controller/endpointslice/reconciler.go:352-374 | creates take over names of doomed slices of the service and address type only, each name once, until none is left on one side |
| `CarryingOut.Finalize` | pkg/controller/endpointslice/reconciler.go:343-418 | the calls are made in order up to the first failure; nothing is created for a terminating service; and the status tells which call failed, if any |
| `CarryingOut.RunRespects` | pkg/controller/endpointslice/reconciler.go:379-418 | however far the calls get, slices outside the view, names of updated slices and contents of foreign slices stay |
| `CarryingOut.WritesDistinct` | pkg/controller/endpointslice/reconciler.go:343-418 | no slice name is written twice or both updated and deleted |
| `CarryingOut.RunCarried` | pkg/controller/endpointslice/reconciler.go:343-418 | after a finished run the server holds exactly the surviving slices in place of the old ones |
| `Reconcilers.Reconciler.ReconcileByAddressType` | pkg/controller/endpointslice/reconciler.go:141-301 | end to end: if all calls succeed and the service is not terminating, each port mapping has exactly its desired endpoints, each once, up to date and under the service's labels, at least one slice survives, and no name is written twice; with hints off, slices that are already so cause no call |
| `Publication.PodIsPublished` | pkg/controller/endpointslice/reconciler.go:141-301 | after a pass without failing calls every pod that is in endpoints, has an address and whose node is known or need not be, if it is the last of its ports and key, has its endpoint in a slice owned by the service with the pod's ports, with the pod's node, zone, conditions and target |
| `Publication.EndpointHasPod` | pkg/controller/endpointslice/reconciler.go:141-301 | and every endpoint in the pass's slices is that of such a pod |
| `Publication.PublishedOnce` | pkg/controller/endpointslice/reconciler.go:141-301 | no endpoint stands twice under the same ports |
| `Publication.SlicesBelong` | pkg/controller/endpointslice/reconciler.go:141-301 | every slice left is the service's, for ports of a pod, with its labels; or there is one, empty and labelled like a new one |
| `Publication.PlaceholderExactly` | pkg/controller/endpointslice/reconciler.go:318-340 | what passes for the placeholder, field by field |
| `Publication.NewSlices` | pkg/controller/endpointslice/reconciler.go:343-396 | whatever calls fail, a slice that is new has the service's owner reference, namespace and labels |
| `Publication.OthersKeepContents` | pkg/controller/endpointslice/reconciler.go:352-374 | whatever calls fail, a slice of another owner or address type that is not updated is never overwritten |
| `Reconcilers.SecondPass` | pkg/controller/endpointslice/reconciler.go:141-301 | after a pass without failing calls, a second pass over what the first left, in any order, makes no API call if and only if the hints left can stay |
| `Reconcilers.SecondPassIsQuiet` | pkg/controller/endpointslice/reconciler.go:141-301 | with hints off it makes none |
| `Idempotence.StablePermuted` | pkg/controller/endpointslice/reconciler.go:141-301 | whether slices need no change does not depend on their order |
| `SliceTracker.EndpointSliceTracker.StaleSlices` | pkg/controller/endpointslice/util/endpointslice_tracker.go:89-116 | stale exactly if a listed slice is older than tracked or expected to be deleted, or a written one is missing |
| `SliceTracker.EndpointSliceTracker.Update` | pkg/controller/endpointslice/util/endpointslice_tracker.go:120-131 | the slice's generation is tracked under its service, everything else as before |
| `SliceTracker.EndpointSliceTracker.Has` | pkg/controller/endpointslice/util/endpointslice_tracker.go:56-66 | true exactly if the slice is tracked under its service |
| `SliceTracker.EndpointSliceTracker.DeleteService` | pkg/controller/endpointslice/util/endpointslice_tracker.go:134-140 | every entry of the service goes and no other |
| `SliceTracker.EndpointSliceTracker.ExpectDeletion` | pkg/controller/endpointslice/util/endpointslice_tracker.go:144-155 | the slice is tracked as to be deleted |
| `SliceTracker.EndpointSliceTracker.HandleDeletion` | pkg/controller/endpointslice/util/endpointslice_tracker.go:160-175 | the entry goes; false exactly if the slice was tracked and not to be deleted |
| `SliceTracker.ReadYourOwnWrites` | pkg/controller/endpointslice/util/endpointslice_tracker.go:89-175 | in every run, whenever the informer shows and handles what the server did, a verdict that is not stale means that the last write of a slice is listed at least that new, unless the service was forgotten since or the deletion handled |
| `SliceTracker.ReadYourOwnDeletions` | pkg/controller/endpointslice/util/endpointslice_tracker.go:89-175 | and that a slice ever asked to be deleted is listed only if the service was forgotten after the request or the deletion was handled after the listing was taken |
| `SliceTracker.HandledMeanwhile` | pkg/controller/endpointslice/util/endpointslice_tracker.go:89-175 | a slice that goes while the controller holds its listing |
| `SliceTracker.ExpectedIsAsked` | pkg/controller/endpointslice/util/endpointslice_tracker.go:134-175 | a deletion is expected exactly if it was asked for and since then neither forgotten nor found by the deletion handler |
| `SliceTracker.StaleForAReason` | pkg/controller/endpointslice/util/endpointslice_tracker.go:89-116 | told by the events of any sequence, a verdict is stale if and only if the last call for some slice, neither forgotten nor found by the deletion handler since, asked to delete a listed slice or wrote one that is listed older or not at all |
| `SliceTracker.OutlivesUntilForgotten` | pkg/controller/endpointslice/util/endpointslice_tracker.go:120-175 | after its deletion was handled a slice is tracked if and only if a call came later or the version handled names another service or manager, and the service was not forgotten after that call |
| `SliceTracker.OutlivingExamples` | pkg/controller/endpointslice/util/endpointslice_tracker.go:120-175 | a run of each kind |
| `SliceTracker.OutlivingIsStale` | pkg/controller/endpointslice/util/endpointslice_tracker.go:89-116 | such an entry of a written slice makes every listing stale |
| `SliceTracker.ForgettingHides` | pkg/controller/endpointslice/util/endpointslice_tracker.go:134-140 | forgetting a service turns every such stale verdict into a fresh one |
| `SliceTracker.ForgettingExample` | pkg/controller/endpointslice/util/endpointslice_tracker.go:134-155 | a slice seen and then asked to be deleted is a run to which this applies |
| `Allocation.GetAllocations` | pkg/controller/endpointslice/topologycache/topologycache.go:287-344 | fails exactly for the stated reasons, the last being minima that sum past the endpoints; otherwise each maximum plus all other minima is the number of endpoints, in any order of zones |
| `Allocation.MinimumIsLeast` | pkg/controller/endpointslice/topologycache/topologycache.go:319-325 | k endpoints are at least the minimum if and only if five times the zone's load is at most six times k |
| `Allocation.ShareExactly` | pkg/controller/endpointslice/topologycache/topologycache.go:319-325 | the minimum and the desired share of a zone, bounded on both sides |
| `Allocation.MaximumExactly` | pkg/controller/endpointslice/topologycache/topologycache.go:338-341 | the maximum is what the minima of the other zones leave |
| `TopologyCache.SevenIsEnough` | pkg/controller/endpointslice/topologycache/topologycache.go:287-344 | two equal zones and seven endpoints: minima 3, maxima 4 |
| `Redistribution.GetGivingAndReceivingZones` | pkg/controller/endpointslice/topologycache/utils.go:131-173 | given equals received, every zone is rounded by at most half an endpoint, and the loop ends only when nothing is left to round on one side |
| `Redistribution.GetMost` | pkg/controller/endpointslice/topologycache/utils.go:178-189 | a zone with the largest positive share, or none |
| `Redistribution.DonorKeepsMinimum` | pkg/controller/endpointslice/topologycache/utils.go:131-173 | no donor ends below its minimum |
| `Redistribution.ReceiverStaysBelow` | pkg/controller/endpointslice/topologycache/utils.go:131-173 | no receiver ends more than half an endpoint above its share |
| `Hints.RetainedWithinMaximum` | pkg/controller/endpointslice/topologycache/sliceinfo.go:55-76 | hints of retained slices never exceed a zone's maximum |
| `Hints.EveryHintIsCounted` | pkg/controller/endpointslice/topologycache/topologycache.go:144-155 | slices whose ready endpoints are all hinted have a hint for some zone, so the empty-count branch is never taken |
| `Hints.ReadyIsCount` | pkg/controller/endpointslice/topologycache/utils.go:270-284 | the ready endpoints are those whose ready condition is set and true, each counted once |
| `Hints.ReadyInIsCount` | pkg/controller/endpointslice/topologycache/topologycache.go:129 | and so are those of a zone |
| `Hints.HintsAreCounted` | pkg/controller/endpointslice/topologycache/utils.go:198-217 | the hints of a zone are its occurrences among the hints of ready endpoints |
| `HintScan.GetHintsByZone` | pkg/controller/endpointslice/topologycache/utils.go:198-227 | counts the hints of a slice that can keep them, and tells exactly when it cannot |
| `HintScan.SplitUnchanged` | pkg/controller/endpointslice/topologycache/sliceinfo.go:55-76 | which unchanged slices keep their hints, with their counts, and which become updates |
| `HintScan.AssignSameZone` | pkg/controller/endpointslice/topologycache/topologycache.go:109-132 | each ready endpoint is hinted for its own zone, or one without a zone is found |
| `HintMoves.RedistributeHints` | pkg/controller/endpointslice/topologycache/utils.go:79-125 | hints of ready endpoints move only from giving to receiving zones, no more than planned and no less unless a giving zone runs out, the returned changes are the actual ones, and endpoints that are not ready are unchanged |
| `TopologyCache.RemoveHintsFromSlices` | pkg/controller/endpointslice/topologycache/utils.go:30-68 | no hint is left, and an untouched slice becomes an update only if it had one |
| `TopologyCache.TopologyCache.SetHints` | pkg/controller/endpointslice/topologycache/topologycache.go:185-194 | one entry changes, no other |
| `TopologyCache.TopologyCache.RemoveHints` | pkg/controller/endpointslice/topologycache/topologycache.go:198-210 | the entry and the populated mark go, other entries stay |
| `TopologyCache.MoveHints` | pkg/controller/endpointslice/topologycache/topologycache.go:132-142 | the counts are those of the endpoints' own zones changed by a greedy plan, which is carried out to the end if and only if enough endpoints can be moved |
| `TopologyCache.HintSlices` | pkg/controller/endpointslice/topologycache/topologycache.go:106-142 | all ready endpoints hinted with exact counts per zone, donors at or above their minimum and receivers within half an endpoint of their share, or a ready endpoint without a zone; endpoints that are not ready unchanged |
| `TopologyCache.TopologyCache.AddHints` | pkg/controller/endpointslice/topologycache/topologycache.go:90-173 | all or nothing: every ready endpoint hinted and the cached counts exact, or no hint anywhere and no cache entry; which of the two, and that only hints change; hints of endpoints that are not ready remain exactly if they were there; and the reason for removal |
| `Hints.StaleHintsStay` | pkg/controller/endpointslice/topologycache/topologycache.go:109-132 | after hints were kept no endpoint that is not ready has any exactly if none had before |
| `TopologyCache.StaleHintSurvives` | pkg/controller/endpointslice/topologycache/topologycache.go:112-115 | a slice that can be hinted and whose third endpoint, no longer ready, has an old hint |
| `HintBalance.MinimaExactly` | pkg/controller/endpointslice/topologycache/utils.go:127-173 | after redistribution every zone has its minimum if and only if the moves made up for what zones lack by nature, and where all planned endpoints can be moved if and only if the plan is enough |
| `HintBalance.BalancedExactly` | pkg/controller/endpointslice/topologycache/utils.go:127-173 | under the same condition every zone is between its minimum and its maximum, if no endpoint has two hints |
| `HintBalance.MinimaSuffice` | pkg/controller/endpointslice/topologycache/topologycache.go:315-342 | counts that add up to no more than the endpoints and meet every minimum exceed no maximum |
| `HintBalance.LopsidedStays` | pkg/controller/endpointslice/topologycache/utils.go:150-163 | 13 and 1 endpoints in zones with shares 0.9 and 0.1 stay outside the allocations |
| `HintBalance.NoneDisplaced` | pkg/controller/endpointslice/topologycache/sliceinfo.go:55-77 | no unchanged slice is taken up if and only if every ready endpoint has a hint and all hints are within the allocations, in whatever order |
| `HintBalance.NothingTakenUp` | pkg/controller/endpointslice/topologycache/topologycache.go:90-173 | adding hints to unchanged slices writes none of them if and only if that holds, or there is neither an allocation nor a hint |
| `HintBalance.LopsidedIsRewritten` | pkg/controller/endpointslice/topologycache/utils.go:218-227 | the lopsided slices are written again on every pass |
| `HintBalance.UnhintedIsRewritten` | pkg/controller/endpointslice/topologycache/topologycache.go:104-128 | so are slices without hints while there are allocations, for instance because an endpoint lacks a zone |
| `ProxyEndpoints.AscendingUnique` | pkg/proxy/endpointslicecache.go:369-387 | a set of endpoint strings has one ascending listing |
| `ProxyEndpoints.LessExactly` | pkg/proxy/endpointslicecache.go:369-387 | the order is that of dictionaries: a proper prefix, or the smaller character where two strings first differ |
| `ProxyEndpoints.LocalIfAnyIs` | pkg/proxy/endpointslicecache.go:321-326 | a listed endpoint is local exactly if some duplicate of it is |
| `ProxyEndpoints.ListEndpoints` | pkg/proxy/endpointslicecache.go:369-387 | each endpoint string once, strictly sorted |
| `EndpointGroups.AddEndpoints` | pkg/proxy/endpointslicecache.go:283-330 | one endpoint per string seen, a local one if there is one; unusable endpoints are ignored |
| `EndpointGroups.TextIdentifies` | pkg/proxy/endpoints.go:138-150 | two endpoints have the same string only if they have the same address and port |
| `EndpointGroups.ItoaReads` | pkg/proxy/endpoints.go:138-150 | the port's text reads back as its number |
| `EndpointGroups.EndpointInfoByServicePort` | pkg/proxy/endpointslicecache.go:253-280 | each service port has exactly the endpoints its slices yield, deduplicated |
| `EndpointGroups.GetEndpointsMap` | pkg/proxy/endpointslicecache.go:247-250 | the ports with endpoints, each with its sorted list |
| `EndpointGroups.OrderIndependent` | pkg/proxy/endpointslicecache.go:253-330 | any visiting order gives the same ports, endpoint strings, order and local flags |
| `EndpointSliceCache.Cache.UpdatePending` | pkg/proxy/endpointslicecache.go:187-210 | a delivery without label or with a blank name changes nothing; any other becomes what the view has under its namespace, service label and name, and nothing else; and whether it was judged changed |
| `EndpointSliceCache.FiledByNames` | pkg/proxy/endpointslicecache.go:398-408 | two deliveries share a key if and only if they share namespace, service label and name; none has one if and only if one of them is missing |
| `EndpointSliceCache.ChangeIsSeen` | pkg/proxy/endpointslicecache.go:338-365 | with nothing pending a slice is judged changed if and only if the view changes, otherwise if and only if it differs from the pending one |
| `EndpointSliceCache.SetPendingView` | pkg/proxy/endpointslicecache.go:338-365 | leaving out a slice judged unchanged does not matter to the view |
| `EndpointSliceCache.Cache.CheckoutChanges` | pkg/proxy/endpointslicecache.go:214-244 | pending slices become applied, removals never; one change per service concerned, with the endpoints before and after |
| `EndpointRuns.ViewIsLatest` | pkg/proxy/endpointslicecache.go:187-244 | after any run applied overlaid with pending is the latest delivery under each namespace, service label and slice name, and applied never holds a removal |
| `EndpointsMaps.EndpointsMap.Update` | pkg/proxy/endpoints.go:327-369 | the checked out changes are applied one service after the other in some order |
| `EndpointsMaps.UpdateAgrees` | pkg/proxy/endpoints.go:327-369 | if a port belongs to one service only, unmerging and merging the changes in any order keeps the map the union of all services |
| `EndpointRuns.IncrementalIsRecomputed` | pkg/proxy/endpoints.go:327-369 | in every run in which no two services share a port the map is the union of the recomputed maps after every event |
| `EndpointRuns.CollisionLosesPort` | pkg/proxy/endpoints.go:327-369 | if two services share a port, removing one of them loses the port the other still has |
| `ServiceImports.ToServiceMapLookup` | pkg/proxy/service_import.go:304-332 | the map of an import holds a port for each position of its list and nothing else; none without a cluster address |
| `ServiceImports.ServiceImportChangeTracker.Update` | pkg/proxy/service_import.go:230-262 | the first previous ports are kept, a change back is no change, and the result tells whether anything is pending |
| `ServiceImports.ServicePortMap.Update` | pkg/proxy/service_import.go:345-442 | every change is applied, and the reported addresses are exactly the cluster addresses of UDP ports present before and absent after |
| `ServiceImports.IncrementalIsRecomputed` | pkg/proxy/service_import.go:230-442 | in every run the map after an update holds the ports of the live imports and nothing else |
| `ServiceImports.PortsOfImports` | pkg/proxy/service_import.go:304-332 | after an update each port of each live import with an address is there under its position and protocol, with the import's first address |
| `ServiceImports.PortHasImport` | pkg/proxy/service_import.go:304-332 | and nothing else is there |
| `ServiceImports.StillInUse` | pkg/proxy/service_import.go:264-274 | after a sync an address is still in the map exactly if a live import with a port has it |
| `ServiceImports.ReportedButInUse` | pkg/proxy/service_import.go:264-274 | an import that loses its UDP port and keeps its TCP port has its address reported |
| `Categories.CanUseTopology` | pkg/proxy/topology.go:148-187 | true exactly if hints are wanted, the node has a zone, every ready endpoint is hinted and one is hinted for the zone |
| `Categories.ClusterListEmpty` | pkg/proxy/topology.go:44-74 | topology never empties the cluster list: it is empty exactly if nothing is usable |
| `Categories.ClusterCoversLocal` | pkg/proxy/topology.go:115-121 | the shortcut is right: without topology the cluster list has all local ready endpoints |
| `Categories.CategorizeEndpoints` | pkg/proxy/topology.go:40-139 | on every path the reachable strings are the union of the cluster and local ones, and any endpoints are reported exactly if one is ready or serving and terminating |
| `Categories.EndpointsToSync` | pkg/proxy/ipvs/proxier.go:1442-1478 | the endpoints chosen for a virtual server are usable ones, and there are some whenever a usable one exists and the port takes cluster traffic |
| `Categories.ToSyncExactly` | pkg/proxy/ipvs/proxier.go:1442-1478 | which endpoints are chosen, by the policy's and the endpoints' fields: local ones if asked for and there, otherwise those for the cluster unless the internal policy is local and nothing comes from outside |
| `Categories.TopologyExactly` | pkg/proxy/topology.go:148-187 | when topology applies, by annotation, zone and hints |
| `Routing.MapIsLatest` | pkg/proxy/endpoints.go:327-369 | if no two services share a port, the map after a sync has exactly the ports of the slices last delivered, each with the list of its endpoints |
| `Routing.DeliveryIsListed` | pkg/proxy/endpointslicecache.go:253-330 | every usable endpoint of every slice last delivered is listed under each named and numbered port of the slice, by address and port, and local if on this node |
| `Routing.ListedWasDelivered` | pkg/proxy/endpointslicecache.go:283-330 | every listed endpoint is ready, serving, terminating, hinted and local as some endpoint of a slice last delivered |
| `Routing.RoutesToLatest` | pkg/proxy/ipvs/proxier.go:888-1034 | after any such run and a sync without failing calls at any point of a virtual server's life, its weight-1 servers are those of the endpoints chosen from the slices last delivered, if and only if it is the first sync or no chosen server had a stale weight |
| `Routing.RoutesOnceRight` | pkg/proxy/ipvs/proxier.go:1412-1563 | that condition holds once the weights have been right at any time of its life |
| `GracefulTermination.GracefulTerminationManager.DeleteRs` | pkg/proxy/ipvs/graceful_termination.go:160-185 | deletes unless a TCP server has connections or a call fails; a missing server counts as deleted |
| `GracefulTermination.GracefulTerminationManager.GracefulDeleteRS` | pkg/proxy/ipvs/graceful_termination.go:137-158 | the server is gone, or listed with weight 0, or unchanged after a failed call |
| `GracefulTermination.GracefulTerminationManager.MoveOut` | pkg/proxy/ipvs/graceful_termination.go:194-205 | the server leaves table and list together or not at all |
| `GracefulTermination.GracefulTerminationManager.TryDeleteRs` | pkg/proxy/ipvs/graceful_termination.go:83-99 | each listed server is flushed, no other is touched; success exactly if no call failed and the kernel had every listed server |
| `EndpointSync.Proxier.SyncEndpoint` | pkg/proxy/ipvs/proxier.go:1412-1563 | where each server ends up, with and without failing calls; nothing happens without an entry |
| `SyncRuns.RunOrderly` | pkg/proxy/ipvs/graceful_termination.go:83-205 | in every run, of virtual servers there from the start and of those added later, whatever fails, every listed server is in the kernel with weight 0 |
| `SyncRuns.WeightsFollowTheList` | pkg/proxy/ipvs/proxier.go:1412-1563 | once the unlisted servers have weight 1, or after a first sync with an entry and no failing call, listed servers have weight 0 and unlisted ones weight 1 for good, whatever fails later |
| `SyncRuns.AddedLater` | pkg/proxy/ipvs/proxier.go:1370-1391 | a virtual server that starts with an empty table, whatever is still listed, has right weights all its life if and only if no sync adds a server that is listed without being in the kernel |
| `SyncRuns.AddedWithNothingListed` | pkg/proxy/ipvs/proxier.go:1370-1391 | with nothing listed at the start its weights are right all its life |
| `SyncRuns.OrderlyAfterSync` | pkg/proxy/ipvs/proxier.go:1481-1561 | after a sync without failing calls listed servers are in the kernel with weight 0 exactly if before it each was in the kernel and had weight 0 or is desired |
| `SyncRuns.LeftoverIsDeleted` | pkg/proxy/ipvs/proxier.go:1499-1529 | a desired server that is listed but not in the kernel is added, stays listed, and the next flush deletes it |
| `SyncRuns.FirstSyncEstablishes` | pkg/proxy/ipvs/proxier.go:1499-1512 | the first sync puts all weights right, whatever they were |
| `SyncRuns.ConvergesUnlessStale` | pkg/proxy/ipvs/proxier.go:1412-1563 | after a sync without failing calls the weight-1 servers are the desired ones, if and only if it is the first or no desired non-terminating server has a stale weight |
| `SyncRuns.StaleWeightStays` | pkg/proxy/ipvs/proxier.go:1435-1440 | a first sync without an entry leaves a weight of 5 in place for good |
| `SyncRuns.BusyServersStay` | pkg/proxy/ipvs/graceful_termination.go:83-205 | a TCP server with connections leaves the kernel only when it is desired again, and stays out only if adding it back fails |
| `SyncRuns.UndesiredLeave` | pkg/proxy/ipvs/graceful_termination.go:160-185 | after a sync without failing calls an undesired server is out of the kernel if and only if it has no TCP connections, active or inactive; otherwise it keeps them at weight 0, listed |
| `SyncRuns.FlushedLeave` | pkg/proxy/ipvs/graceful_termination.go:160-185 | the same for a flush |
| `SyncRuns.DesiredArrive` | pkg/proxy/ipvs/proxier.go:1481-1533 | a desired server is there after it, new or terminating ones without connections at weight 1, others as they were |
| `SyncRuns.EvenIfCallsFail` | pkg/proxy/ipvs/proxier.go:1412-1563 | where a server can end up when calls fail |
| `Cidrs.OverlapIsSharing` | utils/netutil.go:107-158 | testing trimmed bases only tells exactly whether two blocks share an address |
| `CidrAllocation.ValidExactly` | utils/netutil.go:107-116 | a block is aligned and has IPv4 addresses only |
| `CidrAllocation.InsideExactly` | utils/netutil.go:128-150 | a block is inside a network if and only if all its addresses are |
| `CidrAllocation.FindAvailable` | utils/netutil.go:107-151 | the first scanned block that shares no address with an existing one; exhausted, garbage or crash in exactly the other cases |
| `CidrAllocation.FoundIsLowestFree` | utils/netutil.go:128-150 | every lower scanned block shares an address with an existing one |
| `CidrAllocation.InsideIfFree` | utils/netutil.go:128-150 | allocation finds a block inside the network if and only if a scanned block of the network is free |
| `CidrAllocation.FoundInside` | utils/netutil.go:128-150 | any block found lies inside the network exactly under the same condition |
| `CidrAllocation.AllocationSucceeds` | utils/netutil.go:128-150 | with fewer, no larger blocks than scanned and than in the network, allocation succeeds inside the network |
| `CidrAllocation.FullNetworkIsLeft` | utils/netutil.go:128-150 | a full 10.0.0.0/16 hands out 10.1.0.0/18 |
| `CidrAllocation.FindTunnelAvailable` | utils/netutil.go:40-46 | too small exactly beyond length 16; otherwise first fit among blocks 2 bits longer from length 13 on and 4 bits longer below |
| `CidrAllocation.ClustersInTunnel` | utils/netutil.go:68-88 | a tunnel network holds 4 cluster networks from length 13 on and 16 below |
| `CidrAllocation.FindClusterAvailable` | utils/netutil.go:48-54 | too small exactly at length 13 and beyond 18; otherwise first fit among blocks of length 24 beyond 13 and 22 below |
| `CidrAllocation.NodeBlockSize` | utils/netutil.go:89-105 | node blocks have 256 or 1024 addresses |
| `CidrAllocation.ReadableExactly` | utils/netutil.go:130-136 | a block's address has a text exactly if its first octet is not zero and it is an IPv4 address |
| `CidrAllocation.ClusterOfTunnel` | utils/netutil.go:68-105 | a cluster network cut from a tunnel network can be divided unless the tunnel network has length 9 |
| `CidrAllocation.ScanReach` | utils/netutil.go:68-129 | the scan reaches all cluster blocks of a tunnel network, and all node blocks of a cluster network only from length 16 on or at 12 |
| `CidrAllocation.GivesUpIfTaken` | utils/netutil.go:128-151 | where the scan ends within the network it gives up if and only if all scanned blocks are taken |
| `CidrAllocation.GivesUpEarly` | utils/netutil.go:128-151 | where it ends before the network does, it gives up with the scanned blocks taken although the next block of the network is free |
| `NodeCidrs.InnerTunnelController.SpawnNewCIDRForNRIPod` | pkg/controller/tunnels/innertunnel_controller.go:112-132 | the block shares no address with a remembered one and is remembered, as one more entry, if and only if the pod was annotated; blocks handed out stay pairwise disjoint |
| `NodeCidrs.InnerTunnelController.RecycleResources` | pkg/controller/tunnels/innertunnel_controller.go:251 | the result of the removal is dropped, so nothing is forgotten |
| `NodeCidrs.HandOut` | pkg/controller/tunnels/innertunnel_controller.go:112-132 | a block free of all remembered ones is disjoint from all handed out before |

## Left out

- The outer `Reconcile` over address types, the address types of a service, and deletion of slices of types no longer supported: a loop around what is modelled.
- How a pod's ports, addresses and conditions are computed: a pod is given with its ports, node lookup and endpoint.
- `SetNodes` and the CPU ratios: they are given as non-negative numbers per zone.
- float64 rounding in the allocator: shares are real numbers.
- The tracker calls made after each API call: they are the writes and deletion requests of the tracker's runs.
- Metrics, events, trigger times, logging and locks: no bearing on the results. Calls to the server, to the tracker, and the informer's store and handler are steps of their own in the tracker's runs; elsewhere an operation is one step.
- Sharing of slice objects between lists and the informer cache: slices are values.
- MD5 hashing and the formatting of keys: keys are taken to be injective.
- The difference `reflect.DeepEqual` makes between nil and empty sequences inside a slice's cached copy: it can only cause an extra pending entry with the same meaning.
- Sorting of ports and endpoints when a slice enters the proxy cache, and the crash on slices without the two fleetboard labels: a delivery carries the cached copy.
- Detection of stale conntrack entries from endpoint changes.
- ServicePort parsing of cluster addresses: an address is its text.
- The rest of the IPVS proxier (virtual servers, ipsets, sysctls, the dummy device) and parsing of endpoint strings into address and port.
- IPv6 in the block allocator.
- Deletion of virtual servers: a run is the lifetime of one, which may start with servers of a predecessor still listed.
- WireGuard connections, routes, and the peer and pod objects around address allocation.
- Virtual addresses of service imports, mirroring of exports and imports, DNS names, generated code, commands and flags.
