/**
 Reconciling all slices of one address type of a service, from its pods to the API server.
 */
module Reconcilers {
  import opened Discovery
  import opened PortMapping
  import opened DesiredEndpoints
  import opened Groups
  import opened GroupProgress
  import opened AddressTypes
  import opened Placeholders
  import opened HintedPlans
  import opened ApiServers
  import opened Finalizing
  import opened Idempotence
  import opened CarryingOut
  import opened Hints
  import opened HintBalance
  import Topology = TopologyCache

  // Once the calls succeeded: the server holds `after` in place of the service's slices of this
  // address type, every port mapping has exactly its desired endpoints, each once, up to date and under
  // the service's labels, and at least one slice remains.
  ghost predicate EndToEnd(was: Table, now: Table, existing: seq<EndpointSlice>, service: Service, placeholder: EndpointSlice,
                           d: DesiredByPorts, after: seq<EndpointSlice>) {
    && Carried(was, now, existing, after) && Stable(after, service, placeholder, d)
    && (forall g :: EndpointsSettled(Members(after, service, g), Want(d, g)))
    && (OwnedSurvivor(after, service) <==> !StrayPlaceholder(existing, service, placeholder, d))
  }

  lemma FinishedEndToEnd(was: Table, now: Table, existing: seq<EndpointSlice>, service: Service, addressType: AddressType,
                         placeholder: EndpointSlice, d: DesiredByPorts, p: Plan, r: Run)
    requires FinishedRun(was, now, existing, p, r) && |r.made| == |r.q.create| && placeholder.endpoints == []
    requires Planned(existing, service, addressType, d, p) && Stable(Outcome(existing, p), service, placeholder, d)
    requires OwnedSurvivor(Outcome(existing, p), service) <==> !StrayPlaceholder(existing, service, placeholder, d)
    ensures EndToEnd(was, now, existing, service, placeholder, d, Survivors(existing, p, r))
  {
    var after := Survivors(existing, p, r);
    RunCarried(was, now, existing, p, r);
    RunOutcome(existing, p, r);
    RenamedIsAlike(Outcome(existing, p), after);
    forall g ensures EndpointsSettled(Members(after, service, g), Want(d, g)) {
      AlikeSettledGroup(Outcome(existing, p), after, service, g, Want(d, g));
    }
    AlikeStable(Outcome(existing, p), after, service, placeholder, d);
    AlikeOwned(Outcome(existing, p), after, service);
  }

  // Whether topology hints are wanted, and with which shares of the CPU by zone.
  datatype HintMode = HintsOff | HintsOn(cpuRatios: Option<map<Zone, real>>)

  // The hints of the slices need no change.
  ghost predicate HintsSettled(mode: HintMode, ss: seq<EndpointSlice>) {
    if mode.HintsOff? then NoneHinted(ss) else HintsStand(mode.cpuRatios, ss)
  }

  // A pass over the slices `existing` that planned p and got as far as r says.
  datatype Pass = Pass(existing: seq<EndpointSlice>, mode: HintMode, status: Status, p: Plan, r: Run)

  // What a pass leaves: never more than its own slices changed and no name written twice; if it finished, the
  // desired state; and if that was there before, something is written exactly if the hints do not stand.
  ghost predicate Passed(was: Table, now: Table, before: seq<Name>, log: seq<Name>, service: Service, addressType: AddressType,
                         placeholder: EndpointSlice, d: DesiredByPorts, x: Pass) {
    && Respects(was, now, x.existing, x.p, service, addressType) && Logged(was, now, before, log, x.r)
    && (Mirrored(x.existing, was) ==> DistinctNames(Writes(x.r)) && NewBranded(was, now, placeholder))
    && (x.status.Finished? && !service.terminating ==> Arrived(was, now, service, placeholder, d, x))
    && (Stable(x.existing, service, placeholder, d) ==> (x.p == Plan([], [], []) <==> HintsSettled(x.mode, x.existing)))
    && (x.p == Plan([], [], []) ==> now == was && log == before)
    && (x.p != Plan([], [], []) && x.status.Finished? && !service.terminating ==> log != before)
  }

  ghost predicate Arrived(was: Table, now: Table, service: Service, placeholder: EndpointSlice, d: DesiredByPorts, x: Pass) {
    var after := Survivors(x.existing, x.p, x.r);
    && (x.mode.HintsOff? ==> NoneHinted(after))
    && (Mirrored(x.existing, was) ==> EndToEnd(was, now, x.existing, service, placeholder, d, after))
  }

  // After a pass without failing calls, a second pass over what the first left, listed in any order, makes no API call
  // exactly if the hints it left stand.
  lemma SecondPass(was: Table, mid: Table, now: Table, log0: seq<Name>, log1: seq<Name>, log2: seq<Name>,
                   service: Service, addressType: AddressType, placeholder: EndpointSlice, d: DesiredByPorts, x: Pass, y: Pass)
    requires Passed(was, mid, log0, log1, service, addressType, placeholder, d, x) && Mirrored(x.existing, was)
    requires x.status.Finished? && !service.terminating
    requires multiset(y.existing) == multiset(Survivors(x.existing, x.p, x.r))
    requires Passed(mid, now, log1, log2, service, addressType, placeholder, d, y)
    ensures y.p == Plan([], [], []) <==> HintsSettled(y.mode, Survivors(x.existing, x.p, x.r))
    ensures HintsSettled(y.mode, Survivors(x.existing, x.p, x.r)) ==> now == mid && log2 == log1
    ensures !HintsSettled(y.mode, Survivors(x.existing, x.p, x.r)) && y.status.Finished? ==> log2 != log1
  {
    StablePermuted(Survivors(x.existing, x.p, x.r), y.existing, service, placeholder, d);
    HintsSettledPermuted(y.mode, Survivors(x.existing, x.p, x.r), y.existing);
  }

  lemma HintsSettledPermuted(mode: HintMode, ss: seq<EndpointSlice>, ts: seq<EndpointSlice>)
    requires multiset(ss) == multiset(ts)
    ensures HintsSettled(mode, ss) <==> HintsSettled(mode, ts)
  {
    if mode.HintsOff? {
      if NoneHinted(ss) {
        UnhintedPermuted(ss, ts);
      }
      if NoneHinted(ts) {
        UnhintedPermuted(ts, ss);
      }
    } else {
      if HintsStand(mode.cpuRatios, ss) {
        StandPermuted(mode.cpuRatios, ss, ts);
      }
      if HintsStand(mode.cpuRatios, ts) {
        StandPermuted(mode.cpuRatios, ts, ss);
      }
    }
  }

  // In particular it makes none if hints are off.
  lemma SecondPassIsQuiet(was: Table, mid: Table, now: Table, log0: seq<Name>, log1: seq<Name>, log2: seq<Name>,
                          service: Service, addressType: AddressType, placeholder: EndpointSlice, d: DesiredByPorts, x: Pass, y: Pass)
    requires Passed(was, mid, log0, log1, service, addressType, placeholder, d, x) && Mirrored(x.existing, was)
    requires x.status.Finished? && !service.terminating && x.mode.HintsOff? && y.mode.HintsOff?
    requires multiset(y.existing) == multiset(Survivors(x.existing, x.p, x.r))
    requires Passed(mid, now, log1, log2, service, addressType, placeholder, d, y)
    ensures now == mid && log2 == log1
  {
    SecondPass(was, mid, now, log0, log1, log2, service, addressType, placeholder, d, x, y);
  }

  // A plan that leaves stable slices, carried out, passes.
  lemma RunPasses(was: Table, now: Table, before: seq<Name>, log: seq<Name>, service: Service, addressType: AddressType,
                  placeholder: EndpointSlice, d: DesiredByPorts, x: Pass)
    requires DistinctNames(x.existing) && Planned(x.existing, service, addressType, d, x.p) && placeholder.endpoints == []
    requires Stable(Outcome(x.existing, x.p), service, placeholder, d)
    requires OwnedSurvivor(Outcome(x.existing, x.p), service) <==> !StrayPlaceholder(x.existing, service, placeholder, d)
    requires Logged(was, now, before, log, x.r) && Converting(x.p, x.r.q, x.r.reused, service, addressType)
    requires x.status.Finished? && !service.terminating ==>
      |x.r.made| == |x.r.q.create| && x.r.updated == |x.r.q.update| && x.r.deleted == |x.r.q.delete|
    requires x.mode.HintsOff? ==> NoneHinted(Outcome(x.existing, x.p))
    requires Branded(x.p.create, placeholder) && placeholder.addressType == addressType
    requires Stable(x.existing, service, placeholder, d) ==> (x.p == Plan([], [], []) <==> HintsSettled(x.mode, x.existing))
    ensures Passed(was, now, before, log, service, addressType, placeholder, d, x)
  {
    RunRespects(was, now, x.existing, x.p, x.r, service, addressType);
    if Mirrored(x.existing, was) {
      WritesDistinct(was, now, x.existing, x.p, x.r);
      RunBrands(was, now, x.existing, x.p, x.r, service, placeholder);
    }
    if x.p == Plan([], [], []) {
      EmptyRun(was, now, before, log, x.r, service, addressType);
    }
    if x.status.Finished? && !service.terminating {
      if x.p != Plan([], [], []) {
        NonemptyRun(was, now, before, log, x.p, x.r);
      }
      RunArrives(was, now, service, addressType, placeholder, d, x);
    }
  }

  lemma RunArrives(was: Table, now: Table, service: Service, addressType: AddressType, placeholder: EndpointSlice, d: DesiredByPorts, x: Pass)
    requires DistinctNames(x.existing) && Planned(x.existing, service, addressType, d, x.p) && placeholder.endpoints == []
    requires Stable(Outcome(x.existing, x.p), service, placeholder, d)
    requires OwnedSurvivor(Outcome(x.existing, x.p), service) <==> !StrayPlaceholder(x.existing, service, placeholder, d)
    requires Ran(was, now, x.r) && Converting(x.p, x.r.q, x.r.reused, service, addressType)
    requires |x.r.made| == |x.r.q.create| && x.r.updated == |x.r.q.update| && x.r.deleted == |x.r.q.delete|
    requires x.mode.HintsOff? ==> NoneHinted(Outcome(x.existing, x.p))
    ensures Arrived(was, now, service, placeholder, d, x)
  {
    RunOutcome(x.existing, x.p, x.r);
    if Mirrored(x.existing, was) {
      FinishedEndToEnd(was, now, x.existing, service, addressType, placeholder, d, x.p, x.r);
    }
  }

  // Slices that are all owned and desired leave nothing to delete.
  lemma NothingElse(existing: seq<EndpointSlice>, service: Service, d: DesiredByPorts, byPorts: SlicesByPorts)
    requires GroupsOf(existing, service, byPorts) && AllDesired(existing, service, d)
    ensures Unowned(existing, service) == [] && byPorts.Keys <= d.Keys
  {
    UnownedNone(existing, service);
    forall g | g in byPorts ensures g in d {
      MembersIn(existing, service, g, 0);
    }
  }

  lemma QuietPlan(existing: seq<EndpointSlice>, service: Service, d: DesiredByPorts, byPorts: SlicesByPorts, foreign: seq<EndpointSlice>,
                  groups: Plan, p: Plan)
    requires GroupsOf(existing, service, byPorts) && foreign == Unowned(existing, service)
    requires AllSettled(existing, service, d) ==> groups == Plan([], [], foreign)
    requires p.create == groups.create && p.update == groups.update && (byPorts.Keys <= d.Keys ==> p == groups)
    ensures Quiet(existing, service, d, p)
  {
    if AllDesired(existing, service, d) {
      NothingElse(existing, service, d, byPorts);
    }
  }

  class Reconciler {
    const api: ApiServer
    const topologyCache: Topology.TopologyCache?
    const maxEndpointsPerSlice: nat
    const managedBy: string

    ghost predicate Valid()
      reads this, api, topologyCache
    {
      && api.Valid() && maxEndpointsPerSlice >= 1
      && (topologyCache != null ==> topologyCache.Valid())
    }

    constructor (api: ApiServer, topologyCache: Topology.TopologyCache?, maxEndpointsPerSlice: nat, managedBy: string)
      requires api.Valid() && maxEndpointsPerSlice >= 1 && (topologyCache != null ==> topologyCache.Valid())
      ensures Valid() && this.api == api && this.topologyCache == topologyCache
      ensures this.maxEndpointsPerSlice == maxEndpointsPerSlice && this.managedBy == managedBy
    {
      this.api, this.topologyCache := api, topologyCache;
      this.maxEndpointsPerSlice, this.managedBy := maxEndpointsPerSlice, managedBy;
    }

    function Placeholder(service: Service, addressType: AddressType): EndpointSlice {
      NewEndpointSlice(service, EndpointMeta([], addressType), managedBy)
    }

    // The changes for all groups, the placeholder included.
    method PlanSlices(service: Service, addressType: AddressType, existing: seq<EndpointSlice>,
                      desired: DesiredByPorts, ports: map<PortMapKey, seq<EndpointPort>>) returns (p: Plan)
      requires maxEndpointsPerSlice >= 1 && DistinctNames(existing) && KeyedGroups(desired) && PortsFor(desired, ports)
      ensures Planned(existing, service, addressType, desired, p)
      ensures Stable(Outcome(existing, p), service, Placeholder(service, addressType), desired)
      ensures Stable(existing, service, Placeholder(service, addressType), desired) ==> p == Plan([], [], [])
      ensures Branded(p.create, Placeholder(service, addressType))
      ensures OwnedSurvivor(Outcome(existing, p), service) <==>
        !StrayPlaceholder(existing, service, Placeholder(service, addressType), desired)
    {
      var byPorts, foreign := GroupExisting(existing, service);
      var groups := ReconcileDesiredGroups(service, managedBy, maxEndpointsPerSlice, addressType, existing, byPorts, desired, ports, foreign);
      p := DropUndesired(service, addressType, existing, byPorts, desired, groups);
      ghost var done := desired.Keys + byPorts.Keys;
      QuietPlan(existing, service, desired, byPorts, foreign, groups, p);
      p := EnsurePlaceholder(existing, service, addressType, managedBy, desired, done, p);
    }

    // Adds topology hints, or takes them all away if they are not wanted.
    method ApplyHints(service: Service, addressType: AddressType, hintsEnabled: bool, existing: seq<EndpointSlice>, p: Plan)
      returns (q: Plan, ghost moved: seq<EndpointSlice>)
      requires topologyCache != null ==> topologyCache.Valid()
      modifies topologyCache
      ensures topologyCache != null ==> topologyCache.Valid()
      ensures HintsWritten(existing, p, q, moved)
      ensures old(Mode(hintsEnabled)).HintsOff? ==> NoneHinted(Outcome(existing, q))
      ensures p == Plan([], [], []) ==> (q == p <==> HintsSettled(old(Mode(hintsEnabled)), existing))
    {
      UnnamedAll(existing);
      assert Names([]) + Names([]) == {};
      ghost var mode := Mode(hintsEnabled);
      var same := UnchangedSlices(existing, p.update, p.delete);
      var si := new Topology.SliceInfo(service.namespace + "/" + service.name, addressType, p.create, p.update, same);
      if topologyCache != null && hintsEnabled {
        var event;
        ghost var zones, x;
        event, moved, zones, x := topologyCache.AddHints(si);
        q := Plan(si.toCreate, si.toUpdate, p.delete);
        if p == Plan([], [], []) {
          OnlyTakenUp(existing, q, si.untouched, moved);
          ClearedUntouched(si.toCreate, si.toUpdate, si.untouched);
          NothingTakenUp(mode.cpuRatios, existing, si.untouched, moved);
        }
      } else {
        if topologyCache != null {
          topologyCache.RemoveHints(si.serviceKey, addressType);
        }
        moved := Topology.RemoveHintsFromSlices(si);
        q := Plan(si.toCreate, si.toUpdate, p.delete);
        NoneHintedParts(si.toCreate, si.toUpdate, si.untouched);
        StrippedOutcome(existing, p, q, si.untouched, moved);
        if p == Plan([], [], []) {
          OnlyTakenUp(existing, q, si.untouched, moved);
          NoHintsMoved(existing, si.untouched, moved);
        }
      }
    }

    function Mode(hintsEnabled: bool): HintMode
      reads topologyCache
    {
      if topologyCache == null || !hintsEnabled then HintsOff else HintsOn(topologyCache.cpuRatiosByZone)
    }

    // The changes for all groups, with topology hints added or removed.
    method PlanWithHints(service: Service, addressType: AddressType, hintsEnabled: bool, existing: seq<EndpointSlice>,
                         desired: DesiredByPorts, ports: map<PortMapKey, seq<EndpointPort>>) returns (p: Plan)
      requires maxEndpointsPerSlice >= 1 && (topologyCache != null ==> topologyCache.Valid())
      requires DistinctNames(existing) && KeyedGroups(desired) && PortsFor(desired, ports)
      modifies topologyCache
      ensures topologyCache != null ==> topologyCache.Valid()
      ensures Placeholder(service, addressType).endpoints == [] && Planned(existing, service, addressType, desired, p)
      ensures Stable(Outcome(existing, p), service, Placeholder(service, addressType), desired)
      ensures OwnedSurvivor(Outcome(existing, p), service) <==>
        !StrayPlaceholder(existing, service, Placeholder(service, addressType), desired)
      ensures old(Mode(hintsEnabled)).HintsOff? ==> NoneHinted(Outcome(existing, p))
      ensures Branded(p.create, Placeholder(service, addressType))
      ensures Stable(existing, service, Placeholder(service, addressType), desired) ==>
        (p == Plan([], [], []) <==> HintsSettled(old(Mode(hintsEnabled)), existing))
    {
      var planned := PlanSlices(service, addressType, existing, desired, ports);
      ghost var moved;
      p, moved := ApplyHints(service, addressType, hintsEnabled, existing, planned);
      BlankPlaceholder(service, addressType, managedBy);
      HintedPass(existing, service, addressType, Placeholder(service, addressType), desired, planned, p, moved);
      HintedBranded(existing, planned, p, moved, Placeholder(service, addressType));
    }

    // Creates, updates and deletes slices so that the published pods are represented by endpoints.
    method ReconcileByAddressType(service: Service, pods: seq<Pod>, existing: seq<EndpointSlice>, addressType: AddressType, hintsEnabled: bool)
      returns (ok: bool, skipped: bool, status: Status, ghost x: Pass)
      requires Valid() && DistinctNames(existing)
      modifies api, topologyCache
      ensures Valid() && (!ok <==> exists i :: 0 <= i < |pods| && pods[i].inEndpoints && pods[i].node == LookupFailed)
      ensures !ok ==> api.slices == old(api.slices) && api.log == old(api.log)
      ensures ok ==> (skipped <==> exists i :: 0 <= i < |pods| && pods[i].inEndpoints && pods[i].node == NotFound
                                               && !service.publishNotReadyAddresses)
      ensures ok ==> api.failures == old(api.failures) + FailureOf(status)
      ensures ok ==> x.existing == existing && x.mode == old(Mode(hintsEnabled)) && x.status == status
      ensures ok ==> Passed(old(api.slices), api.slices, old(api.log), api.log, service, addressType, Placeholder(service, addressType),
                            DesiredFrom(pods, service.publishNotReadyAddresses), x)
    {
      var desired, ports;
      ghost var mode := Mode(hintsEnabled);
      status := Failed;
      ok, desired, ports, skipped := BuildDesired(pods, service.publishNotReadyAddresses);
      x := Pass(existing, mode, Failed, Plan([], [], []), Run(Plan([], [], []), [], [], 0, 0));
      if !ok {
        return;
      }
      DesiredIsKeyed(pods, service.publishNotReadyAddresses);
      var plan := PlanWithHints(service, addressType, hintsEnabled, existing, desired, ports);
      ghost var was, before := api.slices, api.log;
      ghost var r;
      status, r := Finalize(api, service, addressType, plan, existing);
      x := Pass(existing, mode, status, plan, r);
      RunPasses(was, api.slices, before, api.log, service, addressType, Placeholder(service, addressType), desired, x);
    }
  }

  lemma ClearedUntouched(create: seq<EndpointSlice>, update: seq<EndpointSlice>, same: seq<EndpointSlice>)
    ensures NoneHinted(create + update + same) ==> NoneHinted(same)
  {
    if NoneHinted(create + update + same) {
      NoneHintedParts(create, update, same);
    }
  }

  lemma NoneHintedParts(create: seq<EndpointSlice>, update: seq<EndpointSlice>, same: seq<EndpointSlice>)
    requires NoneHinted(create + update + same)
    ensures NoneHinted(create) && NoneHinted(update) && NoneHinted(same)
  {
    var all := create + update + same;
    assert forall i :: 0 <= i < |create| ==> create[i] == all[i];
    assert forall i :: 0 <= i < |update| ==> update[i] == all[|create| + i];
    assert forall i :: 0 <= i < |same| ==> same[i] == all[|create| + |update| + i];
  }

  // The hints pass keeps a stable outcome stable.
  lemma HintedPass(existing: seq<EndpointSlice>, service: Service, addressType: AddressType, placeholder: EndpointSlice, d: DesiredByPorts,
                   p: Plan, q: Plan, moved: seq<EndpointSlice>)
    requires DistinctNames(existing) && Planned(existing, service, addressType, d, p) && HintsWritten(existing, p, q, moved)
    requires placeholder.endpoints == [] && Stable(Outcome(existing, p), service, placeholder, d)
    ensures Planned(existing, service, addressType, d, q) && Stable(Outcome(existing, q), service, placeholder, d)
    ensures OwnedSurvivor(Outcome(existing, q), service) <==> OwnedSurvivor(Outcome(existing, p), service)
  {
    HintedPlanned(existing, service, addressType, d, p, q, moved);
    AlikeStable(Outcome(existing, p), Outcome(existing, q), service, placeholder, d);
    AlikeOwned(Outcome(existing, p), Outcome(existing, q), service);
  }
}
