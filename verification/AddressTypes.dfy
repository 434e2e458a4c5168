/**
 Planning the slices of one address type: group by port mapping, reconcile every group, drop the
 groups nobody desires, and make sure at least one slice remains.
 */
module AddressTypes {
  import opened Sequences
  import opened Discovery
  import opened EndpointSets
  import opened Keeping
  import opened PortMapping
  import opened GroupReconciler
  import opened DesiredEndpoints
  import opened Groups
  import opened GroupProgress

  type SlicesByPorts = map<PortMapKey, seq<EndpointSlice>>

  ghost predicate GroupsOf(existing: seq<EndpointSlice>, service: Service, byPorts: SlicesByPorts) {
    && (forall g :: (if g in byPorts then byPorts[g] else []) == Members(existing, service, g))
    && (forall g :: g in byPorts ==> byPorts[g] != [])
  }

  method OwnedBy(s: EndpointSlice, service: Service) returns (owned: bool)
    ensures owned <==> Owns(service, s)
  {
    for i := 0 to |s.owners|
      invariant forall j :: 0 <= j < i ==> s.owners[j] != OwnerReference(service.uid, "Service", "v1")
    {
      if s.owners[i].uid == service.uid && s.owners[i].kind == "Service" && s.owners[i].apiVersion == "v1" {
        return true;
      }
    }
    owned := false;
  }

  lemma GroupsOfSnoc(ss: seq<EndpointSlice>, service: Service, byPorts: SlicesByPorts, s: EndpointSlice)
    requires GroupsOf(ss, service, byPorts)
    ensures !Owns(service, s) ==> GroupsOf(ss + [s], service, byPorts)
    ensures Owns(service, s) ==>
      var g := PortKey(s.ports);
      GroupsOf(ss + [s], service, byPorts[g := (if g in byPorts then byPorts[g] else []) + [s]])
  {
    assert (ss + [s])[..|ss|] == ss;
    if Owns(service, s) {
      var h := PortKey(s.ports);
      var byPorts' := byPorts[h := (if h in byPorts then byPorts[h] else []) + [s]];
      forall g ensures (if g in byPorts' then byPorts'[g] else []) == Members(ss + [s], service, g) {
        assert (if g in byPorts then byPorts[g] else []) == Members(ss, service, g);
      }
    } else {
      forall g ensures (if g in byPorts then byPorts[g] else []) == Members(ss + [s], service, g) {
        assert (if g in byPorts then byPorts[g] else []) == Members(ss, service, g);
      }
    }
  }

  method GroupExisting(existing: seq<EndpointSlice>, service: Service) returns (byPorts: SlicesByPorts, foreign: seq<EndpointSlice>)
    ensures GroupsOf(existing, service, byPorts) && foreign == Unowned(existing, service)
  {
    byPorts, foreign := map[], [];
    for i := 0 to |existing|
      invariant GroupsOf(existing[..i], service, byPorts) && foreign == Unowned(existing[..i], service)
    {
      var s := existing[i];
      GroupsOfSnoc(existing[..i], service, byPorts, s);
      PrefixStep(existing, i);
      var owned := OwnedBy(s, service);
      if owned {
        var g := PortKey(s.ports);
        byPorts := byPorts[g := (if g in byPorts then byPorts[g] else []) + [s]];
      } else {
        foreign := foreign + [s];
      }
    }
    WholePrefix(existing);
  }

  // Only slices with endpoints are deleted in a desired group.
  lemma DeletedHadEndpoints(ms: seq<EndpointSlice>, d: Desired, service: Service, managedBy: string, max: nat, q: Plan, j: nat)
    requires j < |ms| && ms[j].name in Names(q.delete)
    requires SlicePacked(ms, j, VerdictOn(ms, j, d, service, managedBy), q.create, q.update, q.delete, max)
    ensures ms[j].endpoints != []
  {
  }

  lemma ReconciledSpares(ms: seq<EndpointSlice>, d: Desired, service: Service, managedBy: string, max: nat, q: Plan)
    requires forall t :: t in q.delete ==> t in ms
    requires Packed(ms, Verdicts(ms, d, service, managedBy), q.create, q.update, q.delete, max)
    ensures forall i :: 0 <= i < |q.delete| ==> q.delete[i].endpoints != []
  {
    forall i | 0 <= i < |q.delete| ensures q.delete[i].endpoints != [] {
      assert q.delete[i] in ms;
      var j :| 0 <= j < |ms| && ms[j] == q.delete[i];
      DeletedHadEndpoints(ms, d, service, managedBy, max, q, j);
    }
  }

  lemma ReconciledCreates(ms: seq<EndpointSlice>, service: Service, managedBy: string, meta: EndpointMeta, q: Plan)
    requires WellNamed(ms, NewEndpointSlice(service, meta, managedBy), q.create, q.update, q.delete)
    ensures Consistent(ms, q) && CreatesIn(q, service, meta.addressType, {PortKey(meta.ports)})
  {
    var blank := NewEndpointSlice(service, meta, managedBy);
    assert blank.owners[0] == OwnerReference(service.uid, "Service", "v1");
    forall i | 0 <= i < |q.create|
      ensures Owns(service, q.create[i]) && q.create[i].ports == meta.ports && q.create[i].name == Unset
      ensures q.create[i].addressType == meta.addressType && q.create[i].endpoints != []
    {
      assert q.create[i] in q.create;
      assert q.create[i].owners == blank.owners;
    }
  }

  // What reconciling one desired group yields is a plan for that group.
  lemma ReconciledGroupPlan(ms: seq<EndpointSlice>, d: DesiredByPorts, service: Service, managedBy: string, meta: EndpointMeta, max: nat,
                            q: Plan, numAdded: int, numRemoved: int)
    requires PortKey(meta.ports) in d
    requires Reconciled(ms, d[PortKey(meta.ports)], service, managedBy, meta, max, q.create, q.update, q.delete, numAdded, numRemoved)
    ensures GroupPlan(ms, service, meta.addressType, PortKey(meta.ports), d, q)
  {
    ReconciledCreates(ms, service, managedBy, meta, q);
    ReconciledSpares(ms, d[PortKey(meta.ports)], service, managedBy, max, q);
  }

  lemma ReconciledBranded(ms: seq<EndpointSlice>, service: Service, managedBy: string, meta: EndpointMeta, addressType: AddressType, q: Plan)
    requires WellNamed(ms, NewEndpointSlice(service, meta, managedBy), q.create, q.update, q.delete)
    ensures Branded(q.create, NewEndpointSlice(service, EndpointMeta([], addressType), managedBy))
  {
    forall i | 0 <= i < |q.create|
      ensures var blank := NewEndpointSlice(service, EndpointMeta([], addressType), managedBy);
        q.create[i].namespace == blank.namespace && q.create[i].labels == blank.labels && q.create[i].owners == blank.owners
    {
      CreatedFor(ms, service, managedBy, meta, q.create, q.update, q.delete, q.create[i]);
    }
  }

  method ReconcileDesiredGroups(service: Service, managedBy: string, max: nat, addressType: AddressType, existing: seq<EndpointSlice>,
                                byPorts: SlicesByPorts, desired: DesiredByPorts, ports: map<PortMapKey, seq<EndpointPort>>,
                                foreign: seq<EndpointSlice>)
    returns (p: Plan)
    requires max >= 1 && DistinctNames(existing) && GroupsOf(existing, service, byPorts) && foreign == Unowned(existing, service)
    requires KeyedGroups(desired) && PortsFor(desired, ports)
    ensures Progress(existing, service, addressType, desired, desired.Keys, p)
    ensures AllSettled(existing, service, desired) ==> p == Plan([], [], foreign)
    ensures Branded(p.create, NewEndpointSlice(service, EndpointMeta([], addressType), managedBy))
  {
    p := Plan([], [], foreign);
    StartProgress(existing, service, addressType, desired);
    var rest := desired.Keys;
    ghost var done: set<PortMapKey> := {};
    while rest != {}
      invariant done + rest == desired.Keys && done !! rest
      invariant Progress(existing, service, addressType, desired, done, p)
      invariant AllSettled(existing, service, desired) ==> p == Plan([], [], foreign)
      invariant Branded(p.create, NewEndpointSlice(service, EndpointMeta([], addressType), managedBy))
      decreases rest
    {
      var g :| g in rest;
      var q := ReconcileOne(service, managedBy, max, addressType, existing, byPorts, desired, ports, g);
      MoveOver(done, rest, desired.Keys, g);
      JoinProgress(existing, service, addressType, desired, done, p, g, q);
      rest, done, p := rest - {g}, done + {g}, Join(p, q);
    }
  }

  // The set that holds the endpoints of a group.
  method SetOf(d: Desired) returns (endpoints: EndpointSet)
    requires KeyedByKey(d)
    ensures fresh(endpoints) && endpoints.Valid() && endpoints.items == d
  {
    endpoints := new EndpointSet();
    ghost var done: Desired := map[];
    var rest := d.Keys;
    while rest != {}
      invariant fresh(endpoints) && endpoints.Valid() && endpoints.items == done && Remaining(d, done, rest)
      decreases rest
    {
      var k :| k in rest;
      RemainingStep(d, done, rest, k);
      endpoints.Insert(d[k]);
      rest, done := rest - {k}, done[k := d[k]];
    }
    RemainingNone(d, done);
  }

  method ReconcileOne(service: Service, managedBy: string, max: nat, addressType: AddressType, existing: seq<EndpointSlice>,
                      byPorts: SlicesByPorts, desired: DesiredByPorts, ports: map<PortMapKey, seq<EndpointPort>>, g: PortMapKey)
    returns (q: Plan)
    requires max >= 1 && DistinctNames(existing) && GroupsOf(existing, service, byPorts)
    requires KeyedGroups(desired) && PortsFor(desired, ports) && g in desired
    ensures GroupPlan(Members(existing, service, g), service, addressType, g, desired, q)
    ensures Settled(Members(existing, service, g), desired[g], service) ==> q == Plan([], [], [])
    ensures Branded(q.create, NewEndpointSlice(service, EndpointMeta([], addressType), managedBy))
  {
    var members := if g in byPorts then byPorts[g] else [];
    assert members == Members(existing, service, g);
    MembersDistinct(existing, service, g);
    var endpoints := SetOf(desired[g]);
    var meta := EndpointMeta(ports[g], addressType);
    var create, update, delete, added, removed := ReconcileByPortMapping(service, managedBy, max, members, endpoints, meta);
    q := Plan(create, update, delete);
    ReconciledGroupPlan(members, desired, service, managedBy, meta, max, q, added, removed);
    ReconciledBranded(members, service, managedBy, meta, addressType, q);
  }

  lemma DropStep(existing: seq<EndpointSlice>, service: Service, addressType: AddressType, desired: DesiredByPorts,
                 byPorts: SlicesByPorts, done: set<PortMapKey>, p: Plan, g: PortMapKey)
    requires DistinctNames(existing) && GroupsOf(existing, service, byPorts) && g in byPorts && g !in desired && g !in done
    requires Progress(existing, service, addressType, desired, done, p)
    ensures Progress(existing, service, addressType, desired, done + {g}, Join(p, Plan([], [], byPorts[g])))
  {
    assert byPorts[g] == Members(existing, service, g);
    MembersDistinct(existing, service, g);
    forall i | 0 <= i < |byPorts[g]| ensures PortKey(byPorts[g][i].ports) == g {
      MembersIn(existing, service, g, i);
    }
    DropGroup(byPorts[g], service, addressType, g, desired);
    JoinProgress(existing, service, addressType, desired, done, p, g, Plan([], [], byPorts[g]));
  }

  // If there are port mappings that are no longer desired, their slices are deleted.
  method DropUndesired(service: Service, addressType: AddressType, existing: seq<EndpointSlice>, byPorts: SlicesByPorts,
                       desired: DesiredByPorts, p: Plan) returns (p': Plan)
    requires DistinctNames(existing) && GroupsOf(existing, service, byPorts)
    requires Progress(existing, service, addressType, desired, desired.Keys, p)
    ensures Progress(existing, service, addressType, desired, desired.Keys + byPorts.Keys, p')
    ensures p'.create == p.create && p'.update == p.update && (byPorts.Keys <= desired.Keys ==> p' == p)
  {
    p' := p;
    var rest := byPorts.Keys - desired.Keys;
    ghost var done := desired.Keys;
    while rest != {}
      invariant done + rest == desired.Keys + byPorts.Keys && done !! rest && rest <= byPorts.Keys
      invariant Progress(existing, service, addressType, desired, done, p') && desired.Keys <= done
      invariant p'.create == p.create && p'.update == p.update && (byPorts.Keys <= desired.Keys ==> p' == p && rest == {})
      decreases rest
    {
      var g :| g in rest;
      MoveOver(done, rest, desired.Keys + byPorts.Keys, g);
      DropStep(existing, service, addressType, desired, byPorts, done, p', g);
      rest, done, p' := rest - {g}, done + {g}, Join(p', Plan([], [], byPorts[g]));
    }
    assert done == desired.Keys + byPorts.Keys;
  }
}
