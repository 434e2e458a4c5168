/**
 The placeholder: a service keeps one empty slice when no other slice would remain.
 */
module Placeholders {
  import opened Sequences
  import opened Discovery
  import opened SliceLabels
  import opened Keeping
  import opened PortMapping
  import opened DesiredEndpoints
  import opened Groups
  import opened GroupProgress

  // A missing label counts as an empty one.
  function LabelOf(labels: map<string, string>, k: string): string {
    if k in labels then labels[k] else ""
  }

  predicate LabelsIn(a: map<string, string>, b: map<string, string>) {
    forall k :: k in a ==> LabelOf(b, k) == a[k]
  }

  // Owners and names are not compared.
  predicate PlaceholderEqual(a: EndpointSlice, b: EndpointSlice) {
    && a.namespace == b.namespace && LabelsIn(a.labels, b.labels) && LabelsIn(b.labels, a.labels)
    && a.ports == b.ports && a.addressType == b.addressType && a.endpoints == b.endpoints
  }

  // A plan for the address type: carried out, every group holds exactly its desired endpoints.
  ghost predicate Planned(existing: seq<EndpointSlice>, service: Service, addressType: AddressType, d: DesiredByPorts, p: Plan) {
    && Consistent(existing, p) && CreatesOwned(p, service, addressType)
    && (forall g :: EndpointsSettled(Members(Outcome(existing, p), service, g), Want(d, g)))
  }

  ghost predicate CreatesOwned(p: Plan, service: Service, addressType: AddressType) {
    forall i :: 0 <= i < |p.create| ==>
      Owns(service, p.create[i]) && p.create[i].name == Unset && p.create[i].addressType == addressType
  }

  /* Counting names */

  lemma {:induction false} DistinctCount(ss: seq<EndpointSlice>)
    requires DistinctNames(ss)
    ensures |Names(ss)| == |ss|
  {
    if ss != [] {
      var n := |ss| - 1;
      DistinctCount(ss[..n]);
      NamesConcat(ss[..n], [ss[n]]);
      assert ss == ss[..n] + [ss[n]];
      assert Names([ss[n]]) == {ss[n].name} by {
        assert [ss[n]][0].name == ss[n].name;
      }
      assert ss[n].name !in Names(ss[..n]);
    }
  }

  lemma EqualSize<T>(a: set<T>, b: set<T>)
    requires a <= b && |a| == |b|
    ensures a == b
  {
    assert b == a + (b - a);
  }

  // The plan deletes as many slices as there are exactly if it deletes them all.
  lemma AllDeleted(existing: seq<EndpointSlice>, p: Plan)
    requires DistinctNames(existing) && Consistent(existing, p)
    ensures |existing| == |p.delete| <==> Names(existing) <= Names(p.delete)
  {
    PlanNames(existing, p);
    DistinctCount(existing);
    DistinctCount(p.delete);
    if |existing| == |p.delete| {
      EqualSize(Names(p.delete), Names(existing));
    } else {
      assert Names(p.delete) != Names(existing);
    }
  }

  lemma NoNames(ss: seq<EndpointSlice>)
    ensures ss != [] ==> Names(ss) != {}
  {
    if ss != [] {
      assert ss[0].name in Names(ss);
    }
  }

  lemma {:induction false} AppliedKeeps(ss: seq<EndpointSlice>, update: seq<EndpointSlice>, delete: seq<EndpointSlice>, i: nat)
    requires i < |ss| && ss[i].name !in Names(delete)
    ensures Resolve(update, ss[i]) in Applied(ss, update, delete)
  {
    var n := |ss| - 1;
    if i < n {
      AppliedKeeps(ss[..n], update, delete, i);
    }
  }

  /* Groups outside the plan are empty on both sides */

  lemma ProgressIsPlanned(existing: seq<EndpointSlice>, service: Service, addressType: AddressType, d: DesiredByPorts,
                          done: set<PortMapKey>, p: Plan)
    requires Progress(existing, service, addressType, d, done, p) && d.Keys <= done
    requires forall g :: g !in done ==> Members(existing, service, g) == []
    ensures Planned(existing, service, addressType, d, p)
  {
    forall g ensures EndpointsSettled(Members(Outcome(existing, p), service, g), Want(d, g)) {
      if g in done {
        GroupSettledEndpoints(Members(Outcome(existing, p), service, g), service, d, g);
      } else {
        OutcomeMembers(existing, p, service, g);
        CreatesMembers(p, service, addressType, done, g);
      }
    }
  }

  /* Adding or keeping the placeholder */

  lemma SettledEmpty(ss: seq<EndpointSlice>, d: Desired, s: EndpointSlice)
    requires EndpointsSettled(ss, d) && s.endpoints == []
    ensures EndpointsSettled(ss + [s], d)
  {
    forall k ensures Occurrences(ss + [s], k) == Indicator(k in d) {
      OccurrencesSnoc(ss, s, k);
    }
  }

  lemma PlaceholderAdded(existing: seq<EndpointSlice>, service: Service, addressType: AddressType, d: DesiredByPorts, p: Plan, s: EndpointSlice)
    requires Planned(existing, service, addressType, d, p)
    requires s.endpoints == [] && Owns(service, s) && s.name == Unset && s.addressType == addressType
    ensures Planned(existing, service, addressType, d, p.(create := p.create + [s]))
  {
    var q := p.(create := p.create + [s]);
    forall g ensures EndpointsSettled(Members(Outcome(existing, q), service, g), Want(d, g)) {
      ConcatAssociative(Applied(existing, p.update, p.delete), p.create, [s]);
      assert Outcome(existing, q) == Outcome(existing, p) + [s];
      assert Outcome(existing, q)[..|Outcome(existing, p)|] == Outcome(existing, p);
      SettledEmpty(Members(Outcome(existing, p), service, g), Want(d, g), s);
    }
  }

  // All slices are doomed and none is created: nothing is desired.
  lemma NothingLeft(existing: seq<EndpointSlice>, service: Service, addressType: AddressType, d: DesiredByPorts, p: Plan)
    requires DistinctNames(existing) && Planned(existing, service, addressType, d, p)
    requires |existing| == |p.delete| && p.create == []
    ensures Outcome(existing, p) == [] && forall g :: |Want(d, g)| == 0
  {
    AllDeleted(existing, p);
    AppliedNothing(existing, p.update, p.delete);
    forall g ensures |Want(d, g)| == 0 {
      assert EndpointsSettled(Members(Outcome(existing, p), service, g), Want(d, g));
      forall k ensures k !in Want(d, g) {
        assert Occurrences([], k) == Indicator(k in Want(d, g));
      }
    }
  }

  ghost predicate AllEmpty(ss: seq<EndpointSlice>) {
    forall i :: 0 <= i < |ss| ==> ss[i].endpoints == []
  }

  lemma {:induction false} EmptyOccurrences(ss: seq<EndpointSlice>, k: EndpointKey)
    requires AllEmpty(ss)
    ensures Occurrences(ss, k) == 0
  {
    if ss != [] {
      EmptyOccurrences(ss[..|ss| - 1], k);
    }
  }

  lemma EmptySettled(ss: seq<EndpointSlice>, service: Service, g: PortMapKey, d: Desired)
    requires AllEmpty(ss) && |d| == 0
    ensures EndpointsSettled(Members(ss, service, g), d)
  {
    var ms := Members(ss, service, g);
    forall i | 0 <= i < |ms| ensures ms[i].endpoints == [] {
      MembersIn(ss, service, g, i);
    }
    forall k ensures Occurrences(ms, k) == Indicator(k in d) {
      EmptyOccurrences(ms, k);
    }
  }

  lemma {:induction false} AppliedUntouched(ss: seq<EndpointSlice>)
    ensures Applied(ss, [], []) == ss
  {
    if ss != [] {
      AppliedUntouched(ss[..|ss| - 1]);
    }
  }

  // Planning nothing is right if all slices are empty and nothing is desired.
  lemma KeepEmpty(existing: seq<EndpointSlice>, service: Service, addressType: AddressType, d: DesiredByPorts)
    requires AllEmpty(existing) && forall g :: |Want(d, g)| == 0
    ensures Planned(existing, service, addressType, d, Plan([], [], [])) && Outcome(existing, Plan([], [], [])) == existing
  {
    AppliedUntouched(existing);
    var nothing := Plan([], [], []);
    assert Outcome(existing, nothing) == existing;
    forall g ensures EndpointsSettled(Members(Outcome(existing, nothing), service, g), Want(d, g)) {
      EmptySettled(existing, service, g, Want(d, g));
    }
  }

  lemma PlaceholderKept(existing: seq<EndpointSlice>, service: Service, addressType: AddressType, d: DesiredByPorts, p: Plan)
    requires DistinctNames(existing) && Planned(existing, service, addressType, d, p)
    requires |existing| == |p.delete| == 1 && p.create == [] && p.delete[0].endpoints == []
    ensures p.update == [] && Planned(existing, service, addressType, d, Plan([], [], []))
    ensures Outcome(existing, Plan([], [], [])) == existing
  {
    NothingLeft(existing, service, addressType, d, p);
    AllDeleted(existing, p);
    NoNames(p.update);
    assert p.delete[0] in existing;
    KeepEmpty(existing, service, addressType, d);
  }

  /* When no owned slice remains */

  // The one slice there is belongs to another owner, passes for the placeholder, and nothing is desired.
  ghost predicate StrayPlaceholder(existing: seq<EndpointSlice>, service: Service, placeholder: EndpointSlice, d: DesiredByPorts) {
    && |existing| == 1 && !Owns(service, existing[0]) && PlaceholderEqual(existing[0], placeholder)
    && forall g :: |Want(d, g)| == 0
  }

  // Such a slice exists: the placeholder of an earlier service of the same name, with nothing desired.
  lemma StrayExample(service: Service, addressType: AddressType, managedBy: string, uid: string, d: DesiredByPorts)
    requires uid != service.uid && d == map[]
    ensures var placeholder := NewEndpointSlice(service, EndpointMeta([], addressType), managedBy);
      StrayPlaceholder([placeholder.(name := Assigned(1), owners := [OwnerReference(uid, "Service", "v1")])], service, placeholder, d)
  {
    var placeholder := NewEndpointSlice(service, EndpointMeta([], addressType), managedBy);
  }

  ghost predicate OwnedSurvivor(ss: seq<EndpointSlice>, service: Service) {
    exists i :: 0 <= i < |ss| && Owns(service, ss[i])
  }

  // A slice that is not deleted survives under its owner.
  lemma SurvivorOwned(existing: seq<EndpointSlice>, service: Service, addressType: AddressType, d: DesiredByPorts,
                      done: set<PortMapKey>, p: Plan)
    requires DistinctNames(existing) && Progress(existing, service, addressType, d, done, p)
    requires |existing| != |p.delete|
    ensures OwnedSurvivor(Outcome(existing, p), service)
  {
    AllDeleted(existing, p);
    var n :| n in Names(existing) && n !in Names(p.delete);
    var i := NameIndex(existing, n);
    AppliedKeeps(existing, p.update, p.delete, i);
    var t := Resolve(p.update, existing[i]);
    assert SameIdentity(existing[i], t);
    var j :| 0 <= j < |Applied(existing, p.update, p.delete)| && Applied(existing, p.update, p.delete)[j] == t;
    assert Outcome(existing, p)[j] == t;
  }

  lemma CreatedSurvives(existing: seq<EndpointSlice>, service: Service, addressType: AddressType, p: Plan)
    requires CreatesOwned(p, service, addressType) && p.create != []
    ensures OwnedSurvivor(Outcome(existing, p), service)
  {
    var i := |Applied(existing, p.update, p.delete)|;
    assert Outcome(existing, p)[i] == p.create[0];
  }

  // A group that a slice is created in is desired.
  lemma CreatedIsDesired(existing: seq<EndpointSlice>, service: Service, addressType: AddressType, d: DesiredByPorts,
                         done: set<PortMapKey>, p: Plan)
    requires Progress(existing, service, addressType, d, done, p)
    ensures p.create != [] ==> |Want(d, PortKey(p.create[0].ports))| > 0
  {
    if p.create != [] {
      var s, g := p.create[0], PortKey(p.create[0].ports);
      var all := Outcome(existing, p);
      var i := |Applied(existing, p.update, p.delete)|;
      assert all[i] == s;
      MembersComplete(all, service, g, i);
      var j :| 0 <= j < |Members(all, service, g)| && Members(all, service, g)[j] == s;
      GroupSettledEndpoints(Members(all, service, g), service, d, g);
      assert UpToDate(s.endpoints, Want(d, g));
      assert s.endpoints[0].key in Want(d, g);
    }
  }

  lemma StrayIsKept(existing: seq<EndpointSlice>, service: Service, addressType: AddressType, d: DesiredByPorts,
                    done: set<PortMapKey>, p: Plan, placeholder: EndpointSlice)
    requires DistinctNames(existing) && Progress(existing, service, addressType, d, done, p)
    requires StrayPlaceholder(existing, service, placeholder, d)
    ensures p.create == [] && p.delete == existing
  {
    CreatedIsDesired(existing, service, addressType, d, done, p);
    AllDeleted(existing, p);
    forall n | n in Names(existing) ensures n in Names(p.delete) {
      var i := NameIndex(existing, n);
    }
    assert p.delete[0] in existing;
  }

  // Whether an owned slice remains once the placeholder has been seen to.
  lemma OwnedUnlessStray(existing: seq<EndpointSlice>, service: Service, addressType: AddressType, d: DesiredByPorts,
                         done: set<PortMapKey>, p: Plan, placeholder: EndpointSlice)
    requires DistinctNames(existing) && Progress(existing, service, addressType, d, done, p)
    requires Planned(existing, service, addressType, d, p) && Owns(service, placeholder) && placeholder.endpoints == []
    ensures |existing| != |p.delete| || p.create != [] ==>
      OwnedSurvivor(Outcome(existing, p), service) && !StrayPlaceholder(existing, service, placeholder, d)
    ensures |existing| == |p.delete| == 1 && p.create == [] && PlaceholderEqual(p.delete[0], placeholder) ==>
      (OwnedSurvivor(existing, service) <==> !StrayPlaceholder(existing, service, placeholder, d))
    ensures StrayPlaceholder(existing, service, placeholder, d) ==>
      p.create == [] && |p.delete| == 1 && PlaceholderEqual(p.delete[0], placeholder)
  {
    if StrayPlaceholder(existing, service, placeholder, d) {
      StrayIsKept(existing, service, addressType, d, done, p, placeholder);
    } else if |existing| != |p.delete| {
      SurvivorOwned(existing, service, addressType, d, done, p);
    } else if p.create != [] {
      CreatedSurvives(existing, service, addressType, p);
    } else if |existing| == 1 && PlaceholderEqual(p.delete[0], placeholder) {
      NothingLeft(existing, service, addressType, d, p);
      assert p.delete[0] in existing;
    }
  }

  /* Stable slices */

  // One slice of another owner or of no desired group passes for the placeholder.
  ghost predicate Stands(ss: seq<EndpointSlice>, service: Service, placeholder: EndpointSlice, d: DesiredByPorts) {
    |ss| == 1 && PlaceholderEqual(ss[0], placeholder) && !(Owns(service, ss[0]) && PortKey(ss[0].ports) in d)
  }

  // Slices that need no change: every desired group has exactly its endpoints under the service's labels, and
  // there is no other slice, except that the placeholder may stand alone.
  ghost predicate Stable(ss: seq<EndpointSlice>, service: Service, placeholder: EndpointSlice, d: DesiredByPorts) {
    && ss != [] && AllSettled(ss, service, d)
    && (AllDesired(ss, service, d) || Stands(ss, service, placeholder, d))
  }

  // Where all groups are settled, the groups' plans delete foreign slices and undesired groups only.
  ghost predicate Quiet(existing: seq<EndpointSlice>, service: Service, d: DesiredByPorts, p: Plan) {
    AllSettled(existing, service, d) ==> p.create == [] && p.update == [] && (AllDesired(existing, service, d) ==> p.delete == [])
  }

  lemma OutcomeOwned(existing: seq<EndpointSlice>, service: Service, addressType: AddressType, d: DesiredByPorts,
                     done: set<PortMapKey>, p: Plan, i: nat)
    requires Progress(existing, service, addressType, d, done, p) && i < |Outcome(existing, p)|
    ensures Owns(service, Outcome(existing, p)[i])
  {
    var applied := Applied(existing, p.update, p.delete);
    if i < |applied| {
      assert applied[i] in applied;
      var j := AppliedMember(existing, p.update, p.delete, applied[i]);
      assert SameIdentity(existing[j], applied[i]);
    } else {
      assert Outcome(existing, p)[i] == p.create[i - |applied|];
    }
  }

  lemma OutsideDone(existing: seq<EndpointSlice>, service: Service, addressType: AddressType, d: DesiredByPorts,
                    done: set<PortMapKey>, p: Plan, g: PortMapKey)
    requires Progress(existing, service, addressType, d, done, p) && Members(existing, service, g) == [] && g !in done
    ensures Members(Outcome(existing, p), service, g) == []
  {
    OutcomeMembers(existing, p, service, g);
    CreatesMembers(p, service, addressType, done, g);
  }

  // Once all groups are done, every remaining slice is owned and desired.
  lemma OutcomeDesired(existing: seq<EndpointSlice>, service: Service, addressType: AddressType, d: DesiredByPorts,
                       done: set<PortMapKey>, p: Plan)
    requires Progress(existing, service, addressType, d, done, p) && d.Keys <= done
    requires forall g :: g !in done ==> Members(existing, service, g) == []
    ensures AllSettled(Outcome(existing, p), service, d) && AllDesired(Outcome(existing, p), service, d)
  {
    var all := Outcome(existing, p);
    forall g | g in d ensures Settled(Members(all, service, g), d[g], service) {
      assert GroupSettled(Members(all, service, g), service, d, g);
    }
    forall i | 0 <= i < |all| ensures Owns(service, all[i]) && PortKey(all[i].ports) in d {
      var g := PortKey(all[i].ports);
      OutcomeOwned(existing, service, addressType, d, done, p, i);
      MembersComplete(all, service, g, i);
      if g !in done {
        OutsideDone(existing, service, addressType, d, done, p, g);
      }
      assert g in done ==> GroupSettled(Members(all, service, g), service, d, g);
    }
  }

  lemma NoEndpointsSettled(ss: seq<EndpointSlice>, d: Desired, service: Service)
    requires AllEmpty(ss) && |d| == 0 && forall i :: 0 <= i < |ss| ==> MirrorsLabels(ss[i], service)
    ensures Settled(ss, d, service)
  {
    forall k ensures Occurrences(ss, k) == Indicator(k in d) {
      EmptyOccurrences(ss, k);
    }
  }

  // With nothing desired, empty slices are settled as far as their groups are desired and their labels right.
  lemma EmptyAllSettled(ss: seq<EndpointSlice>, service: Service, d: DesiredByPorts)
    requires AllEmpty(ss) && forall g :: |Want(d, g)| == 0
    requires forall i :: 0 <= i < |ss| && Owns(service, ss[i]) && PortKey(ss[i].ports) in d ==> MirrorsLabels(ss[i], service)
    ensures AllSettled(ss, service, d)
  {
    forall g | g in d ensures Settled(Members(ss, service, g), d[g], service) {
      var ms := Members(ss, service, g);
      assert |Want(d, g)| == 0;
      forall i | 0 <= i < |ms| ensures ms[i].endpoints == [] && MirrorsLabels(ms[i], service) {
        var j := MemberHasIndex(ss, service, g, i);
      }
      NoEndpointsSettled(ms, d[g], service);
    }
  }

  // The placeholder, freshly created, is all there has to be.
  lemma CreatedIsStable(service: Service, addressType: AddressType, managedBy: string, d: DesiredByPorts)
    requires forall g :: |Want(d, g)| == 0
    ensures var placeholder := NewEndpointSlice(service, EndpointMeta([], addressType), managedBy);
      Stable([placeholder], service, placeholder, d)
  {
    var placeholder := NewEndpointSlice(service, EndpointMeta([], addressType), managedBy);
    BlankPlaceholder(service, addressType, managedBy);
    LabelsSettle(placeholder, service, managedBy);
    EmptyAllSettled([placeholder], service, d);
  }

  // So is a slice that passes for it and was to be deleted.
  lemma KeptIsStable(existing: seq<EndpointSlice>, service: Service, placeholder: EndpointSlice, d: DesiredByPorts, p: Plan)
    requires |existing| == 1 && existing == p.delete && SparesEmpty(p.delete, service, d)
    requires PlaceholderEqual(existing[0], placeholder) && placeholder.endpoints == [] && forall g :: |Want(d, g)| == 0
    ensures Stable(existing, service, placeholder, d)
  {
    EmptyAllSettled(existing, service, d);
  }

  // A stable set of slices is left alone: the plan is empty, or dooms just the slice that stands in.
  lemma StableIsQuiet(existing: seq<EndpointSlice>, service: Service, addressType: AddressType, placeholder: EndpointSlice, d: DesiredByPorts,
                      done: set<PortMapKey>, p: Plan)
    requires DistinctNames(existing) && Progress(existing, service, addressType, d, done, p) && d.Keys <= done
    requires forall g :: g !in done ==> Members(existing, service, g) == []
    requires Quiet(existing, service, d, p) && Stable(existing, service, placeholder, d)
    ensures p.create == [] && p.update == []
    ensures if AllDesired(existing, service, d) then p.delete == [] else p.delete == existing
  {
    if !AllDesired(existing, service, d) {
      OutcomeDesired(existing, service, addressType, d, done, p);
      StandsIsDoomed(existing, service, d, p);
    }
  }

  // A slice that is no part of a desired group does not survive.
  lemma StandsIsDoomed(existing: seq<EndpointSlice>, service: Service, d: DesiredByPorts, p: Plan)
    requires DistinctNames(existing) && Consistent(existing, p) && p.update == [] && |existing| == 1
    requires AllDesired(Outcome(existing, p), service, d) && !AllDesired(existing, service, d)
    ensures p.delete == existing
  {
    UnmentionedSurvives(existing, p);
    forall n | n in Names(existing) ensures n in Names(p.delete) {
      var i := NameIndex(existing, n);
    }
    AllDeleted(existing, p);
    assert p.delete[0] in existing;
  }

  lemma UnmentionedSurvives(existing: seq<EndpointSlice>, p: Plan)
    requires p.update == [] && existing != []
    ensures existing[0].name !in Names(p.delete) ==> exists i :: 0 <= i < |Outcome(existing, p)| && Outcome(existing, p)[i] == existing[0]
  {
    if existing[0].name !in Names(p.delete) {
      var applied := Applied(existing, p.update, p.delete);
      AppliedKeeps(existing, p.update, p.delete, 0);
      assert Resolve(p.update, existing[0]) == existing[0];
      var i :| 0 <= i < |applied| && applied[i] == existing[0];
      assert Outcome(existing, p)[i] == existing[0];
    }
  }

  lemma BlankPlaceholder(service: Service, addressType: AddressType, managedBy: string)
    ensures var s := NewEndpointSlice(service, EndpointMeta([], addressType), managedBy);
      Owns(service, s) && s.endpoints == [] && s.name == Unset && s.addressType == addressType
  {
    var s := NewEndpointSlice(service, EndpointMeta([], addressType), managedBy);
    assert s.owners[0] == OwnerReference(service.uid, "Service", "v1");
  }

  // No slice remains exactly if all are deleted and none is created.
  lemma NothingSurvives(existing: seq<EndpointSlice>, p: Plan)
    requires DistinctNames(existing) && Consistent(existing, p)
    ensures Outcome(existing, p) == [] <==> |existing| == |p.delete| && p.create == []
    ensures |existing| == |p.delete| == 1 ==> existing == p.delete
  {
    AllDeleted(existing, p);
    if |existing| == |p.delete| {
      AppliedNothing(existing, p.update, p.delete);
      assert forall i :: 0 <= i < |p.delete| ==> p.delete[i] in existing;
    } else {
      var n :| n in Names(existing) && n !in Names(p.delete);
      AppliedKeeps(existing, p.update, p.delete, NameIndex(existing, n));
    }
  }

  // The plan q is p with the placeholder seen to.
  ghost predicate SeenTo(existing: seq<EndpointSlice>, service: Service, addressType: AddressType, placeholder: EndpointSlice,
                         d: DesiredByPorts, p: Plan, q: Plan) {
    && Planned(existing, service, addressType, d, q) && Stable(Outcome(existing, q), service, placeholder, d)
    && (Outcome(existing, p) != [] ==> q == p)
    && (Outcome(existing, p) == [] ==>
          Outcome(existing, q) == if |existing| == 1 && PlaceholderEqual(existing[0], placeholder) then existing else [placeholder])
    && (Stable(existing, service, placeholder, d) ==> q == Plan([], [], []))
    && (OwnedSurvivor(Outcome(existing, q), service) <==> !StrayPlaceholder(existing, service, placeholder, d))
  }

  // What the plans of all groups together promise.
  ghost predicate AllDone(existing: seq<EndpointSlice>, service: Service, addressType: AddressType, d: DesiredByPorts,
                          done: set<PortMapKey>, p: Plan) {
    && DistinctNames(existing) && Progress(existing, service, addressType, d, done, p) && d.Keys <= done
    && Quiet(existing, service, d, p) && forall g :: g !in done ==> Members(existing, service, g) == []
  }

  lemma PlaceholderUnneeded(existing: seq<EndpointSlice>, service: Service, addressType: AddressType, placeholder: EndpointSlice,
                            d: DesiredByPorts, done: set<PortMapKey>, p: Plan)
    requires AllDone(existing, service, addressType, d, done, p) && Owns(service, placeholder) && placeholder.endpoints == []
    requires |existing| != |p.delete| || p.create != []
    ensures SeenTo(existing, service, addressType, placeholder, d, p, p)
  {
    ProgressIsPlanned(existing, service, addressType, d, done, p);
    OutcomeDesired(existing, service, addressType, d, done, p);
    OwnedUnlessStray(existing, service, addressType, d, done, p, placeholder);
    NothingSurvives(existing, p);
    if Stable(existing, service, placeholder, d) {
      StableIsQuiet(existing, service, addressType, placeholder, d, done, p);
    }
  }

  lemma PlaceholderStays(existing: seq<EndpointSlice>, service: Service, addressType: AddressType, placeholder: EndpointSlice,
                         d: DesiredByPorts, done: set<PortMapKey>, p: Plan)
    requires AllDone(existing, service, addressType, d, done, p) && Owns(service, placeholder) && placeholder.endpoints == []
    requires |existing| == |p.delete| == 1 && p.create == [] && PlaceholderEqual(p.delete[0], placeholder)
    ensures SeenTo(existing, service, addressType, placeholder, d, p, p.(delete := []))
  {
    ProgressIsPlanned(existing, service, addressType, d, done, p);
    OwnedUnlessStray(existing, service, addressType, d, done, p, placeholder);
    NothingSurvives(existing, p);
    NothingLeft(existing, service, addressType, d, p);
    PlaceholderKept(existing, service, addressType, d, p);
    KeptIsStable(existing, service, placeholder, d, p);
  }

  lemma PlaceholderCreated(existing: seq<EndpointSlice>, service: Service, addressType: AddressType, managedBy: string,
                           d: DesiredByPorts, done: set<PortMapKey>, p: Plan)
    requires AllDone(existing, service, addressType, d, done, p) && |existing| == |p.delete| && p.create == []
    requires !(|existing| == 1 && PlaceholderEqual(p.delete[0], NewEndpointSlice(service, EndpointMeta([], addressType), managedBy)))
    ensures var placeholder := NewEndpointSlice(service, EndpointMeta([], addressType), managedBy);
      SeenTo(existing, service, addressType, placeholder, d, p, p.(create := p.create + [placeholder]))
  {
    var placeholder := NewEndpointSlice(service, EndpointMeta([], addressType), managedBy);
    var q := p.(create := p.create + [placeholder]);
    BlankPlaceholder(service, addressType, managedBy);
    ProgressIsPlanned(existing, service, addressType, d, done, p);
    OwnedUnlessStray(existing, service, addressType, d, done, p, placeholder);
    NothingSurvives(existing, p);
    NothingLeft(existing, service, addressType, d, p);
    PlaceholderAdded(existing, service, addressType, d, p, placeholder);
    CreatedSurvives(existing, service, addressType, q);
    CreatedIsStable(service, addressType, managedBy, d);
    assert Outcome(existing, q) == [placeholder];
    if Stable(existing, service, placeholder, d) {
      StableIsQuiet(existing, service, addressType, placeholder, d, done, p);
    }
  }

  // When no slice would remain, one that passes for the placeholder is kept, or else the placeholder is created.
  method EnsurePlaceholder(existing: seq<EndpointSlice>, service: Service, addressType: AddressType, managedBy: string,
                           ghost d: DesiredByPorts, ghost done: set<PortMapKey>, p: Plan) returns (q: Plan)
    requires AllDone(existing, service, addressType, d, done, p)
    ensures SeenTo(existing, service, addressType, NewEndpointSlice(service, EndpointMeta([], addressType), managedBy), d, p, q)
    ensures var blank := NewEndpointSlice(service, EndpointMeta([], addressType), managedBy);
      Branded(p.create, blank) ==> Branded(q.create, blank)
  {
    var placeholder := NewEndpointSlice(service, EndpointMeta([], addressType), managedBy);
    BlankPlaceholder(service, addressType, managedBy);
    q := p;
    if |existing| == |p.delete| && |p.create| < 1 {
      if |p.delete| == 1 && PlaceholderEqual(p.delete[0], placeholder) {
        PlaceholderStays(existing, service, addressType, placeholder, d, done, p);
        q := p.(delete := []);
      } else {
        PlaceholderCreated(existing, service, addressType, managedBy, d, done, p);
        q := p.(create := p.create + [placeholder]);
      }
    } else {
      PlaceholderUnneeded(existing, service, addressType, placeholder, d, done, p);
    }
  }
}
