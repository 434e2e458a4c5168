/**
 Reconciling the groups of one address type one after the other.
 */
module GroupProgress {
  import opened Discovery
  import opened PortMapping
  import opened DesiredEndpoints
  import opened Groups

  datatype Plan = Plan(create: seq<EndpointSlice>, update: seq<EndpointSlice>, delete: seq<EndpointSlice>)

  // The slices there are once the plan has been carried out.
  function Outcome(existing: seq<EndpointSlice>, p: Plan): seq<EndpointSlice> {
    Applied(existing, p.update, p.delete) + p.create
  }

  // The plan names existing slices only, none twice, and changes only labels and endpoints.
  ghost predicate Consistent(existing: seq<EndpointSlice>, p: Plan) {
    && DistinctNames(p.update) && DistinctNames(p.delete) && Names(p.update) !! Names(p.delete)
    && Names(p.update) <= Names(existing)
    && (forall t :: t in p.delete ==> t in existing)
    && KeepsGroups(existing, p.update, p.delete)
  }

  // The slices to create are the service's own, nameless, not empty, and in the given groups.
  ghost predicate CreatesIn(p: Plan, service: Service, addressType: AddressType, groups: set<PortMapKey>) {
    forall i :: 0 <= i < |p.create| ==>
      && Owns(service, p.create[i]) && PortKey(p.create[i].ports) in groups
      && p.create[i].name == Unset && p.create[i].addressType == addressType && p.create[i].endpoints != []
  }

  // The slices to create have the namespace, labels and owners of the blank slice.
  ghost predicate Branded(create: seq<EndpointSlice>, blank: EndpointSlice) {
    forall i :: 0 <= i < |create| ==>
      create[i].namespace == blank.namespace && create[i].labels == blank.labels && create[i].owners == blank.owners
  }

  ghost predicate Mentions(p: Plan, s: EndpointSlice) {
    s.name in Names(p.update) || s.name in Names(p.delete)
  }

  // A desired group holds exactly its endpoints under the service's labels; any other group is empty.
  ghost predicate GroupSettled(ss: seq<EndpointSlice>, service: Service, d: DesiredByPorts, g: PortMapKey) {
    if g in d then Settled(ss, d[g], service) else ss == []
  }

  lemma GroupSettledEndpoints(ss: seq<EndpointSlice>, service: Service, d: DesiredByPorts, g: PortMapKey)
    requires GroupSettled(ss, service, d, g)
    ensures EndpointsSettled(ss, Want(d, g))
  {
    forall i | 0 <= i < |ss| ensures UpToDate(ss[i].endpoints, Want(d, g)) {
      assert ss[i] in ss;
    }
  }

  // Every desired group is as it should be.
  ghost predicate AllSettled(ss: seq<EndpointSlice>, service: Service, d: DesiredByPorts) {
    forall g :: g in d ==> Settled(Members(ss, service, g), d[g], service)
  }

  // Every slice is the service's own and of a desired group.
  ghost predicate AllDesired(ss: seq<EndpointSlice>, service: Service, d: DesiredByPorts) {
    forall i :: 0 <= i < |ss| ==> Owns(service, ss[i]) && PortKey(ss[i].ports) in d
  }

  // An empty slice of a desired group is never deleted.
  ghost predicate SparesEmpty(delete: seq<EndpointSlice>, service: Service, d: DesiredByPorts) {
    forall i :: 0 <= i < |delete| && Owns(service, delete[i]) && PortKey(delete[i].ports) in d ==> delete[i].endpoints != []
  }

  // After the groups in `done`: those are settled, the other groups are as they were, and every
  // slice the service does not own is to be deleted.
  ghost predicate Progress(existing: seq<EndpointSlice>, service: Service, addressType: AddressType, d: DesiredByPorts,
                           done: set<PortMapKey>, p: Plan) {
    && Consistent(existing, p) && CreatesIn(p, service, addressType, done)
    && (forall i :: 0 <= i < |existing| && Owns(service, existing[i]) && PortKey(existing[i].ports) !in done ==> !Mentions(p, existing[i]))
    && (forall i :: 0 <= i < |existing| && !Owns(service, existing[i]) ==> existing[i].name in Names(p.delete))
    && (forall g :: g in done ==> GroupSettled(Members(Outcome(existing, p), service, g), service, d, g))
    && SparesEmpty(p.delete, service, d)
  }

  // What reconciling the group `ms` yields, whether its endpoints are desired or not.
  ghost predicate GroupPlan(ms: seq<EndpointSlice>, service: Service, addressType: AddressType, g: PortMapKey, d: DesiredByPorts, q: Plan) {
    && Consistent(ms, q) && CreatesIn(q, service, addressType, {g})
    && GroupSettled(Outcome(ms, q), service, d, g) && SparesEmpty(q.delete, service, d)
  }

  function Join(p: Plan, q: Plan): Plan {
    Plan(p.create + q.create, p.update + q.update, p.delete + q.delete)
  }

  lemma MemberByName(existing: seq<EndpointSlice>, service: Service, g: PortMapKey, i: nat)
    requires DistinctNames(existing) && i < |existing|
    requires existing[i].name in Names(Members(existing, service, g))
    ensures InGroup(existing[i], service, g)
  {
    var j := NameIndex(Members(existing, service, g), existing[i].name);
    MembersIn(existing, service, g, j);
    var l :| 0 <= l < |existing| && existing[l] == Members(existing, service, g)[j];
    assert l == i;
  }

  lemma PlanNames(existing: seq<EndpointSlice>, q: Plan)
    requires Consistent(existing, q)
    ensures Names(q.delete) <= Names(existing)
  {
    forall n | n in Names(q.delete) ensures n in Names(existing) {
      var i := NameIndex(q.delete, n);
      assert q.delete[i] in existing;
    }
  }

  // A plan for group g mentions only slices of group g.
  lemma MentionsOwnGroup(existing: seq<EndpointSlice>, service: Service, g: PortMapKey, q: Plan, i: nat)
    requires DistinctNames(existing) && i < |existing|
    requires Consistent(Members(existing, service, g), q)
    ensures Mentions(q, existing[i]) ==> InGroup(existing[i], service, g)
  {
    if Mentions(q, existing[i]) {
      PlanNames(Members(existing, service, g), q);
      MemberByName(existing, service, g, i);
    }
  }

  lemma {:induction false} MemberHasIndex(existing: seq<EndpointSlice>, service: Service, g: PortMapKey, j: nat) returns (i: nat)
    requires j < |Members(existing, service, g)|
    ensures i < |existing| && existing[i] == Members(existing, service, g)[j] && InGroup(existing[i], service, g)
  {
    MembersIn(existing, service, g, j);
    i :| 0 <= i < |existing| && existing[i] == Members(existing, service, g)[j];
  }

  lemma {:induction false} MembersComplete(existing: seq<EndpointSlice>, service: Service, g: PortMapKey, i: nat)
    requires i < |existing| && InGroup(existing[i], service, g)
    ensures existing[i] in Members(existing, service, g)
  {
    var n := |existing| - 1;
    if i < n {
      MembersComplete(existing[..n], service, g, i);
    }
  }

  // For a slice of group g, the joined plan says what q says; for any other, what p says.
  lemma JoinFor(existing: seq<EndpointSlice>, service: Service, g: PortMapKey, p: Plan, q: Plan, i: nat)
    requires DistinctNames(existing) && i < |existing|
    requires Consistent(Members(existing, service, g), q)
    requires InGroup(existing[i], service, g) ==> !Mentions(p, existing[i])
    ensures var r := Join(p, q);
      && (InGroup(existing[i], service, g) ==> SameFor(existing[i], r.update, r.delete, q.update, q.delete))
      && (!InGroup(existing[i], service, g) ==> SameFor(existing[i], r.update, r.delete, p.update, p.delete))
  {
    if InGroup(existing[i], service, g) {
      AppendedHere(existing[i], p.update, p.delete, q.update, q.delete);
    } else {
      MentionsOwnGroup(existing, service, g, q, i);
      AppendedElsewhere(existing[i], p.update, p.delete, q.update, q.delete);
    }
  }

  lemma ResolveSame(s: EndpointSlice, update: seq<EndpointSlice>, delete: seq<EndpointSlice>,
                    update': seq<EndpointSlice>, delete': seq<EndpointSlice>)
    requires SameFor(s, update, delete, update', delete')
    ensures Resolve(update, s) == Resolve(update', s)
  {
  }

  lemma JoinKeepsGroups(existing: seq<EndpointSlice>, service: Service, g: PortMapKey, p: Plan, q: Plan)
    requires DistinctNames(existing) && KeepsGroups(existing, p.update, p.delete)
    requires Consistent(Members(existing, service, g), q)
    requires forall i :: 0 <= i < |existing| && InGroup(existing[i], service, g) ==> !Mentions(p, existing[i])
    ensures KeepsGroups(existing, Join(p, q).update, Join(p, q).delete)
  {
    var r := Join(p, q);
    forall i | 0 <= i < |existing| && existing[i].name !in Names(r.delete)
      ensures SameIdentity(existing[i], Resolve(r.update, existing[i]))
    {
      JoinFor(existing, service, g, p, q, i);
      if InGroup(existing[i], service, g) {
        ResolveSame(existing[i], r.update, r.delete, q.update, q.delete);
        MembersComplete(existing, service, g, i);
        var j :| 0 <= j < |Members(existing, service, g)| && Members(existing, service, g)[j] == existing[i];
      } else {
        ResolveSame(existing[i], r.update, r.delete, p.update, p.delete);
      }
    }
  }

  lemma DistinctJoined(ss: seq<EndpointSlice>, ts: seq<EndpointSlice>)
    requires DistinctNames(ss) && DistinctNames(ts) && Names(ss) !! Names(ts)
    ensures DistinctNames(ss + ts)
  {
    forall i, j | 0 <= i < j < |ss + ts| ensures (ss + ts)[i].name != (ss + ts)[j].name {
      if i < |ss| <= j {
        assert ss[i].name in Names(ss) && ts[j - |ss|].name in Names(ts);
      }
    }
  }

  // What p mentions lies outside the group.
  lemma Unmentioned(existing: seq<EndpointSlice>, service: Service, g: PortMapKey, p: Plan)
    requires forall i :: 0 <= i < |existing| && InGroup(existing[i], service, g) ==> !Mentions(p, existing[i])
    ensures Names(p.update) !! Names(Members(existing, service, g)) && Names(p.delete) !! Names(Members(existing, service, g))
  {
    forall n | n in Names(Members(existing, service, g)) ensures n !in Names(p.update) && n !in Names(p.delete) {
      var j := NameIndex(Members(existing, service, g), n);
      var i := MemberHasIndex(existing, service, g, j);
      assert !Mentions(p, existing[i]);
    }
  }

  lemma JoinConsistent(existing: seq<EndpointSlice>, service: Service, g: PortMapKey, p: Plan, q: Plan)
    requires DistinctNames(existing) && Consistent(existing, p) && Consistent(Members(existing, service, g), q)
    requires forall i :: 0 <= i < |existing| && InGroup(existing[i], service, g) ==> !Mentions(p, existing[i])
    ensures Consistent(existing, Join(p, q))
  {
    var ms := Members(existing, service, g);
    Unmentioned(existing, service, g, p);
    PlanNames(ms, q);
    DistinctJoined(p.update, q.update);
    DistinctJoined(p.delete, q.delete);
    NamesConcat(p.update, q.update);
    NamesConcat(p.delete, q.delete);
    JoinKeepsGroups(existing, service, g, p, q);
    forall n | n in Names(q.update) ensures n in Names(existing) {
      var i := MemberHasIndex(existing, service, g, NameIndex(ms, n));
    }
    forall t | t in q.delete ensures t in existing {
      var j :| 0 <= j < |ms| && ms[j] == t;
      var i := MemberHasIndex(existing, service, g, j);
    }
  }

  lemma OutcomeMembers(existing: seq<EndpointSlice>, p: Plan, service: Service, g: PortMapKey)
    requires KeepsGroups(existing, p.update, p.delete)
    ensures Members(Outcome(existing, p), service, g)
         == Applied(Members(existing, service, g), p.update, p.delete) + Members(p.create, service, g)
  {
    MembersConcat(Applied(existing, p.update, p.delete), p.create, service, g);
    MembersApplied(existing, p.update, p.delete, service, g);
  }

  lemma CreatesMembers(p: Plan, service: Service, addressType: AddressType, groups: set<PortMapKey>, g: PortMapKey)
    requires CreatesIn(p, service, addressType, groups)
    ensures g !in groups ==> Members(p.create, service, g) == []
    ensures groups == {g} ==> Members(p.create, service, g) == p.create
  {
    MembersAll(p.create, service, g);
  }

  // Reconciling group g leaves every other group's outcome alone.
  lemma JoinOther(existing: seq<EndpointSlice>, service: Service, addressType: AddressType, g: PortMapKey, g': PortMapKey, p: Plan, q: Plan)
    requires DistinctNames(existing) && Consistent(existing, p) && Consistent(Members(existing, service, g), q)
    requires forall i :: 0 <= i < |existing| && InGroup(existing[i], service, g) ==> !Mentions(p, existing[i])
    requires CreatesIn(q, service, addressType, {g}) && g' != g
    ensures Members(Outcome(existing, Join(p, q)), service, g') == Members(Outcome(existing, p), service, g')
  {
    var r, ms := Join(p, q), Members(existing, service, g');
    JoinKeepsGroups(existing, service, g, p, q);
    OutcomeMembers(existing, r, service, g');
    OutcomeMembers(existing, p, service, g');
    forall j | 0 <= j < |ms| ensures SameFor(ms[j], r.update, r.delete, p.update, p.delete) {
      var i := MemberHasIndex(existing, service, g', j);
      JoinFor(existing, service, g, p, q, i);
    }
    AppliedSame(ms, r.update, r.delete, p.update, p.delete);
    MembersConcat(p.create, q.create, service, g');
    CreatesMembers(q, service, addressType, {g}, g');
  }

  lemma JoinOwnCreates(service: Service, addressType: AddressType, done: set<PortMapKey>, g: PortMapKey, p: Plan, q: Plan)
    requires CreatesIn(p, service, addressType, done) && g !in done && CreatesIn(q, service, addressType, {g})
    ensures Members(p.create + q.create, service, g) == q.create
  {
    MembersConcat(p.create, q.create, service, g);
    CreatesMembers(p, service, addressType, done, g);
    CreatesMembers(q, service, addressType, {g}, g);
  }

  lemma JoinOwnApplied(existing: seq<EndpointSlice>, service: Service, g: PortMapKey, p: Plan, q: Plan)
    requires DistinctNames(existing) && Consistent(Members(existing, service, g), q)
    requires forall i :: 0 <= i < |existing| && InGroup(existing[i], service, g) ==> !Mentions(p, existing[i])
    ensures var r, ms := Join(p, q), Members(existing, service, g);
      Applied(ms, r.update, r.delete) == Applied(ms, q.update, q.delete)
  {
    var r, ms := Join(p, q), Members(existing, service, g);
    forall j | 0 <= j < |ms| ensures SameFor(ms[j], r.update, r.delete, q.update, q.delete) {
      var i := MemberHasIndex(existing, service, g, j);
      JoinFor(existing, service, g, p, q, i);
    }
    AppliedSame(ms, r.update, r.delete, q.update, q.delete);
  }

  // The outcome of group g is what its own plan says.
  lemma JoinOwn(existing: seq<EndpointSlice>, service: Service, addressType: AddressType, done: set<PortMapKey>, g: PortMapKey, p: Plan, q: Plan)
    requires DistinctNames(existing) && Consistent(existing, p) && Consistent(Members(existing, service, g), q)
    requires forall i :: 0 <= i < |existing| && InGroup(existing[i], service, g) ==> !Mentions(p, existing[i])
    requires CreatesIn(p, service, addressType, done) && g !in done && CreatesIn(q, service, addressType, {g})
    ensures Members(Outcome(existing, Join(p, q)), service, g) == Outcome(Members(existing, service, g), q)
  {
    JoinKeepsGroups(existing, service, g, p, q);
    OutcomeMembers(existing, Join(p, q), service, g);
    JoinOwnApplied(existing, service, g, p, q);
    JoinOwnCreates(service, addressType, done, g, p, q);
  }

  lemma JoinSettled(existing: seq<EndpointSlice>, service: Service, addressType: AddressType, d: DesiredByPorts,
                    done: set<PortMapKey>, p: Plan, g: PortMapKey, q: Plan, g': PortMapKey)
    requires DistinctNames(existing) && Progress(existing, service, addressType, d, done, p) && g !in done
    requires GroupPlan(Members(existing, service, g), service, addressType, g, d, q)
    requires g' in done + {g}
    ensures GroupSettled(Members(Outcome(existing, Join(p, q)), service, g'), service, d, g')
  {
    assert forall i :: 0 <= i < |existing| && InGroup(existing[i], service, g) ==> !Mentions(p, existing[i]);
    if g' == g {
      JoinOwn(existing, service, addressType, done, g, p, q);
    } else {
      JoinOther(existing, service, addressType, g, g', p, q);
    }
  }

  lemma JoinMentions(existing: seq<EndpointSlice>, service: Service, addressType: AddressType, d: DesiredByPorts,
                     done: set<PortMapKey>, p: Plan, g: PortMapKey, q: Plan, i: nat)
    requires DistinctNames(existing) && Progress(existing, service, addressType, d, done, p) && g !in done
    requires Consistent(Members(existing, service, g), q) && i < |existing|
    ensures Owns(service, existing[i]) && PortKey(existing[i].ports) !in done + {g} ==> !Mentions(Join(p, q), existing[i])
    ensures !Owns(service, existing[i]) ==> existing[i].name in Names(Join(p, q).delete)
  {
    NamesConcat(p.update, q.update);
    NamesConcat(p.delete, q.delete);
    MentionsOwnGroup(existing, service, g, q, i);
  }

  lemma JoinProgress(existing: seq<EndpointSlice>, service: Service, addressType: AddressType, d: DesiredByPorts,
                     done: set<PortMapKey>, p: Plan, g: PortMapKey, q: Plan)
    requires DistinctNames(existing) && Progress(existing, service, addressType, d, done, p) && g !in done
    requires GroupPlan(Members(existing, service, g), service, addressType, g, d, q)
    ensures Progress(existing, service, addressType, d, done + {g}, Join(p, q))
  {
    assert forall i :: 0 <= i < |existing| && InGroup(existing[i], service, g) ==> !Mentions(p, existing[i]);
    JoinConsistent(existing, service, g, p, q);
    forall i | 0 <= i < |existing|
      ensures Owns(service, existing[i]) && PortKey(existing[i].ports) !in done + {g} ==> !Mentions(Join(p, q), existing[i])
      ensures !Owns(service, existing[i]) ==> existing[i].name in Names(Join(p, q).delete)
    {
      JoinMentions(existing, service, addressType, d, done, p, g, q, i);
    }
    forall g' | g' in done + {g} ensures GroupSettled(Members(Outcome(existing, Join(p, q)), service, g'), service, d, g') {
      JoinSettled(existing, service, addressType, d, done, p, g, q, g');
    }
  }

  // Nothing is planned yet but the deletion of the slices the service does not own.
  lemma StartProgress(existing: seq<EndpointSlice>, service: Service, addressType: AddressType, d: DesiredByPorts)
    requires DistinctNames(existing)
    ensures Progress(existing, service, addressType, d, {}, Plan([], [], Unowned(existing, service)))
  {
    var p := Plan([], [], Unowned(existing, service));
    UnownedIn(existing, service);
    forall i | 0 <= i < |existing|
      ensures existing[i].name in Names(p.delete) <==> !Owns(service, existing[i])
      ensures Resolve(p.update, existing[i]) == existing[i]
    {
      assert existing[i] in existing;
      if existing[i].name in Names(p.delete) {
        var j := NameIndex(p.delete, existing[i].name);
        assert p.delete[j] in existing;
        var l :| 0 <= l < |existing| && existing[l] == p.delete[j];
        assert l == i;
      }
    }
  }

  lemma {:induction false} AppliedNothing(ss: seq<EndpointSlice>, update: seq<EndpointSlice>, delete: seq<EndpointSlice>)
    requires Names(ss) <= Names(delete)
    ensures Applied(ss, update, delete) == []
  {
    if ss != [] {
      assert ss == ss[..|ss| - 1] + [ss[|ss| - 1]];
      AppliedNothing(ss[..|ss| - 1], update, delete);
    }
  }

  // A group nobody desires is deleted altogether.
  lemma DropGroup(ms: seq<EndpointSlice>, service: Service, addressType: AddressType, g: PortMapKey, d: DesiredByPorts)
    requires DistinctNames(ms) && g !in d && forall i :: 0 <= i < |ms| ==> PortKey(ms[i].ports) == g
    ensures GroupPlan(ms, service, addressType, g, d, Plan([], [], ms))
  {
    AppliedNothing(ms, [], ms);
  }
}
