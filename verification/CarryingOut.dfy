/**
 What the API server holds once a plan has been carried out, in full or up to a failing call.
 */
module CarryingOut {
  import opened Sequences
  import opened Discovery
  import opened PortMapping
  import opened Groups
  import opened GroupProgress
  import opened Placeholders
  import opened HintedPlans
  import opened ApiServers
  import opened Finalizing

  type Table = map<Name, EndpointSlice>

  // The reconciler's view is what the server holds.
  ghost predicate Mirrored(existing: seq<EndpointSlice>, m: Table) {
    forall i :: 0 <= i < |existing| ==> existing[i].name in m && m[existing[i].name] == existing[i]
  }

  // In place of `existing` the server holds `after`, and everything else is as it was.
  ghost predicate Carried(was: Table, now: Table, existing: seq<EndpointSlice>, after: seq<EndpointSlice>) {
    && DistinctNames(after)
    && now.Keys == (was.Keys - Names(existing)) + Names(after)
    && (forall i :: 0 <= i < |after| ==> after[i].name in now && now[after[i].name] == after[i])
    && Names(after) !! (was.Keys - Names(existing))
    && (forall n :: n in was && n !in Names(existing) ==> n in now && now[n] == was[n])
  }

  // What any run leaves alone, however far it got: slices outside the view, the names of updated
  // slices, and the contents of slices the service may not take over.
  ghost predicate Respects(was: Table, now: Table, existing: seq<EndpointSlice>, p: Plan, service: Service, addressType: AddressType) {
    && (forall n :: n in was && n !in Names(existing) ==> n in now && now[n] == was[n])
    && (forall n :: n in was && n in Names(p.update) ==> n in now)
    && (forall i :: 0 <= i < |existing| && !MayTake(existing[i], service, addressType) && existing[i].name !in Names(p.update) ==>
          var n := existing[i].name; n in was && n in now ==> now[n] == was[n])
  }

  datatype Run = Run(q: Plan, reused: seq<EndpointSlice>, made: seq<EndpointSlice>, updated: nat, deleted: nat)

  // How far the calls of a converted plan got.
  ghost predicate Ran(was: Table, now: Table, r: Run) {
    && r.updated <= |r.q.update| && r.deleted <= |r.q.delete| && Made(was, r.q.create, r.made)
    && now == Erased(Written(Written(was, r.made), r.q.update[..r.updated]), r.q.delete[..r.deleted])
  }

  function Writes(r: Run): seq<EndpointSlice>
    requires r.updated <= |r.q.update| && r.deleted <= |r.q.delete|
  {
    r.made + r.q.update[..r.updated] + r.q.delete[..r.deleted]
  }

  lemma PrefixNames(ss: seq<EndpointSlice>, k: nat)
    requires k <= |ss|
    ensures Names(ss[..k]) <= Names(ss) && (DistinctNames(ss) ==> DistinctNames(ss[..k]))
  {
    NamesConcat(ss[..k], ss[k..]);
    assert ss == ss[..k] + ss[k..];
  }

  // Where a name stands after the run.
  lemma RanLookup(was: Table, now: Table, r: Run, n: Name)
    requires Ran(was, now, r)
    ensures n in now <==> (n in was || n in Names(r.made) || n in Names(r.q.update[..r.updated])) && n !in Names(r.q.delete[..r.deleted])
    ensures n in now && n in Names(r.q.update[..r.updated]) ==> FindByName(r.q.update[..r.updated], n) == Some(now[n])
    ensures n in now && n !in Names(r.q.update[..r.updated]) && n in Names(r.made) ==> FindByName(r.made, n) == Some(now[n])
    ensures n in now && n !in Names(r.q.update[..r.updated]) && n !in Names(r.made) ==> n in was && now[n] == was[n]
  {
    WrittenLookup(was, r.made, n);
    WrittenLookup(Written(was, r.made), r.q.update[..r.updated], n);
  }

  lemma ReusedMayBeTaken(existing: seq<EndpointSlice>, p: Plan, q: Plan, reused: seq<EndpointSlice>, service: Service, addressType: AddressType, i: nat)
    requires DistinctNames(existing) && Consistent(existing, p) && Converting(p, q, reused, service, addressType)
    requires i < |existing|
    ensures existing[i].name in Names(reused) ==> MayTake(existing[i], service, addressType)
  {
    if existing[i].name in Names(reused) {
      var t := reused[NameIndex(reused, existing[i].name)];
      assert t in reused;
      var j :| 0 <= j < |p.delete| && p.delete[j].name == t.name && MayTake(p.delete[j], service, addressType);
      assert p.delete[j] in existing;
      var l :| 0 <= l < |existing| && existing[l] == p.delete[j];
      assert l == i;
    }
  }

  lemma RunRespects(was: Table, now: Table, existing: seq<EndpointSlice>, p: Plan, r: Run, service: Service, addressType: AddressType)
    requires DistinctNames(existing) && Consistent(existing, p) && Converting(p, r.q, r.reused, service, addressType)
    requires Ran(was, now, r)
    ensures Respects(was, now, existing, p, service, addressType)
  {
    PlanNames(existing, p);
    PrefixNames(r.q.update, r.updated);
    PrefixNames(r.q.delete, r.deleted);
    forall n | n in was && n !in Names(existing) ensures n in now && now[n] == was[n] {
      RanLookup(was, now, r, n);
    }
    forall n | n in was && n in Names(p.update) ensures n in now {
      RanLookup(was, now, r, n);
    }
    forall i | 0 <= i < |existing| && !MayTake(existing[i], service, addressType) && existing[i].name !in Names(p.update)
      ensures var n := existing[i].name; n in was && n in now ==> now[n] == was[n]
    {
      RanLookup(was, now, r, existing[i].name);
      ReusedMayBeTaken(existing, p, r.q, r.reused, service, addressType, i);
    }
  }

  // No name is written twice, nor both updated and deleted.
  lemma WritesDistinct(was: Table, now: Table, existing: seq<EndpointSlice>, p: Plan, r: Run)
    requires Consistent(existing, p) && Converted(p, r.q, r.reused) && Ran(was, now, r)
    requires Mirrored(existing, was)
    ensures DistinctNames(Writes(r))
  {
    PlanNames(existing, p);
    PrefixNames(r.q.update, r.updated);
    PrefixNames(r.q.delete, r.deleted);
    forall n | n in Names(existing) ensures n in was {
      var i := NameIndex(existing, n);
    }
    DistinctJoined(r.made, r.q.update[..r.updated]);
    NamesConcat(r.made, r.q.update[..r.updated]);
    DistinctJoined(r.made + r.q.update[..r.updated], r.q.delete[..r.deleted]);
  }

  /* A finished run */

  function Survivors(existing: seq<EndpointSlice>, p: Plan, r: Run): seq<EndpointSlice> {
    Applied(existing, p.update, p.delete) + (r.made + r.reused)
  }

  lemma {:induction false} AppliedNames(ss: seq<EndpointSlice>, update: seq<EndpointSlice>, delete: seq<EndpointSlice>)
    requires KeepsGroups(ss, update, delete) && DistinctNames(ss)
    ensures Names(Applied(ss, update, delete)) == Names(ss) - Names(delete) && DistinctNames(Applied(ss, update, delete))
  {
    if ss != [] {
      var n := |ss| - 1;
      AppliedNames(ss[..n], update, delete);
      var t := Resolve(update, ss[n]);
      NamesConcat(ss[..n], [ss[n]]);
      NamesSingle(ss[n]);
      assert ss == ss[..n] + [ss[n]];
      if ss[n].name !in Names(delete) {
        assert SameIdentity(ss[n], t);
        NamesConcat(Applied(ss[..n], update, delete), [t]);
        NamesSingle(t);
        DistinctJoined(Applied(ss[..n], update, delete), [t]);
      } else {
        assert Applied(ss[..n], update, delete) + [] == Applied(ss[..n], update, delete);
      }
    }
  }

  ghost predicate FinishedRun(was: Table, now: Table, existing: seq<EndpointSlice>, p: Plan, r: Run) {
    && Ran(was, now, r) && r.updated == |r.q.update| && r.deleted == |r.q.delete|
    && DistinctNames(existing) && Consistent(existing, p) && Converted(p, r.q, r.reused) && Mirrored(existing, was)
  }

  lemma AfterNames(was: Table, now: Table, existing: seq<EndpointSlice>, p: Plan, r: Run)
    requires FinishedRun(was, now, existing, p, r)
    ensures Names(existing) <= was.Keys
    ensures Names(Survivors(existing, p, r)) == (Names(existing) - Names(p.delete)) + Names(r.made) + Names(r.reused)
    ensures DistinctNames(Survivors(existing, p, r))
  {
    var applied := Applied(existing, p.update, p.delete);
    PlanNames(existing, p);
    forall n | n in Names(existing) ensures n in was {
      var i := NameIndex(existing, n);
    }
    AppliedNames(existing, p.update, p.delete);
    NamesConcat(r.made, r.reused);
    NamesConcat(applied, r.made + r.reused);
    DistinctJoined(r.made, r.reused);
    DistinctJoined(applied, r.made + r.reused);
  }

  lemma AfterKeys(was: Table, now: Table, existing: seq<EndpointSlice>, p: Plan, r: Run)
    requires FinishedRun(was, now, existing, p, r)
    ensures now.Keys == (was.Keys - Names(existing)) + Names(Survivors(existing, p, r))
  {
    AfterNames(was, now, existing, p, r);
    PlanNames(existing, p);
    WholePrefix(r.q.update);
    WholePrefix(r.q.delete);
    forall n ensures n in now <==> n in (was.Keys - Names(existing)) + Names(Survivors(existing, p, r)) {
      RanLookup(was, now, r, n);
    }
  }

  // A slice in q's updates is what the server holds under its name.
  lemma UpdatedStands(was: Table, now: Table, existing: seq<EndpointSlice>, p: Plan, r: Run, t: EndpointSlice)
    requires FinishedRun(was, now, existing, p, r) && t in r.q.update
    ensures t.name in now && now[t.name] == t
  {
    WholePrefix(r.q.update);
    WholePrefix(r.q.delete);
    var i :| 0 <= i < |r.q.update| && r.q.update[i] == t;
    assert t.name in Names(r.q.update);
    RanLookup(was, now, r, t.name);
    FindEnumerated(r.q.update, t.name);
  }

  lemma MadeStands(was: Table, now: Table, existing: seq<EndpointSlice>, p: Plan, r: Run, i: nat)
    requires FinishedRun(was, now, existing, p, r) && i < |r.made|
    ensures r.made[i].name in now && now[r.made[i].name] == r.made[i]
  {
    var n := r.made[i].name;
    AfterNames(was, now, existing, p, r);
    PlanNames(existing, p);
    WholePrefix(r.q.update);
    WholePrefix(r.q.delete);
    assert n in Names(r.made);
    RanLookup(was, now, r, n);
    FindEnumerated(r.made, n);
  }

  lemma AppliedStands(was: Table, now: Table, existing: seq<EndpointSlice>, p: Plan, r: Run, t: EndpointSlice)
    requires FinishedRun(was, now, existing, p, r) && t in Applied(existing, p.update, p.delete)
    ensures t.name in now && now[t.name] == t
  {
    var i := AppliedMember(existing, p.update, p.delete, t);
    var s := existing[i];
    assert SameIdentity(s, t);
    FindEnumerated(p.update, s.name);
    if s.name in Names(p.update) {
      var j := NameIndex(p.update, s.name);
      assert p.update[j] in r.q.update;
      UpdatedStands(was, now, existing, p, r, t);
    } else {
      AfterNames(was, now, existing, p, r);
      WholePrefix(r.q.update);
      WholePrefix(r.q.delete);
      assert s.name in Names(existing);
      RanLookup(was, now, r, s.name);
    }
  }

  lemma RunCarried(was: Table, now: Table, existing: seq<EndpointSlice>, p: Plan, r: Run)
    requires FinishedRun(was, now, existing, p, r)
    ensures Carried(was, now, existing, Survivors(existing, p, r))
  {
    var after := Survivors(existing, p, r);
    AfterNames(was, now, existing, p, r);
    AfterKeys(was, now, existing, p, r);
    AfterFresh(was, now, existing, p, r);
    forall i | 0 <= i < |after| ensures after[i].name in now && now[after[i].name] == after[i] {
      AfterStands(was, now, existing, p, r, i);
    }
    OutsideStays(was, now, existing, p, r);
  }

  lemma AfterStands(was: Table, now: Table, existing: seq<EndpointSlice>, p: Plan, r: Run, i: nat)
    requires FinishedRun(was, now, existing, p, r) && i < |Survivors(existing, p, r)|
    ensures var t := Survivors(existing, p, r)[i]; t.name in now && now[t.name] == t
  {
    var after, applied := Survivors(existing, p, r), Applied(existing, p.update, p.delete);
    if i < |applied| {
      assert after[i] in applied;
      AppliedStands(was, now, existing, p, r, after[i]);
    } else if i < |applied| + |r.made| {
      MadeStands(was, now, existing, p, r, i - |applied|);
    } else {
      assert after[i] == r.reused[i - |applied| - |r.made|];
      assert after[i] in r.q.update;
      UpdatedStands(was, now, existing, p, r, after[i]);
    }
  }

  lemma OutsideStays(was: Table, now: Table, existing: seq<EndpointSlice>, p: Plan, r: Run)
    requires FinishedRun(was, now, existing, p, r)
    ensures forall n :: n in was && n !in Names(existing) ==> n in now && now[n] == was[n]
  {
    AfterNames(was, now, existing, p, r);
    PlanNames(existing, p);
    WholePrefix(r.q.update);
    WholePrefix(r.q.delete);
    forall n | n in was && n !in Names(existing) ensures n in now && now[n] == was[n] {
      RanLookup(was, now, r, n);
    }
  }

  // Names of slices outside the view are not taken.
  lemma AfterFresh(was: Table, now: Table, existing: seq<EndpointSlice>, p: Plan, r: Run)
    requires FinishedRun(was, now, existing, p, r)
    ensures Names(Survivors(existing, p, r)) !! (was.Keys - Names(existing))
  {
    AfterNames(was, now, existing, p, r);
    PlanNames(existing, p);
  }

  // Every slice that is new has the namespace, labels and owners of the placeholder, and its address type.
  ghost predicate NewBranded(was: Table, now: Table, placeholder: EndpointSlice) {
    forall n :: n in now && n !in was ==>
      && now[n].namespace == placeholder.namespace && now[n].labels == placeholder.labels
      && now[n].owners == placeholder.owners && now[n].addressType == placeholder.addressType
  }

  lemma RunBrands(was: Table, now: Table, existing: seq<EndpointSlice>, p: Plan, r: Run, service: Service, placeholder: EndpointSlice)
    requires Consistent(existing, p) && Converting(p, r.q, r.reused, service, placeholder.addressType) && Ran(was, now, r)
    requires Mirrored(existing, was) && Branded(p.create, placeholder)
    ensures NewBranded(was, now, placeholder)
  {
    PlanNames(existing, p);
    PrefixNames(r.q.update, r.updated);
    forall n | n in now && n !in was
      ensures now[n].namespace == placeholder.namespace && now[n].labels == placeholder.labels
      ensures now[n].owners == placeholder.owners && now[n].addressType == placeholder.addressType
    {
      assert n !in Names(existing) by {
        forall m | m in Names(existing) ensures m in was {
          var i := NameIndex(existing, m);
        }
      }
      RanLookup(was, now, r, n);
      FindNone(r.made, n);
      var j :| 0 <= j < |r.made| && r.made[j] == now[n];
      assert (r.q.create + r.reused)[j] == r.q.create[j];
      assert r.q.create[j] == p.create[j].(name := r.q.create[j].name);
    }
  }

  // If every slice to create was made, the server holds the plan's outcome.
  lemma RunOutcome(existing: seq<EndpointSlice>, p: Plan, r: Run)
    requires Converted(p, r.q, r.reused) && |r.made| == |r.q.create|
    requires forall i :: 0 <= i < |r.made| ==> r.made[i] == r.q.create[i].(name := r.made[i].name)
    ensures AllRenamed(Outcome(existing, p), Survivors(existing, p, r))
  {
    var applied := Applied(existing, p.update, p.delete);
    forall i | 0 <= i < |p.create| ensures (r.made + r.reused)[i] == p.create[i].(name := (r.made + r.reused)[i].name) {
      assert (r.q.create + r.reused)[i] == p.create[i].(name := (r.q.create + r.reused)[i].name);
    }
  }

  /* Finalize */

  // The run so far, with what it wrote in the log.
  ghost predicate Logged(was: Table, now: Table, before: seq<Name>, log: seq<Name>, r: Run) {
    Ran(was, now, r) && log == before + NameSeq(Writes(r))
  }

  lemma LoggedCreates(was: Table, before: seq<Name>, q: Plan, reused: seq<EndpointSlice>, made: seq<EndpointSlice>)
    requires Made(was, q.create, made)
    ensures Logged(was, Written(was, made), before, before + NameSeq(made), Run(q, reused, made, 0, 0))
  {
    assert made + q.update[..0] + q.delete[..0] == made;
  }

  lemma LoggedUpdates(was: Table, now: Table, before: seq<Name>, log: seq<Name>, r: Run, k: nat)
    requires Logged(was, now, before, log, r) && r.updated == r.deleted == 0 && k <= |r.q.update|
    ensures Logged(was, Written(now, r.q.update[..k]), before, log + NameSeq(r.q.update[..k]), r.(updated := k))
  {
    assert Writes(r) == r.made;
    assert Writes(r.(updated := k)) == r.made + r.q.update[..k];
    assert NameSeq(r.made + r.q.update[..k]) == NameSeq(r.made) + NameSeq(r.q.update[..k]);
    assert Names(r.q.delete[..0]) == {};
    assert now == Written(was, r.made);
  }

  lemma LoggedDeletes(was: Table, now: Table, before: seq<Name>, log: seq<Name>, r: Run, k: nat)
    requires Logged(was, now, before, log, r) && r.deleted == 0 && k <= |r.q.delete|
    ensures Logged(was, Erased(now, r.q.delete[..k]), before, log + NameSeq(r.q.delete[..k]), r.(deleted := k))
  {
    var wrote := r.made + r.q.update[..r.updated];
    assert Writes(r) == wrote;
    assert NameSeq(wrote + r.q.delete[..k]) == NameSeq(wrote) + NameSeq(r.q.delete[..k]);
    assert Names(r.q.delete[..0]) == {};
    assert now == Written(Written(was, r.made), r.q.update[..r.updated]);
  }

  // An empty plan makes no call.
  lemma EmptyRun(was: Table, now: Table, before: seq<Name>, log: seq<Name>, r: Run, service: Service, addressType: AddressType)
    requires Logged(was, now, before, log, r) && Converting(Plan([], [], []), r.q, r.reused, service, addressType)
    ensures now == was && log == before
  {
    assert r.q.create + r.reused == [];
    NoNames(r.q.update);
    NoNames(r.q.delete);
    assert Writes(r) == [];
    assert r.q.update[..r.updated] == [] && r.q.delete[..r.deleted] == [];
    assert was - Names([]) == was;
  }

  // A finished run of a plan that is not empty writes something.
  lemma NonemptyRun(was: Table, now: Table, before: seq<Name>, log: seq<Name>, p: Plan, r: Run)
    requires Logged(was, now, before, log, r) && Converted(p, r.q, r.reused) && p != Plan([], [], [])
    requires |r.made| == |r.q.create| && r.updated == |r.q.update| && r.deleted == |r.q.delete|
    ensures log != before
  {
    WholePrefix(r.q.update);
    WholePrefix(r.q.delete);
    if p.update != [] {
      assert p.update[0] in r.q.update;
    } else if r.reused != [] {
      assert r.reused[0] in r.q.update;
    } else if p.create == [] {
      assert p.delete[0].name in Names(p.delete);
      var i := NameIndex(r.q.delete, p.delete[0].name);
    }
    assert |Writes(r)| > 0;
  }

  // The calls after the creates.
  method UpdateAndDelete(api: ApiServer, q: Plan, ghost r0: Run, ghost was: Table, ghost before: seq<Name>)
    returns (status: Status, ghost r: Run)
    requires api.Valid() && Logged(was, api.slices, before, api.log, r0) && r0.q == q && r0.updated == r0.deleted == 0
    modifies api
    ensures api.Valid() && Logged(was, api.slices, before, api.log, r) && r == r0.(updated := r.updated, deleted := r.deleted)
    ensures api.failures == old(api.failures) + FailureOf(status)
    ensures status.Finished? ==> r.updated == |q.update| && r.deleted == |q.delete|
  {
    ghost var now, log, k := api.slices, api.log, 0;
    status, k := UpdateAll(api, q.update);
    LoggedUpdates(was, now, before, log, r0, k);
    r := r0.(updated := k);
    if !status.Finished? {
      return;
    }
    now, log := api.slices, api.log;
    status, k := DeleteAll(api, q.delete);
    LoggedDeletes(was, now, before, log, r, k);
    r := r.(deleted := k);
  }

  // Creates, updates and deletes slices as planned. A slice is not created for a service that is going away.
  method Finalize(api: ApiServer, service: Service, addressType: AddressType, p: Plan, ghost existing: seq<EndpointSlice>)
    returns (status: Status, ghost r: Run)
    requires api.Valid() && DistinctNames(existing) && Consistent(existing, p) && CreatesOwned(p, service, addressType)
    modifies api
    ensures api.Valid() && Logged(old(api.slices), api.slices, old(api.log), api.log, r)
    ensures Converting(p, r.q, r.reused, service, addressType)
    ensures service.terminating ==> r.made == []
    ensures api.failures == old(api.failures) + FailureOf(status)
    ensures status.Finished? ==> r.updated == |r.q.update| && r.deleted == |r.q.delete|
    ensures status.Finished? && !service.terminating ==> |r.made| == |r.q.create|
  {
    var q;
    ghost var reused;
    ghost var was, before := api.slices, api.log;
    q, reused := ConvertCreates(service, addressType, p);
    status := Finished;
    ghost var made := [];
    if !service.terminating {
      status, made := CreateAll(api, q.create);
    }
    r := Run(q, reused, made, 0, 0);
    assert before + NameSeq([]) == before;
    LoggedCreates(was, before, q, reused, made);
    if !status.Finished? {
      return;
    }
    status, r := UpdateAndDelete(api, q, r, was, before);
  }
}
