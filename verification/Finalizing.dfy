/**
 Carrying out a plan: creates become updates of doomed slices where that is allowed, then the
 slices are created, updated and deleted, until a call fails.
 */
module Finalizing {
  import opened Sequences
  import opened Discovery
  import opened Groups
  import opened GroupProgress
  import opened Placeholders
  import opened HintedPlans
  import opened ApiServers
  import opened AddressTypes

  /* Creates that become updates */

  // Slices to create took over the names `reused` holds.
  ghost predicate Converted(p: Plan, q: Plan, reused: seq<EndpointSlice>) {
    && AllRenamed(p.create, q.create + reused)
    && (forall t :: t in q.update <==> t in p.update || t in reused)
    && Names(q.update) == Names(p.update) + Names(reused) && DistinctNames(q.update)
    && DistinctNames(reused) && DistinctNames(q.delete)
    && Names(q.delete) + Names(reused) == Names(p.delete) && Names(q.delete) !! Names(reused)
  }

  // Only slices of the service and of the same address type are overwritten.
  ghost predicate MayTake(s: EndpointSlice, service: Service, addressType: AddressType) {
    s.addressType == addressType && Owns(service, s)
  }

  ghost predicate TakenAllowed(delete: seq<EndpointSlice>, reused: seq<EndpointSlice>, service: Service, addressType: AddressType) {
    forall t :: t in reused ==> exists i :: 0 <= i < |delete| && delete[i].name == t.name && MayTake(delete[i], service, addressType)
  }

  ghost predicate Converting(p: Plan, q: Plan, reused: seq<EndpointSlice>, service: Service, addressType: AddressType) {
    && Converted(p, q, reused) && CreatesOwned(q, service, addressType)
    && TakenAllowed(p.delete, reused, service, addressType)
    && (forall s :: s in q.delete ==> s in p.delete)
  }

  lemma NamesSingle(s: EndpointSlice)
    ensures Names([s]) == {s.name}
  {
    assert [s][0].name == s.name;
  }

  lemma NamesRemoved(ss: seq<EndpointSlice>, i: nat)
    requires i < |ss| && DistinctNames(ss)
    ensures var rest := ss[..i] + ss[i + 1..];
      Names(rest) + {ss[i].name} == Names(ss) && ss[i].name !in Names(rest) && DistinctNames(rest)
  {
    var front, back := ss[..i], ss[i + 1..];
    Around(ss, i);
    NamesAround(front, ss[i], back);
    forall n | n in Names(front + back) ensures n != ss[i].name {
      var j := NameIndex(front + back, n);
    }
  }

  lemma NamesAround(front: seq<EndpointSlice>, s: EndpointSlice, back: seq<EndpointSlice>)
    ensures Names(front + [s] + back) == Names(front + back) + {s.name}
  {
    NamesConcat(front + [s], back);
    NamesConcat(front, [s]);
    NamesConcat(front, back);
    NamesSingle(s);
  }

  lemma Around<T>(s: seq<T>, i: nat)
    requires i < |s|
    ensures s == s[..i] + [s[i]] + s[i + 1..]
  {
  }

  lemma ConvertStep(p: Plan, q: Plan, reused: seq<EndpointSlice>, service: Service, addressType: AddressType, i: nat)
    requires Converting(p, q, reused, service, addressType) && Names(p.update) !! Names(p.delete)
    requires q.create != [] && i < |q.delete| && MayTake(q.delete[i], service, addressType)
    ensures var n := |q.create| - 1;
      var t := q.create[n].(name := q.delete[i].name);
      Converting(p, Plan(q.create[..n], q.update + [t], q.delete[..i] + q.delete[i + 1..]), [t] + reused, service, addressType)
  {
    var n := |q.create| - 1;
    var t := q.create[n].(name := q.delete[i].name);
    NamesRemoved(q.delete, i);
    NamesSingle(t);
    NamesConcat(q.update, [t]);
    NamesConcat([t], reused);
    DistinctJoined(q.update, [t]);
    DistinctJoined([t], reused);
    var front := q.create[..n];
    assert q.create + reused == front + ([q.create[n]] + reused);
    forall j | 0 <= j < |p.create| ensures (front + ([t] + reused))[j] == p.create[j].(name := (front + ([t] + reused))[j].name) {
      assert (q.create + reused)[j] == p.create[j].(name := (q.create + reused)[j].name);
    }
    assert q.delete[i] in p.delete;
    var l :| 0 <= l < |p.delete| && p.delete[l] == q.delete[i];
    assert p.delete[l].name == t.name;
  }

  method ConvertCreates(service: Service, addressType: AddressType, p: Plan) returns (q: Plan, ghost reused: seq<EndpointSlice>)
    requires CreatesOwned(p, service, addressType)
    requires DistinctNames(p.update) && DistinctNames(p.delete) && Names(p.update) !! Names(p.delete)
    ensures Converting(p, q, reused, service, addressType)
    ensures q.create == [] || forall i :: 0 <= i < |q.delete| ==> !MayTake(q.delete[i], service, addressType)
  {
    q, reused := p, [];
    assert p.create + [] == p.create;
    var i := 0;
    while i < |q.delete|
      invariant 0 <= i <= |q.delete| && Converting(p, q, reused, service, addressType)
      invariant forall j :: 0 <= j < i ==> !MayTake(q.delete[j], service, addressType)
      decreases |q.delete| - i
    {
      if |q.create| == 0 {
        break;
      }
      var doomed, slice := q.delete[i], q.create[|q.create| - 1];
      var owned := OwnedBy(doomed, service);
      if doomed.addressType == slice.addressType && owned {
        ConvertStep(p, q, reused, service, addressType, i);
        var renamed := slice.(name := doomed.name);
        q := Plan(q.create[..|q.create| - 1], q.update + [renamed], q.delete[..i] + q.delete[i + 1..]);
        reused := [renamed] + reused;
      } else {
        i := i + 1;
      }
    }
  }

  /* The three loops of API calls */

  datatype Status = Finished | Dropped | Failed

  // The result of the one call that failed, if any.
  function FailureOf(status: Status): seq<CallResult> {
    match status
    case Finished => []
    case Dropped => [NamespaceTerminating]
    case Failed => [Refused]
  }

  lemma NameSeqSnoc(ss: seq<EndpointSlice>, s: EndpointSlice)
    ensures NameSeq(ss + [s]) == NameSeq(ss) + [s.name]
  {
  }

  // `made` are slices to create, under new names.
  ghost predicate Made(was: map<Name, EndpointSlice>, create: seq<EndpointSlice>, made: seq<EndpointSlice>) {
    && DistinctNames(made) && Names(made) !! was.Keys
    && |made| <= |create| && forall i :: 0 <= i < |made| ==> made[i] == create[i].(name := made[i].name)
  }

  lemma MadeSnoc(was: map<Name, EndpointSlice>, create: seq<EndpointSlice>, made: seq<EndpointSlice>, s: EndpointSlice)
    requires Made(was, create, made) && |made| < |create| && s == create[|made|].(name := s.name)
    requires s.name !in Written(was, made)
    ensures Made(was, create, made + [s]) && Written(was, made + [s]) == Written(was, made)[s.name := s]
    ensures NameSeq(made + [s]) == NameSeq(made) + [s.name]
  {
    WrittenLookup(was, made, s.name);
    NamesConcat(made, [s]);
    NamesSingle(s);
    assert (made + [s])[..|made|] == made;
    DistinctJoined(made, [s]);
  }

  method CreateAll(api: ApiServer, create: seq<EndpointSlice>) returns (status: Status, ghost made: seq<EndpointSlice>)
    requires api.Valid()
    modifies api
    ensures api.Valid() && Made(old(api.slices), create, made)
    ensures status.Finished? ==> |made| == |create|
    ensures api.slices == Written(old(api.slices), made) && api.log == old(api.log) + NameSeq(made)
    ensures api.failures == old(api.failures) + FailureOf(status)
  {
    made := [];
    status := Finished;
    for i := 0 to |create|
      invariant api.Valid() && |made| == i && Made(old(api.slices), create, made)
      invariant api.slices == Written(old(api.slices), made) && api.log == old(api.log) + NameSeq(made)
      invariant api.failures == old(api.failures)
    {
      var r, created := api.Create(create[i]);
      if r.NamespaceTerminating? {
        status := Dropped;
        return;
      } else if r.Refused? {
        status := Failed;
        return;
      }
      MadeSnoc(old(api.slices), create, made, created);
      made := made + [created];
    }
  }

  method UpdateAll(api: ApiServer, update: seq<EndpointSlice>) returns (status: Status, ghost k: nat)
    requires api.Valid()
    modifies api
    ensures api.Valid() && k <= |update| && !status.Dropped? && (status.Finished? ==> k == |update|)
    ensures api.slices == Written(old(api.slices), update[..k]) && api.log == old(api.log) + NameSeq(update[..k])
    ensures api.failures == old(api.failures) + FailureOf(status)
  {
    k := 0;
    status := Finished;
    for i := 0 to |update|
      invariant api.Valid() && k == i
      invariant api.slices == Written(old(api.slices), update[..i]) && api.log == old(api.log) + NameSeq(update[..i])
      invariant api.failures == old(api.failures)
    {
      var r := api.Update(update[i]);
      if !r.Done? {
        status := Failed;
        return;
      }
      PrefixStep(update, i);
      NameSeqSnoc(update[..i], update[i]);
      k := k + 1;
    }
  }

  lemma ErasedSnoc(m: map<Name, EndpointSlice>, ss: seq<EndpointSlice>, s: EndpointSlice)
    ensures Erased(m, ss + [s]) == Erased(m, ss) - {s.name}
  {
    NamesConcat(ss, [s]);
    NamesSingle(s);
  }

  method DeleteAll(api: ApiServer, delete: seq<EndpointSlice>) returns (status: Status, ghost k: nat)
    requires api.Valid()
    modifies api
    ensures api.Valid() && k <= |delete| && !status.Dropped? && (status.Finished? ==> k == |delete|)
    ensures api.slices == Erased(old(api.slices), delete[..k]) && api.log == old(api.log) + NameSeq(delete[..k])
    ensures api.failures == old(api.failures) + FailureOf(status)
  {
    k := 0;
    status := Finished;
    for i := 0 to |delete|
      invariant api.Valid() && k == i
      invariant api.slices == Erased(old(api.slices), delete[..i]) && api.log == old(api.log) + NameSeq(delete[..i])
      invariant api.failures == old(api.failures)
    {
      var r := api.Delete(delete[i].name);
      if !r.Done? {
        status := Failed;
        return;
      }
      PrefixStep(delete, i);
      NameSeqSnoc(delete[..i], delete[i]);
      ErasedSnoc(old(api.slices), delete[..i], delete[i]);
      k := k + 1;
    }
  }
}
