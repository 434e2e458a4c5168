/**
 Reconciling one port mapping from start to end, and running it again on its own outcome.
 */
module GroupReconciler {
  import opened Sequences
  import opened Discovery
  import opened EndpointSets
  import opened Keeping
  import opened Packing
  import opened PortMapping
  import opened SliceLabels

  /* A settled group is left alone */

  lemma {:induction false} OccurrencesAtLeast(ss: seq<EndpointSlice>, i: nat, j: nat, k: EndpointKey)
    requires i < j <= |ss|
    ensures Occurrences(ss[..j], k) >= Occurrences(ss[..i], k) + CountKey(ss[i].endpoints, k)
  {
    PrefixStep(ss, j - 1);
    if i < j - 1 {
      OccurrencesAtLeast(ss, i, j - 1, k);
    }
  }

  lemma {:induction false} OccursSomewhere(ss: seq<EndpointSlice>, k: EndpointKey)
    ensures Occurrences(ss, k) > 0 <==> k in AllKeys(ss)
  {
    if ss != [] {
      var n := |ss| - 1;
      OccursSomewhere(ss[..n], k);
      WholePrefix(ss);
      AllKeysSnoc(ss, n);
      CountsSomewhere(ss[n].endpoints, k);
    }
  }

  lemma {:induction false} CountsSomewhere(es: seq<Endpoint>, k: EndpointKey)
    ensures CountKey(es, k) > 0 <==> k in KeySet(es)
  {
    if es != [] {
      CountsSomewhere(es[..|es| - 1], k);
      KeySetSnoc(es);
    }
  }

  lemma SettledIsKept(existing: seq<EndpointSlice>, d: Desired, service: Service, managedBy: string, j: nat)
    requires Settled(existing, d, service) && j < |existing|
    ensures VerdictOn(existing, j, d, service, managedBy).Unchanged?
  {
    var es, rest := existing[j].endpoints, d - AllKeys(existing[..j]);
    assert existing[j] in existing;
    WholePrefix(existing);
    forall k
      ensures CountKey(es, k) <= 1
      ensures CountKey(es, k) == 1 ==> k !in AllKeys(existing[..j])
    {
      OccurrencesAtLeast(existing, j, |existing|, k);
      OccursSomewhere(existing[..j], k);
    }
    forall i | 0 <= i < |es| ensures es[i].key in rest && EqualBeyondHash(rest[es[i].key], es[i]) {
      CountKeyPositive(es, i);
      assert es[i] in es;
    }
    KeepsAll(es, rest);
  }

  lemma SettledLeavesNothing(existing: seq<EndpointSlice>, d: Desired, service: Service)
    requires Settled(existing, d, service)
    ensures d - AllKeys(existing) == map[]
  {
    forall k | k in d ensures k in AllKeys(existing) {
      OccursSomewhere(existing, k);
    }
  }

  // Endpoints in the first n slices together with desired ones not among them.
  ghost function PlacedOrLeft(existing: seq<EndpointSlice>, d: Desired, n: nat): nat
    requires n <= |existing|
  {
    TotalEndpoints(existing[..n]) + |d - AllKeys(existing[..n])|
  }

  lemma PlacedOrLeftStart(existing: seq<EndpointSlice>, d: Desired)
    ensures PlacedOrLeft(existing, d, 0) == |d|
  {
    NoKeys(existing, d);
  }

  lemma PlacedOrLeftStep(existing: seq<EndpointSlice>, d: Desired, service: Service, managedBy: string, n: nat)
    requires n < |existing| && Settled(existing, d, service)
    ensures PlacedOrLeft(existing, d, n + 1) == PlacedOrLeft(existing, d, n)
  {
    SettledIsKept(existing, d, service, managedBy, n);
    TotalSnoc(existing, n);
    RestSize(existing, n, d);
  }

  lemma {:induction false} Steady(f: nat -> int, n: nat)
    requires forall i: nat :: i < n ==> f(i + 1) == f(i)
    ensures f(n) == f(0)
  {
    if n > 0 {
      Steady(f, n - 1);
    }
  }

  lemma AllPlacedOrLeft(existing: seq<EndpointSlice>, d: Desired, service: Service, managedBy: string)
    requires Settled(existing, d, service)
    ensures PlacedOrLeft(existing, d, |existing|) == PlacedOrLeft(existing, d, 0)
  {
    var f := (n: nat) => if n <= |existing| then PlacedOrLeft(existing, d, n) else 0;
    forall i: nat | i < |existing| ensures f(i + 1) == f(i) {
      PlacedOrLeftStep(existing, d, service, managedBy, i);
    }
    Steady(f, |existing|);
  }

  // A settled group holds as many endpoints as are desired.
  lemma SettledTotal(existing: seq<EndpointSlice>, d: Desired, service: Service, managedBy: string)
    requires Settled(existing, d, service)
    ensures TotalEndpoints(existing) == |d|
  {
    AllPlacedOrLeft(existing, d, service, managedBy);
    PlacedOrLeftStart(existing, d);
    WholePrefix(existing);
    SettledLeavesNothing(existing, d, service);
  }

  /* The reconciliation */

  lemma JudgedBalanced(existing: seq<EndpointSlice>, d: Desired, service: Service, managedBy: string, w: Working)
    requires KeyedByKey(d) && Covers(w.byName, existing)
    requires Judged(existing, |existing|, d, service, managedBy, w)
    ensures Balanced(Current(existing, w.byName, w.toDelete), d - AllKeys(existing), d)
  {
    forall k {
      JudgedBalancedAt(existing, d, service, managedBy, w, k);
    }
  }

  lemma JudgedBalancedAt(existing: seq<EndpointSlice>, d: Desired, service: Service, managedBy: string, w: Working, k: EndpointKey)
    requires KeyedByKey(d) && Covers(w.byName, existing)
    requires Judged(existing, |existing|, d, service, managedBy, w)
    ensures Occurrences(Current(existing, w.byName, w.toDelete), k) + Indicator(k in d - AllKeys(existing)) == Indicator(k in d)
  {
    CurrentConserves(existing, |existing|, d, service, managedBy, w, k);
    WholePrefix(existing);
  }

  lemma FilledWellMarked(existing: seq<EndpointSlice>, w: Working, byName: map<Name, EndpointSlice>, items: Desired, max: nat)
    requires WellMarked(existing, w) && UpdatedFilled(w, byName, items, max)
    ensures WellMarked(existing, w.(byName := byName))
  {
    forall n | n in byName ensures byName[n].name == n {
      if n in w.toUpdate {
        assert Grown(w.byName[n], byName[n], items, max);
      }
    }
  }

  lemma PlacedNames(existing: seq<EndpointSlice>, w: Working, w': Working, create: seq<EndpointSlice>, touched: Option<Name>, d: Desired, max: nat)
    requires WellMarked(existing, w) && w.toDelete <= w.byName.Keys
    requires Placed(w, w', create, touched, d, max)
    ensures w'.toDelete == w.toDelete && w'.byName.Keys == w.byName.Keys
    ensures forall n :: n in w'.toUpdate + w'.toDelete ==> n in w'.byName
    ensures forall n :: n in w'.byName ==> w'.byName[n].name == n
  {
  }

  // What one call promises, for desired endpoints d: the group ends up settled, the lists are
  // consistent, the counters add up, and the packing is as tight as the design asks.
  ghost predicate Reconciled(existing: seq<EndpointSlice>, d: Desired, service: Service, managedBy: string, meta: EndpointMeta, max: nat,
                             create: seq<EndpointSlice>, update: seq<EndpointSlice>, delete: seq<EndpointSlice>,
                             numAdded: int, numRemoved: int) {
    && Settled(Applied(existing, update, delete) + create, d, service)
    && WellNamed(existing, NewEndpointSlice(service, meta, managedBy), create, update, delete)
    && Packed(existing, Verdicts(existing, d, service, managedBy), create, update, delete, max)
    && numAdded == |d - AllKeys(existing)|
    && TotalEndpoints(existing) - numRemoved + numAdded == |d|
    && (Settled(existing, d, service) ==> create == [] && update == [] && delete == [] && numAdded == 0 && numRemoved == 0)
  }

  // What step 1 establishes, with `items` still to be placed.
  ghost predicate StepOne(existing: seq<EndpointSlice>, d: Desired, service: Service, managedBy: string, w: Working, items: Desired) {
    && KeyedByKey(d) && items == d - AllKeys(existing)
    && Judged(existing, |existing|, d, service, managedBy, w)
    && WellMarked(existing, w) && w.toDelete <= w.byName.Keys
  }

  // What step 2 establishes, with `left` endpoints still to be placed.
  ghost predicate StepTwo(w: Working, items: Desired, w': Working, left: nat, max: nat)
    requires w.toUpdate <= w.byName.Keys
  {
    && w' == w.(byName := w'.byName) && UpdatedFilled(w, w'.byName, items, max)
    && (left > 0 ==> AllUpdatedFull(w.toUpdate, w'.byName, max))
  }

  ghost predicate Done(existing: seq<EndpointSlice>, d: Desired, service: Service, managedBy: string, blank: EndpointSlice, r: Trail) {
    && r.d == d && StepOne(existing, d, service, managedBy, r.w0, r.items)
    && StepTwo(r.w0, r.items, r.w1, r.left, r.max)
    && Placing(existing, d, r.w1, blank, r.max, r.w2, r.create, r.touched, map[])
    && r.left <= |r.items| && (r.left == 0 ==> r.create == [] && r.touched.None?)
  }

  lemma DoneSteps(existing: seq<EndpointSlice>, d: Desired, service: Service, managedBy: string, blank: EndpointSlice, r: Trail)
    requires Done(existing, d, service, managedBy, blank, r)
    ensures Steps(existing, Verdicts(existing, d, service, managedBy), r)
  {
  }

  // A settled group produces empty name sets.
  lemma DoneSettled(existing: seq<EndpointSlice>, d: Desired, service: Service, managedBy: string, blank: EndpointSlice, r: Trail)
    requires Done(existing, d, service, managedBy, blank, r) && Settled(existing, d, service)
    ensures r.items == map[] && r.create == [] && r.w2.toUpdate == {} && r.w2.toDelete == {}
  {
    SettledLeavesNothing(existing, d, service);
    forall n | n in Names(existing) ensures n !in r.w0.toUpdate && n !in r.w0.toDelete {
      var j := NameIndex(existing, n);
      SettledIsKept(existing, d, service, managedBy, j);
      assert Marked(existing[j], VerdictOn(existing, j, d, service, managedBy), r.w0);
    }
  }

  lemma DoneIsSettled(existing: seq<EndpointSlice>, d: Desired, service: Service, managedBy: string, meta: EndpointMeta, r: Trail,
                      update: seq<EndpointSlice>, delete: seq<EndpointSlice>)
    requires Done(existing, d, service, managedBy, NewEndpointSlice(service, meta, managedBy), r) && Listed(r, update, delete)
    ensures Settled(Applied(existing, update, delete) + r.create, d, service)
  {
    var verdicts := Verdicts(existing, d, service, managedBy);
    DoneSteps(existing, d, service, managedBy, NewEndpointSlice(service, meta, managedBy), r);
    forall i | 0 <= i < |existing|
      ensures Traced(existing[i], VerdictOn(existing, i, d, service, managedBy), r.w2, r.touched, d, r.max)
    {
      StepsTraced(existing, verdicts, r, i);
    }
    SettledFromTrace(existing, d, service, managedBy, meta, r.max, r.w2, r.touched, r.create, update, delete);
  }

  lemma Conclude(existing: seq<EndpointSlice>, d: Desired, service: Service, managedBy: string, meta: EndpointMeta, r: Trail,
                 update: seq<EndpointSlice>, delete: seq<EndpointSlice>, numAdded: int, numRemoved: int)
    requires Done(existing, d, service, managedBy, NewEndpointSlice(service, meta, managedBy), r) && Listed(r, update, delete)
    requires |update| == |r.w2.toUpdate| && |delete| == |r.w2.toDelete|
    requires numAdded == |r.items| && numRemoved == TotalEndpoints(existing) - |d| + |r.items|
    ensures Reconciled(existing, d, service, managedBy, meta, r.max, r.create, update, delete, numAdded, numRemoved)
  {
    var blank := NewEndpointSlice(service, meta, managedBy);
    DoneSteps(existing, d, service, managedBy, blank, r);
    DoneIsSettled(existing, d, service, managedBy, meta, r, update, delete);
    StepsPacked(existing, Verdicts(existing, d, service, managedBy), r, blank, update, delete);
    StepsWellNamed(existing, d, service, managedBy, r, blank, update, delete);
    if Settled(existing, d, service) {
      ConcludeSettled(existing, d, service, managedBy, blank, r);
    }
  }

  lemma ConcludeSettled(existing: seq<EndpointSlice>, d: Desired, service: Service, managedBy: string, blank: EndpointSlice, r: Trail)
    requires Done(existing, d, service, managedBy, blank, r) && Settled(existing, d, service)
    ensures r.create == [] && |r.w2.toUpdate| == 0 && |r.w2.toDelete| == 0
    ensures |r.items| == 0 && TotalEndpoints(existing) == |d|
  {
    DoneSettled(existing, d, service, managedBy, blank, r);
    SettledTotal(existing, d, service, managedBy);
  }

  lemma WithinSmaller(small: Desired, d: Desired, taken: set<EndpointKey>)
    requires Within(small, d - taken)
    ensures Within(small, d)
  {
  }

  lemma WithinSize(small: Desired, big: Desired)
    requires Within(small, big)
    ensures |small| <= |big|
  {
    assert small.Keys <= big.Keys;
    SubsetSize(small.Keys, big.Keys);
  }

  method StepsOneAndTwo(service: Service, managedBy: string, max: nat, existing: seq<EndpointSlice>, desired: EndpointSet)
    returns (w0: Working, w1: Working, ghost items: Desired, numAdded: int, numRemoved: int)
    requires DistinctNames(existing) && desired.Valid()
    modifies desired
    ensures StepOne(existing, old(desired.items), service, managedBy, w0, items)
    ensures StepTwo(w0, items, w1, |desired.items|, max)
    ensures numAdded == |items| && numRemoved == TotalEndpoints(existing) - |old(desired.items)| + |items|
    ensures desired.Valid() && WellMarked(existing, w1) && Within(desired.items, old(desired.items)) && |desired.items| <= |items|
    ensures Balanced(Current(existing, w1.byName, w1.toDelete), desired.items, old(desired.items))
  {
    ghost var d := desired.items;
    w0, numRemoved := KeepDesired(service, managedBy, existing, desired);
    items, numAdded := desired.items, |desired.items|;
    JudgedWellMarked(existing, d, service, managedBy, w0);
    JudgedBalanced(existing, d, service, managedBy, w0);
    var byName := FillUpdated(existing, d, w0, desired, max);
    w1 := w0.(byName := byName);
    FilledWellMarked(existing, w0, byName, items, max);
    WithinSmaller(desired.items, d, AllKeys(existing));
    WithinSize(desired.items, items);
  }

  method RunSteps(service: Service, managedBy: string, max: nat, existing: seq<EndpointSlice>, desired: EndpointSet, blank: EndpointSlice)
    returns (w: Working, create: seq<EndpointSlice>, numAdded: int, numRemoved: int, ghost r: Trail)
    requires max >= 1 && DistinctNames(existing) && desired.Valid() && blank.endpoints == []
    modifies desired
    ensures desired.items == map[]
    ensures Done(existing, old(desired.items), service, managedBy, blank, r) && r.max == max && r.w2 == w && r.create == create
    ensures numAdded == |r.items| && numRemoved == TotalEndpoints(existing) - |old(desired.items)| + |r.items|
  {
    ghost var d := desired.items;
    var w0, w1, items, added, removed := StepsOneAndTwo(service, managedBy, max, existing, desired);
    ghost var left := |desired.items|;
    var w2, created, touched := PlaceRemainder(existing, d, w1, blank, desired, max);
    w, create, numAdded, numRemoved := w2, created, added, removed;
    r := Trail(d, items, left, max, w0, w1, w2, create, touched);
  }

  lemma DoneNames(existing: seq<EndpointSlice>, d: Desired, service: Service, managedBy: string, blank: EndpointSlice, r: Trail)
    requires Done(existing, d, service, managedBy, blank, r)
    ensures forall n :: n in r.w2.toUpdate + r.w2.toDelete ==> n in r.w2.byName && r.w2.byName[n].name == n
  {
    PlacedNames(existing, r.w1, r.w2, r.create, r.touched, d, r.max);
  }

  method ReconcileByPortMapping(service: Service, managedBy: string, max: nat, existing: seq<EndpointSlice>,
                                desired: EndpointSet, meta: EndpointMeta)
    returns (create: seq<EndpointSlice>, update: seq<EndpointSlice>, delete: seq<EndpointSlice>, numAdded: int, numRemoved: int)
    requires max >= 1 && DistinctNames(existing) && desired.Valid()
    modifies desired
    ensures desired.items == map[]
    ensures Reconciled(existing, old(desired.items), service, managedBy, meta, max, create, update, delete, numAdded, numRemoved)
  {
    ghost var d := desired.items;
    var blank := NewEndpointSlice(service, meta, managedBy);
    var w, created, added, removed, r := RunSteps(service, managedBy, max, existing, desired, blank);
    DoneNames(existing, d, service, managedBy, blank, r);
    create, numAdded, numRemoved := created, added, removed;
    update := Enumerate(w.toUpdate, w.byName);
    delete := Enumerate(w.toDelete, w.byName);
    Conclude(existing, d, service, managedBy, meta, r, update, delete, numAdded, numRemoved);
  }

  /* What a call means for each endpoint and slice */

  // Every endpoint of every slice that remains is as desired.
  lemma RemainingAsDesired(existing: seq<EndpointSlice>, d: Desired, service: Service, managedBy: string, meta: EndpointMeta, max: nat,
                           create: seq<EndpointSlice>, update: seq<EndpointSlice>, delete: seq<EndpointSlice>,
                           numAdded: int, numRemoved: int, s: EndpointSlice, e: Endpoint)
    requires Reconciled(existing, d, service, managedBy, meta, max, create, update, delete, numAdded, numRemoved)
    requires s in Applied(existing, update, delete) + create && e in s.endpoints
    ensures e.key in d && e.nodeName == d[e.key].nodeName && e.zone == d[e.key].zone && e.conditions == d[e.key].conditions
    ensures e.targetRef.Some? <==> d[e.key].targetRef.Some?
    ensures e.targetRef.Some? ==>
      e.targetRef.value.kind == d[e.key].targetRef.value.kind && e.targetRef.value.uid == d[e.key].targetRef.value.uid
  {
    assert UpToDate(s.endpoints, d);
    assert EqualBeyondHash(d[e.key], e);
  }

  lemma {:induction false} UntouchedRemains(ss: seq<EndpointSlice>, update: seq<EndpointSlice>, delete: seq<EndpointSlice>, i: nat)
    requires i < |ss| && ss[i].name !in Names(update) && ss[i].name !in Names(delete)
    ensures ss[i] in Applied(ss, update, delete)
  {
    var n := |ss| - 1;
    if i < n {
      UntouchedRemains(ss[..n], update, delete, i);
    } else {
      FindMissing(update, ss[n].name);
    }
  }

  lemma {:induction false} FindMissing(ss: seq<EndpointSlice>, name: Name)
    requires name !in Names(ss)
    ensures FindByName(ss, name).None?
  {
    if ss != [] {
      var n := |ss| - 1;
      assert ss == ss[..n] + [ss[n]];
      FindMissing(ss[..n], name);
    }
  }

  lemma SettledAsDesired(ss: seq<EndpointSlice>, d: Desired, service: Service, s: EndpointSlice)
    requires Settled(ss, d, service) && s in ss
    ensures forall e :: e in s.endpoints ==> e.key in d && AsDesired(e, d[e.key])
    ensures forall k :: k !in RESERVED ==> SameUnder(s.labels, service.labels, k)
  {
    MirrorsExactly(s, service);
    assert UpToDate(s.endpoints, d);
  }

  // A slice is neither updated nor deleted only if all its endpoints are desired and as desired, and its labels are the
  // service's outside three keys.
  lemma LeftAloneIsRight(existing: seq<EndpointSlice>, d: Desired, service: Service, managedBy: string, meta: EndpointMeta, max: nat,
                         create: seq<EndpointSlice>, update: seq<EndpointSlice>, delete: seq<EndpointSlice>,
                         numAdded: int, numRemoved: int, i: nat)
    requires Reconciled(existing, d, service, managedBy, meta, max, create, update, delete, numAdded, numRemoved)
    requires i < |existing| && existing[i].name !in Names(update) && existing[i].name !in Names(delete)
    ensures forall e :: e in existing[i].endpoints ==> e.key in d && AsDesired(e, d[e.key])
    ensures forall k :: k !in RESERVED ==> SameUnder(existing[i].labels, service.labels, k)
  {
    UntouchedRemains(existing, update, delete, i);
    SettledAsDesired(Applied(existing, update, delete) + create, d, service, existing[i]);
  }

  // A slice created gets the service's namespace and labels, the controller's labels and an owner reference to the service.
  lemma CreatedFor(existing: seq<EndpointSlice>, service: Service, managedBy: string, meta: EndpointMeta,
                   create: seq<EndpointSlice>, update: seq<EndpointSlice>, delete: seq<EndpointSlice>, t: EndpointSlice)
    requires WellNamed(existing, NewEndpointSlice(service, meta, managedBy), create, update, delete) && t in create
    ensures t.labels == SliceLabelsFor(service, managedBy) && t.namespace == service.namespace && t.ports == meta.ports
    ensures t.owners == [OwnerReference(service.uid, "Service", "v1")] && t.addressType == meta.addressType
  {
    assert t == NewEndpointSlice(service, meta, managedBy).(endpoints := t.endpoints);
  }

  // An updated slice gets the labels, unless it is only filled up.
  lemma UpdatedLabels(existing: seq<EndpointSlice>, d: Desired, service: Service, managedBy: string, max: nat,
                      create: seq<EndpointSlice>, update: seq<EndpointSlice>, delete: seq<EndpointSlice>, i: nat)
    requires Packed(existing, Verdicts(existing, d, service, managedBy), create, update, delete, max)
    requires i < |existing| && existing[i].name in Names(update) && existing[i].name !in Names(delete)
    ensures var t := Resolve(update, existing[i]);
      t.labels == SliceLabelsFor(service, managedBy) || (t.labels == existing[i].labels && existing[i].endpoints < t.endpoints)
  {
    var v := VerdictOn(existing, i, d, service, managedBy);
    assert SlicePacked(existing, i, v, create, update, delete, max);
    if v.Unchanged? {
      assert TouchedPacked(existing, i, Verdicts(existing, d, service, managedBy), create, update, max);
    }
  }
}
