/**
 Reconciling the slices of one port mapping with the desired endpoints: keep what is still
 desired, fill the slices that have to be updated anyway, then place the remainder in one
 untouched slice or in new slices.
 */
module PortMapping {
  import opened Sequences
  import opened Discovery
  import opened EndpointSets
  import opened SliceLabels
  import opened Keeping
  import opened Packing

  datatype EndpointMeta = EndpointMeta(ports: seq<EndpointPort>, addressType: AddressType)

  function NewEndpointSlice(service: Service, meta: EndpointMeta, managedBy: string): EndpointSlice {
    EndpointSlice(Unset, service.namespace, SliceLabelsFor(service, managedBy),
                  [OwnerReference(service.uid, "Service", "v1")], meta.ports, meta.addressType, [])
  }

  /* Applying the three lists to the existing slices */

  function FindByName(ss: seq<EndpointSlice>, name: Name): Option<EndpointSlice> {
    if ss == [] then None
    else if ss[|ss| - 1].name == name then Some(ss[|ss| - 1])
    else FindByName(ss[..|ss| - 1], name)
  }

  // What stands under the name of s once the updates have been written.
  function Resolve(update: seq<EndpointSlice>, s: EndpointSlice): EndpointSlice {
    var u := FindByName(update, s.name);
    if u.Some? then u.value else s
  }

  // The existing slices after the updates and deletes.
  function Applied(existing: seq<EndpointSlice>, update: seq<EndpointSlice>, delete: seq<EndpointSlice>): seq<EndpointSlice> {
    if existing == [] then []
    else
      var front, s := existing[..|existing| - 1], existing[|existing| - 1];
      Applied(front, update, delete) + (if s.name in Names(delete) then [] else [Resolve(update, s)])
  }

  // Every desired endpoint stands in exactly one slice, in a version equal to the desired one
  // beyond the key; nothing else stands anywhere; and every slice mirrors the service's labels.
  ghost predicate Settled(ss: seq<EndpointSlice>, d: Desired, service: Service) {
    && (forall k :: Occurrences(ss, k) == Indicator(k in d))
    && (forall s :: s in ss ==> MirrorsLabels(s, service) && UpToDate(s.endpoints, d))
  }

  ghost predicate UpToDate(es: seq<Endpoint>, d: Desired) {
    forall e :: e in es ==> e.key in d && EqualBeyondHash(d[e.key], e)
  }

  // The two slices differ at most in their labels and endpoints.
  predicate SameIdentity(s: EndpointSlice, t: EndpointSlice) {
    t == s.(labels := t.labels, endpoints := t.endpoints)
  }

  /* From the name sets to the three lists */

  // `list` holds exactly the slices filed under the names of `names`.
  ghost predicate Enumerates(list: seq<EndpointSlice>, names: set<Name>, byName: map<Name, EndpointSlice>)
    requires names <= byName.Keys
  {
    && DistinctNames(list) && Names(list) == names
    && forall i :: 0 <= i < |list| ==> list[i].name in names && list[i] == byName[list[i].name]
  }

  method Enumerate(names: set<Name>, byName: map<Name, EndpointSlice>) returns (list: seq<EndpointSlice>)
    requires forall n :: n in names ==> n in byName && byName[n].name == n
    ensures Enumerates(list, names, byName) && |list| == |names|
  {
    var order := UnsortedList(names);
    list := Collect(order, byName);
    assert forall i :: 0 <= i < |order| ==> order[i] in names && list[i].name == order[i];
    forall n | n in names ensures n in Names(list) {
      var i :| 0 <= i < |order| && order[i] == n;
      assert list[i].name == n;
    }
  }

  lemma {:induction false} FindEnumerated(list: seq<EndpointSlice>, name: Name)
    requires DistinctNames(list)
    ensures FindByName(list, name).None? <==> name !in Names(list)
    ensures forall i :: 0 <= i < |list| && list[i].name == name ==> FindByName(list, name) == Some(list[i])
  {
    if list != [] {
      var front, last := list[..|list| - 1], list[|list| - 1];
      FindEnumerated(front, name);
      assert Names(list) == Names(front) + {last.name} by {
        assert list == front + [last];
      }
    }
  }

  // Applying the lists gives the state the reconciler worked towards.
  lemma {:induction false} AppliedIsCurrent(existing: seq<EndpointSlice>, byName: map<Name, EndpointSlice>, toUpdate: set<Name>, toDelete: set<Name>,
                                            update: seq<EndpointSlice>, delete: seq<EndpointSlice>)
    requires Covers(byName, existing) && toUpdate <= byName.Keys && toDelete <= byName.Keys
    requires Enumerates(update, toUpdate, byName) && Enumerates(delete, toDelete, byName)
    requires forall i :: 0 <= i < |existing| ==>
      existing[i].name in toUpdate || existing[i].name in toDelete || byName[existing[i].name] == existing[i]
    ensures Applied(existing, update, delete) == Current(existing, byName, toDelete)
  {
    if existing != [] {
      var n := |existing| - 1;
      AppliedIsCurrent(existing[..n], byName, toUpdate, toDelete, update, delete);
      ResolveEnumerated(update, toUpdate, byName, existing[n]);
    }
  }

  lemma ResolveEnumerated(update: seq<EndpointSlice>, toUpdate: set<Name>, byName: map<Name, EndpointSlice>, s: EndpointSlice)
    requires toUpdate <= byName.Keys && Enumerates(update, toUpdate, byName)
    ensures Resolve(update, s) == if s.name in toUpdate then byName[s.name] else s
  {
    FindEnumerated(update, s.name);
    if s.name in toUpdate {
      var i := NameIndex(update, s.name);
    }
  }

  /* What became of each existing slice */

  lemma JudgedWellMarked(existing: seq<EndpointSlice>, d: Desired, service: Service, managedBy: string, w: Working)
    requires DistinctNames(existing) && Judged(existing, |existing|, d, service, managedBy, w)
    ensures WellMarked(existing, w) && w.toDelete <= w.byName.Keys
  {
    WholePrefix(existing);
    JudgedCovers(existing, d, service, managedBy, w);
    forall n | n in w.byName
      ensures w.byName[n].name == n
      ensures !(n in w.toUpdate && n in w.toDelete) && !(n in w.toUpdate && n in w.untouched) && !(n in w.toDelete && n in w.untouched)
    {
      var j := NameIndex(existing, n);
      assert Marked(existing[j], VerdictOn(existing, j, d, service, managedBy), w);
    }
  }

  // Slice s, judged v, ended up as byName[s.name].
  ghost predicate Traced(s: EndpointSlice, v: Verdict, w: Working, touched: Option<Name>, d: Desired, max: nat) {
    && s.name in w.byName
    && var t := w.byName[s.name];
    match v
    case Delete => s.name in w.toDelete && s.name !in w.toUpdate && t == s
    case Update(u) => s.name !in w.toDelete && s.name in w.toUpdate && Grown(u, t, d, max)
    case Unchanged =>
      && s.name !in w.toDelete && (s.name in w.toUpdate <==> touched == Some(s.name))
      && Grown(s, t, d, max) && (s.name !in w.toUpdate ==> t == s)
  }

  lemma Trace(s: EndpointSlice, v: Verdict, w0: Working, w1: Working, w2: Working, create: seq<EndpointSlice>, touched: Option<Name>,
              items: Desired, d: Desired, max: nat)
    requires Marked(s, v, w0) && w0.toUpdate + w0.untouched <= w0.byName.Keys
    requires UpdatedFilled(w0, w1.byName, items, max) && w1 == w0.(byName := w1.byName) && Within(items, d)
    requires Placed(w1, w2, create, touched, d, max)
    ensures Traced(s, v, w2, touched, d, max)
  {
    if v.Update? {
      GrownMonotone(v.slice, w1.byName[s.name], items, d, max);
    }
  }

  /* Every slice that remains is up to date */

  lemma JudgeUpToDate(s: EndpointSlice, d: Desired, service: Service, managedBy: string)
    requires KeyedByKey(d)
    ensures var v := Judge(s, d, service, managedBy);
      && (v.Update? ==> UpToDate(v.slice.endpoints, d) && MirrorsLabels(v.slice, service) && SameIdentity(s, v.slice))
      && (v.Unchanged? ==> UpToDate(s.endpoints, d) && MirrorsLabels(s, service))
  {
    var v := Judge(s, d, service, managedBy);
    KeptIsDesired(s.endpoints, d);
    if |Kept(s.endpoints, d)| == |s.endpoints| {
      AllKept(s.endpoints, d);
    }
    if v.Update? {
      LabelsSettle(v.slice, service, managedBy);
    }
  }

  lemma GrownUpToDate(before: EndpointSlice, after: EndpointSlice, d: Desired, max: nat)
    requires Grown(before, after, d, max) && UpToDate(before.endpoints, d)
    ensures UpToDate(after.endpoints, d)
  {
    var n := |before.endpoints|;
    forall e | e in after.endpoints ensures e.key in d && EqualBeyondHash(d[e.key], e) {
      var i :| 0 <= i < |after.endpoints| && after.endpoints[i] == e;
      if i < n {
        assert e == before.endpoints[i];
      } else {
        assert e == after.endpoints[n..][i - n];
      }
    }
  }

  lemma TracedUpToDate(existing: seq<EndpointSlice>, i: nat, d: Desired, service: Service, managedBy: string,
                       w: Working, touched: Option<Name>, max: nat)
    requires i < |existing| && KeyedByKey(d)
    requires Traced(existing[i], VerdictOn(existing, i, d, service, managedBy), w, touched, d, max)
    requires existing[i].name !in w.toDelete
    ensures var t := w.byName[existing[i].name];
      UpToDate(t.endpoints, d) && MirrorsLabels(t, service) && SameIdentity(existing[i], t)
  {
    var rest := d - AllKeys(existing[..i]);
    var v := VerdictOn(existing, i, d, service, managedBy);
    JudgeUpToDate(existing[i], rest, service, managedBy);
    var base := if v.Update? then v.slice else existing[i];
    assert UpToDate(base.endpoints, d);
    GrownUpToDate(base, w.byName[existing[i].name], d, max);
  }

  lemma {:induction false} AppliedMember(existing: seq<EndpointSlice>, update: seq<EndpointSlice>, delete: seq<EndpointSlice>, t: EndpointSlice)
    returns (i: nat)
    requires t in Applied(existing, update, delete)
    ensures i < |existing| && existing[i].name !in Names(delete) && t == Resolve(update, existing[i])
  {
    var n := |existing| - 1;
    if t in Applied(existing[..n], update, delete) {
      i := AppliedMember(existing[..n], update, delete, t);
    } else {
      i := n;
    }
  }

  /* The contract of one reconciliation */

  // The lists name existing slices, each at most once over both lists; an update changes only labels
  // and endpoints, a delete names a slice as it stands, a created slice is the blank one with endpoints.
  ghost predicate WellNamed(existing: seq<EndpointSlice>, blank: EndpointSlice,
                            create: seq<EndpointSlice>, update: seq<EndpointSlice>, delete: seq<EndpointSlice>) {
    && DistinctNames(update) && DistinctNames(delete) && Names(update) !! Names(delete)
    && Names(update) <= Names(existing)
    && (forall t :: t in delete ==> t in existing)
    && (forall i :: 0 <= i < |existing| && existing[i].name !in Names(delete) ==> SameIdentity(existing[i], Resolve(update, existing[i])))
    && (forall t :: t in create ==> t == blank.(endpoints := t.endpoints) && t.endpoints != [])
  }

  // How slice i came out: deleted exactly when none of its endpoints is desired any more, updated
  // when it had to be, and grown at most up to the limit.
  ghost predicate SlicePacked(existing: seq<EndpointSlice>, i: nat, v: Verdict, create: seq<EndpointSlice>,
                              update: seq<EndpointSlice>, delete: seq<EndpointSlice>, max: nat)
    requires i < |existing|
  {
    var s := existing[i];
    var t := Resolve(update, s);
    && (s.name in Names(delete) <==> v.Delete?)
    && (v.Update? ==> s.name in Names(update) && t.labels == v.slice.labels)
    && (v.Unchanged? ==> t.labels == s.labels)
    && After(s, v) <= (if v.Delete? then [] else t.endpoints)
    && (!v.Delete? && |t.endpoints| > |After(s, v)| ==> |t.endpoints| <= max)
    && (v.Update? && create != [] ==> |t.endpoints| >= max)
  }

  // Slice i needed no update and got one: it took all that was left, no better fitting slice
  // exists, it is the only such slice, and every created slice is full.
  ghost predicate TouchedPacked(existing: seq<EndpointSlice>, i: nat, verdicts: seq<Verdict>, create: seq<EndpointSlice>,
                                update: seq<EndpointSlice>, max: nat)
    requires i < |existing| == |verdicts|
  {
    var before := |existing[i].endpoints|;
    var added := |Resolve(update, existing[i]).endpoints| - before;
    && added > 0 && before + added <= max
    && (forall j :: 0 <= j < |existing| && verdicts[j].Unchanged? && |existing[j].endpoints| + added <= max
          ==> |existing[j].endpoints| <= before)
    && (forall j :: 0 <= j < |existing| && verdicts[j].Unchanged? && existing[j].name in Names(update) ==> j == i)
    && AllFull(create, max)
  }

  ghost function Verdicts(existing: seq<EndpointSlice>, d: Desired, service: Service, managedBy: string): (vs: seq<Verdict>)
    ensures |vs| == |existing|
    ensures forall j :: 0 <= j < |vs| ==> vs[j] == VerdictOn(existing, j, d, service, managedBy)
  {
    seq(|existing|, j requires 0 <= j < |existing| => VerdictOn(existing, j, d, service, managedBy))
  }

  ghost predicate Packed(existing: seq<EndpointSlice>, verdicts: seq<Verdict>, create: seq<EndpointSlice>,
                         update: seq<EndpointSlice>, delete: seq<EndpointSlice>, max: nat)
    requires |verdicts| == |existing|
  {
    && (forall i :: 0 <= i < |existing| ==> SlicePacked(existing, i, verdicts[i], create, update, delete, max))
    && (forall i :: 0 <= i < |existing| && verdicts[i].Unchanged? && existing[i].name in Names(update)
          ==> TouchedPacked(existing, i, verdicts, create, update, max))
    && CreatedPacked(existing, verdicts, create, max)
    && FilledFullestFirst(existing, verdicts, update, max)
  }

  // All created slices but the last are full, and the last is not only if no unchanged slice
  // had room for what it holds.
  ghost predicate CreatedPacked(existing: seq<EndpointSlice>, verdicts: seq<Verdict>, create: seq<EndpointSlice>, max: nat)
    requires |verdicts| == |existing|
  {
    create != [] ==>
      var last := |create[|create| - 1].endpoints|;
      && AllFull(create[..|create| - 1], max) && (forall t :: t in create ==> 0 < |t.endpoints| <= max)
      && (last < max ==> forall j :: 0 <= j < |existing| && verdicts[j].Unchanged? ==> |existing[j].endpoints| + last > max)
  }

  // Among the slices that had to be updated, one gained endpoints only if every fuller one is full.
  ghost predicate FilledFullestFirst(existing: seq<EndpointSlice>, verdicts: seq<Verdict>, update: seq<EndpointSlice>, max: nat)
    requires |verdicts| == |existing|
  {
    forall i, j :: 0 <= i < |existing| && 0 <= j < |existing| && verdicts[i].Update? && verdicts[j].Update?
      && |verdicts[i].slice.endpoints| > |verdicts[j].slice.endpoints|
      && |Resolve(update, existing[j]).endpoints| > |verdicts[j].slice.endpoints|
      ==> |Resolve(update, existing[i]).endpoints| >= max
  }

  lemma SettledFromTrace(existing: seq<EndpointSlice>, d: Desired, service: Service, managedBy: string, meta: EndpointMeta, max: nat,
                         w: Working, touched: Option<Name>, create: seq<EndpointSlice>, update: seq<EndpointSlice>, delete: seq<EndpointSlice>)
    requires KeyedByKey(d) && Covers(w.byName, existing) && w.toUpdate <= w.byName.Keys && w.toDelete <= w.byName.Keys
    requires Enumerates(update, w.toUpdate, w.byName) && Enumerates(delete, w.toDelete, w.byName)
    requires forall i :: 0 <= i < |existing| ==>
      Traced(existing[i], VerdictOn(existing, i, d, service, managedBy), w, touched, d, max)
    requires Created(create, NewEndpointSlice(service, meta, managedBy), d, max)
    requires Balanced(Current(existing, w.byName, w.toDelete) + create, map[], d)
    ensures Settled(Applied(existing, update, delete) + create, d, service)
  {
    AppliedIsCurrent(existing, w.byName, w.toUpdate, w.toDelete, update, delete);
    var all := Applied(existing, update, delete) + create;
    forall t | t in all ensures MirrorsLabels(t, service) && UpToDate(t.endpoints, d) {
      if t in create {
        var blank := NewEndpointSlice(service, meta, managedBy);
        LabelsSettle(blank, service, managedBy);
        GrownUpToDate(blank, t, d, max);
      } else {
        var i := AppliedMember(existing, update, delete, t);
        ResolveEnumerated(update, w.toUpdate, w.byName, existing[i]);
        TracedUpToDate(existing, i, d, service, managedBy, w, touched, max);
      }
    }
    forall k ensures Occurrences(all, k) == Indicator(k in d) {
      var none: Desired := map[];
      assert Occurrences(all, k) + Indicator(k in none) == Indicator(k in d);
    }
  }

  /* The contract holds of what the three steps produce */

  // What the three steps leave behind: w0 after step 1, w1 after step 2, w2 after step 3; `items` is
  // what was waiting before step 2 and `left` how much of it was waiting after.
  datatype Trail = Trail(d: Desired, items: Desired, left: nat, max: nat,
                         w0: Working, w1: Working, w2: Working, create: seq<EndpointSlice>, touched: Option<Name>)

  ghost predicate Steps(existing: seq<EndpointSlice>, verdicts: seq<Verdict>, r: Trail)
    requires |verdicts| == |existing|
  {
    && WellMarked(existing, r.w0) && r.w0.toDelete <= r.w0.byName.Keys
    && (forall i :: 0 <= i < |existing| ==> Marked(existing[i], verdicts[i], r.w0))
    && Within(r.items, r.d) && r.w1 == r.w0.(byName := r.w1.byName)
    && UpdatedFilled(r.w0, r.w1.byName, r.items, r.max)
    && (r.left > 0 ==> AllUpdatedFull(r.w0.toUpdate, r.w1.byName, r.max))
    && (r.left == 0 ==> r.create == [])
    && Placed(r.w1, r.w2, r.create, r.touched, r.d, r.max)
  }

  // The lists enumerate the final name sets.
  ghost predicate Listed(r: Trail, update: seq<EndpointSlice>, delete: seq<EndpointSlice>) {
    && r.w2.toUpdate <= r.w2.byName.Keys && r.w2.toDelete <= r.w2.byName.Keys
    && Enumerates(update, r.w2.toUpdate, r.w2.byName) && Enumerates(delete, r.w2.toDelete, r.w2.byName)
  }

  lemma StepsTraced(existing: seq<EndpointSlice>, verdicts: seq<Verdict>, r: Trail, i: nat)
    requires |verdicts| == |existing| && i < |existing| && Steps(existing, verdicts, r)
    ensures Traced(existing[i], verdicts[i], r.w2, r.touched, r.d, r.max)
    ensures verdicts[i].Update? ==> r.w2.byName[existing[i].name] == r.w1.byName[existing[i].name]
  {
    Trace(existing[i], verdicts[i], r.w0, r.w1, r.w2, r.create, r.touched, r.items, r.d, r.max);
  }

  lemma StepsSlicePacked(existing: seq<EndpointSlice>, verdicts: seq<Verdict>, r: Trail,
                         update: seq<EndpointSlice>, delete: seq<EndpointSlice>, i: nat)
    requires |verdicts| == |existing| && i < |existing|
    requires Steps(existing, verdicts, r) && Listed(r, update, delete)
    ensures SlicePacked(existing, i, verdicts[i], r.create, update, delete, r.max)
  {
    StepsTraced(existing, verdicts, r, i);
    ResolveEnumerated(update, r.w2.toUpdate, r.w2.byName, existing[i]);
    if verdicts[i].Update? && r.create != [] {
      assert |r.w1.byName[existing[i].name].endpoints| >= r.max;
    }
  }

  lemma StepsUnchanged(existing: seq<EndpointSlice>, verdicts: seq<Verdict>, r: Trail, j: nat)
    requires |verdicts| == |existing| && j < |existing| && Steps(existing, verdicts, r)
    requires verdicts[j].Unchanged?
    ensures existing[j].name in r.w1.untouched && r.w1.byName[existing[j].name] == existing[j]
    ensures existing[j].name in r.w2.toUpdate ==> r.touched == Some(existing[j].name)
  {
    assert Marked(existing[j], verdicts[j], r.w0);
    StepsTraced(existing, verdicts, r, j);
  }

  lemma StepsTouchedPacked(existing: seq<EndpointSlice>, verdicts: seq<Verdict>, r: Trail,
                           update: seq<EndpointSlice>, delete: seq<EndpointSlice>, i: nat)
    requires |verdicts| == |existing| && i < |existing|
    requires Steps(existing, verdicts, r) && Listed(r, update, delete)
    requires verdicts[i].Unchanged? && existing[i].name in Names(update)
    ensures TouchedPacked(existing, i, verdicts, r.create, update, r.max)
  {
    ResolveEnumerated(update, r.w2.toUpdate, r.w2.byName, existing[i]);
    StepsUnchanged(existing, verdicts, r, i);
    forall j | 0 <= j < |existing| && verdicts[j].Unchanged?
      ensures existing[j].name in r.w1.untouched && r.w1.byName[existing[j].name] == existing[j]
      ensures existing[j].name in Names(update) ==> j == i
    {
      StepsUnchanged(existing, verdicts, r, j);
    }
  }

  lemma StepsCreatedPacked(existing: seq<EndpointSlice>, verdicts: seq<Verdict>, r: Trail, blank: EndpointSlice)
    requires |verdicts| == |existing| && blank.endpoints == []
    requires Steps(existing, verdicts, r) && Created(r.create, blank, r.d, r.max)
    ensures CreatedPacked(existing, verdicts, r.create, r.max)
  {
    forall j | 0 <= j < |existing| && verdicts[j].Unchanged?
      ensures existing[j].name in r.w1.untouched && r.w1.byName[existing[j].name] == existing[j]
    {
      StepsUnchanged(existing, verdicts, r, j);
    }
  }

  lemma StepsFullestFirst(existing: seq<EndpointSlice>, verdicts: seq<Verdict>, r: Trail,
                          update: seq<EndpointSlice>, delete: seq<EndpointSlice>)
    requires |verdicts| == |existing|
    requires Steps(existing, verdicts, r) && Listed(r, update, delete)
    ensures FilledFullestFirst(existing, verdicts, update, r.max)
  {
    forall i | 0 <= i < |existing| && verdicts[i].Update?
      ensures r.w0.byName[existing[i].name] == verdicts[i].slice && existing[i].name in r.w0.toUpdate
      ensures Resolve(update, existing[i]) == r.w1.byName[existing[i].name]
    {
      assert Marked(existing[i], verdicts[i], r.w0);
      StepsTraced(existing, verdicts, r, i);
      ResolveEnumerated(update, r.w2.toUpdate, r.w2.byName, existing[i]);
    }
  }

  lemma StepsPacked(existing: seq<EndpointSlice>, verdicts: seq<Verdict>, r: Trail, blank: EndpointSlice,
                    update: seq<EndpointSlice>, delete: seq<EndpointSlice>)
    requires |verdicts| == |existing| && blank.endpoints == []
    requires Steps(existing, verdicts, r) && Listed(r, update, delete) && Created(r.create, blank, r.d, r.max)
    ensures Packed(existing, verdicts, r.create, update, delete, r.max)
  {
    forall i | 0 <= i < |existing| ensures SlicePacked(existing, i, verdicts[i], r.create, update, delete, r.max) {
      StepsSlicePacked(existing, verdicts, r, update, delete, i);
    }
    forall i | 0 <= i < |existing| && verdicts[i].Unchanged? && existing[i].name in Names(update)
      ensures TouchedPacked(existing, i, verdicts, r.create, update, r.max)
    {
      StepsTouchedPacked(existing, verdicts, r, update, delete, i);
    }
    StepsCreatedPacked(existing, verdicts, r, blank);
    StepsFullestFirst(existing, verdicts, r, update, delete);
  }

  lemma StepsWellNamed(existing: seq<EndpointSlice>, d: Desired, service: Service, managedBy: string, r: Trail, blank: EndpointSlice,
                       update: seq<EndpointSlice>, delete: seq<EndpointSlice>)
    requires KeyedByKey(d) && r.d == d && blank.endpoints == []
    requires Steps(existing, Verdicts(existing, d, service, managedBy), r) && Listed(r, update, delete)
    requires Created(r.create, blank, d, r.max)
    ensures WellNamed(existing, blank, r.create, update, delete)
  {
    var verdicts := Verdicts(existing, d, service, managedBy);
    forall i | 0 <= i < |existing|
      ensures !(existing[i].name in Names(update) && existing[i].name in Names(delete))
      ensures existing[i].name in Names(delete) ==> r.w2.byName[existing[i].name] == existing[i]
      ensures existing[i].name !in Names(delete) ==> SameIdentity(existing[i], Resolve(update, existing[i]))
    {
      StepsTraced(existing, verdicts, r, i);
      ResolveEnumerated(update, r.w2.toUpdate, r.w2.byName, existing[i]);
      if existing[i].name !in Names(delete) {
        TracedUpToDate(existing, i, d, service, managedBy, r.w2, r.touched, r.max);
      }
    }
    forall t | t in delete ensures t in existing {
      var i := NameIndex(existing, t.name);
      assert t == existing[i];
    }
  }
}
