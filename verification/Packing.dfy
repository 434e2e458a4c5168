/**
 Packing the endpoints that no existing slice holds: first into the slices that have to be
 updated anyway, fullest first, then into the best fitting untouched slice or into new slices.
 */
module Packing {
  import opened Sequences
  import opened Discovery
  import opened EndpointSets
  import opened Keeping

  /* Filling one slice */

  // `after` is `before` with desired endpoints added at the end, and not past the limit.
  ghost predicate Grown(before: EndpointSlice, after: EndpointSlice, d: Desired, max: nat) {
    && after == before.(endpoints := after.endpoints)
    && before.endpoints <= after.endpoints
    && (|after.endpoints| > |before.endpoints| ==> |after.endpoints| <= max)
    && forall e :: e in after.endpoints[|before.endpoints|..] ==> e.key in d && d[e.key] == e
  }

  ghost predicate Within(small: Desired, big: Desired) {
    forall k :: k in small ==> k in big && small[k] == big[k]
  }

  lemma GrownSnoc(before: EndpointSlice, after: EndpointSlice, e: Endpoint, d: Desired, max: nat)
    requires Grown(before, after, d, max)
    requires |after.endpoints| < max && e.key in d && d[e.key] == e
    ensures Grown(before, after.(endpoints := after.endpoints + [e]), d, max)
  {
    var n := |before.endpoints|;
    assert (after.endpoints + [e])[n..] == after.endpoints[n..] + [e];
  }

  lemma GrownMonotone(before: EndpointSlice, after: EndpointSlice, d: Desired, d': Desired, max: nat)
    requires Grown(before, after, d, max) && Within(d, d')
    ensures Grown(before, after, d', max)
  {
  }

  lemma PopConserves(es: seq<Endpoint>, e: Endpoint, items: Desired, k: EndpointKey)
    requires e.key in items
    ensures CountKey(es + [e], k) + Indicator(k in items - {e.key}) == CountKey(es, k) + Indicator(k in items)
  {
    CountKeySnoc(es, e, k);
  }

  // Endpoints moved from `items` to the slice until the slice was full or nothing was left.
  ghost predicate FillStep(before: EndpointSlice, items: Desired, after: EndpointSlice, items': Desired, max: nat) {
    && KeyedByKey(items') && Within(items', items)
    && Grown(before, after, items, max)
    && |after.endpoints| + |items'| == |before.endpoints| + |items|
    && (|items'| > 0 ==> |after.endpoints| >= max)
    && forall k :: CountKey(after.endpoints, k) + Indicator(k in items') == CountKey(before.endpoints, k) + Indicator(k in items)
  }

  method Fill(slice: EndpointSlice, desired: EndpointSet, max: nat) returns (filled: EndpointSlice)
    requires desired.Valid()
    modifies desired
    ensures FillStep(slice, old(desired.items), filled, desired.items, max)
  {
    filled := slice;
    while |desired.items| > 0 && |filled.endpoints| < max
      invariant desired.Valid() && Within(desired.items, old(desired.items))
      invariant Grown(slice, filled, old(desired.items), max)
      invariant forall k :: CountKey(filled.endpoints, k) + Indicator(k in desired.items)
                         == CountKey(slice.endpoints, k) + Indicator(k in old(desired.items))
      invariant |filled.endpoints| + |desired.items| == |slice.endpoints| + |old(desired.items)|
      decreases |desired.items|
    {
      var es := filled.endpoints;
      ghost var items := desired.items;
      var popped := desired.PopAny();
      var e := popped.value;
      GrownSnoc(slice, filled, e, old(desired.items), max);
      filled := filled.(endpoints := es + [e]);
      RemoveKeySize(items, e.key);
      forall k { PopConserves(es, e, items, k); }
    }
  }

  /* Conservation while endpoints are being placed */

  // Each key of d0 stands once in ss or is still waiting in `items`, and no other key occurs.
  ghost predicate Balanced(ss: seq<EndpointSlice>, items: Desired, d0: Desired) {
    forall k :: Occurrences(ss, k) + Indicator(k in items) == Indicator(k in d0)
  }

  lemma {:induction false} CurrentReplace(existing: seq<EndpointSlice>, byName: map<Name, EndpointSlice>, gone: set<Name>,
                                          i: nat, name: Name, t: EndpointSlice, k: EndpointKey)
    requires Covers(byName, existing) && DistinctNames(existing)
    requires i < |existing| && existing[i].name == name && name !in gone
    ensures Occurrences(Current(existing, byName[name := t], gone), k) + CountKey(byName[name].endpoints, k)
         == Occurrences(Current(existing, byName, gone), k) + CountKey(t.endpoints, k)
  {
    var n := |existing| - 1;
    var front := existing[..n];
    CurrentLast(existing, byName, gone, k);
    CurrentLast(existing, byName[name := t], gone, k);
    if i == n {
      CurrentFrame(front, byName, byName[name := t], gone, gone);
    } else {
      CurrentReplace(front, byName, gone, i, name, t, k);
    }
  }

  // Moving endpoints from `items` into one slice keeps the balance.
  lemma ReplaceBalanced(existing: seq<EndpointSlice>, byName: map<Name, EndpointSlice>, gone: set<Name>,
                        i: nat, name: Name, t: EndpointSlice, create: seq<EndpointSlice>, items: Desired, items': Desired, d0: Desired)
    requires Covers(byName, existing) && DistinctNames(existing)
    requires i < |existing| && existing[i].name == name && name !in gone
    requires Balanced(Current(existing, byName, gone) + create, items, d0)
    requires forall k :: CountKey(t.endpoints, k) + Indicator(k in items') == CountKey(byName[name].endpoints, k) + Indicator(k in items)
    ensures Balanced(Current(existing, byName[name := t], gone) + create, items', d0)
  {
    forall k
      ensures Occurrences(Current(existing, byName[name := t], gone) + create, k) + Indicator(k in items') == Indicator(k in d0)
    {
      CurrentReplace(existing, byName, gone, i, name, t, k);
      OccurrencesConcat(Current(existing, byName, gone), create, k);
      OccurrencesConcat(Current(existing, byName[name := t], gone), create, k);
    }
  }

  lemma CreateBalanced(ss: seq<EndpointSlice>, t: EndpointSlice, items: Desired, items': Desired, d0: Desired)
    requires Balanced(ss, items, d0)
    requires forall k :: CountKey(t.endpoints, k) + Indicator(k in items') == Indicator(k in items)
    ensures Balanced(ss + [t], items', d0)
  {
    forall k ensures Occurrences(ss + [t], k) + Indicator(k in items') == Indicator(k in d0) {
      OccurrencesSnoc(ss, t, k);
    }
  }

  /* Step 2: fill the slices that are updated anyway */

  predicate FullestFirst(ss: seq<EndpointSlice>) {
    forall i, j :: 0 <= i < j < |ss| ==> |ss[i].endpoints| >= |ss[j].endpoints|
  }

  // Where t goes in a list that is sorted fullest first.
  method InsertFullestFirst(ss: seq<EndpointSlice>, t: EndpointSlice) returns (r: seq<EndpointSlice>)
    requires FullestFirst(ss)
    ensures FullestFirst(r)
    ensures exists p :: 0 <= p <= |ss| && r == ss[..p] + [t] + ss[p..]
  {
    var p := 0;
    while p < |ss| && |ss[p].endpoints| >= |t.endpoints|
      invariant p <= |ss|
      invariant forall j :: 0 <= j < p ==> |ss[j].endpoints| >= |t.endpoints|
    {
      p := p + 1;
    }
    r := ss[..p] + [t] + ss[p..];
  }

  // ss holds exactly the slices filed under `names`.
  ghost predicate Lists(ss: seq<EndpointSlice>, names: seq<Name>, byName: map<Name, EndpointSlice>) {
    && NoDuplicates(ss)
    && forall t :: t in ss <==> t.name in names && t.name in byName && byName[t.name] == t
  }

  lemma ListsInsert(ss: seq<EndpointSlice>, names: seq<Name>, byName: map<Name, EndpointSlice>, p: nat, n: Name)
    requires Lists(ss, names, byName) && p <= |ss|
    requires n !in names && n in byName && byName[n].name == n
    ensures Lists(ss[..p] + [byName[n]] + ss[p..], names + [n], byName)
  {
    InsertAt(ss, p, byName[n]);
  }

  method SortFullestFirst(names: seq<Name>, byName: map<Name, EndpointSlice>) returns (order: seq<EndpointSlice>)
    requires NoDuplicates(names) && forall n :: n in names ==> n in byName && byName[n].name == n
    ensures Lists(order, names, byName) && FullestFirst(order)
  {
    order := [];
    for i := 0 to |names|
      invariant Lists(order, names[..i], byName) && FullestFirst(order)
    {
      var longer := InsertFullestFirst(order, byName[names[i]]);
      ghost var p :| 0 <= p <= |order| && longer == order[..p] + [byName[names[i]]] + order[p..];
      ListsInsert(order, names[..i], byName, p, names[i]);
      PrefixStep(names, i);
      order := longer;
    }
    WholePrefix(names);
  }

  ghost predicate AllGrown(slices: seq<EndpointSlice>, filled: seq<EndpointSlice>, d: Desired, max: nat) {
    |filled| <= |slices| && forall j :: 0 <= j < |filled| ==> Grown(slices[j], filled[j], d, max)
  }

  predicate AllFull(ss: seq<EndpointSlice>, max: nat) {
    forall j :: 0 <= j < |ss| ==> |ss[j].endpoints| >= max
  }

  // A slice gained endpoints only after every slice before it was full.
  predicate FilledInOrder(slices: seq<EndpointSlice>, filled: seq<EndpointSlice>, max: nat)
    requires |filled| <= |slices|
  {
    forall j :: 0 <= j < |filled| && |filled[j].endpoints| > |slices[j].endpoints| ==> AllFull(filled[..j], max)
  }

  ghost predicate Conserves(before: seq<EndpointSlice>, waiting: Desired, after: seq<EndpointSlice>, waiting': Desired) {
    forall k :: Occurrences(after, k) + Indicator(k in waiting') == Occurrences(before, k) + Indicator(k in waiting)
  }

  lemma ConservesSnoc(before: seq<EndpointSlice>, d: Desired, after: seq<EndpointSlice>, items: Desired,
                      s: EndpointSlice, t: EndpointSlice, items': Desired)
    requires Conserves(before, d, after, items)
    requires forall k :: CountKey(t.endpoints, k) + Indicator(k in items') == CountKey(s.endpoints, k) + Indicator(k in items)
    ensures Conserves(before + [s], d, after + [t], items')
  {
    forall k
      ensures Occurrences(after + [t], k) + Indicator(k in items') == Occurrences(before + [s], k) + Indicator(k in d)
    {
      OccurrencesSnoc(after, t, k);
      OccurrencesSnoc(before, s, k);
    }
  }

  // The first |filled| slices have been filled, in order, and `items` is still waiting.
  ghost predicate FilledPrefix(slices: seq<EndpointSlice>, d: Desired, filled: seq<EndpointSlice>, items: Desired, max: nat) {
    && KeyedByKey(items) && Within(items, d)
    && AllGrown(slices, filled, d, max)
    && FilledInOrder(slices, filled, max)
    && (|items| > 0 ==> AllFull(filled, max))
    && Conserves(slices[..|filled|], d, filled, items)
  }

  lemma FilledPrefixSnoc(slices: seq<EndpointSlice>, d: Desired, filled: seq<EndpointSlice>, items: Desired,
                         t: EndpointSlice, items': Desired, max: nat)
    requires |filled| < |slices|
    requires FilledPrefix(slices, d, filled, items, max)
    requires FillStep(slices[|filled|], items, t, items', max)
    ensures FilledPrefix(slices, d, filled + [t], items', max)
  {
    var n := |filled|;
    GrownMonotone(slices[n], t, items, d, max);
    AllGrownSnoc(slices, filled, d, t, max);
    AllFullSnoc(filled, t, max);
    FilledInOrderSnoc(slices, filled, t, max);
    ConservesSnoc(slices[..n], d, filled, items, slices[n], t, items');
    PrefixStep(slices, n);
  }

  lemma AllGrownSnoc(slices: seq<EndpointSlice>, filled: seq<EndpointSlice>, d: Desired, t: EndpointSlice, max: nat)
    requires |filled| < |slices| && AllGrown(slices, filled, d, max) && Grown(slices[|filled|], t, d, max)
    ensures AllGrown(slices, filled + [t], d, max)
  {
  }

  lemma AllFullSnoc(filled: seq<EndpointSlice>, t: EndpointSlice, max: nat)
    ensures AllFull(filled, max) && |t.endpoints| >= max ==> AllFull(filled + [t], max)
  {
  }

  lemma FilledInOrderSnoc(slices: seq<EndpointSlice>, filled: seq<EndpointSlice>, t: EndpointSlice, max: nat)
    requires |filled| < |slices| && FilledInOrder(slices, filled, max)
    requires |t.endpoints| > |slices[|filled|].endpoints| ==> AllFull(filled, max)
    ensures FilledInOrder(slices, filled + [t], max)
  {
    var longer := filled + [t];
    forall j | 0 <= j < |longer| && |longer[j].endpoints| > |slices[j].endpoints|
      ensures AllFull(longer[..j], max)
    {
      assert longer[..j] == filled[..j];
      WholePrefix(filled);
    }
  }

  method FillAll(slices: seq<EndpointSlice>, desired: EndpointSet, max: nat) returns (filled: seq<EndpointSlice>)
    requires desired.Valid()
    modifies desired
    ensures |filled| == |slices|
    ensures FilledPrefix(slices, old(desired.items), filled, desired.items, max)
  {
    filled := [];
    while |filled| < |slices|
      invariant |filled| <= |slices|
      invariant FilledPrefix(slices, old(desired.items), filled, desired.items, max)
    {
      ghost var items := desired.items;
      var t := Fill(slices[|filled|], desired, max);
      FilledPrefixSnoc(slices, old(desired.items), filled, items, t, desired.items, max);
      filled := filled + [t];
    }
  }

  // byName after the slices of ss have been changed in place.
  function Overlay(byName: map<Name, EndpointSlice>, ss: seq<EndpointSlice>): map<Name, EndpointSlice> {
    if ss == [] then byName
    else Overlay(byName, ss[..|ss| - 1])[ss[|ss| - 1].name := ss[|ss| - 1]]
  }

  lemma {:induction false} OverlayLookup(byName: map<Name, EndpointSlice>, ss: seq<EndpointSlice>)
    requires DistinctNames(ss) && forall i :: 0 <= i < |ss| ==> ss[i].name in byName
    ensures Overlay(byName, ss).Keys == byName.Keys
    ensures forall i :: 0 <= i < |ss| ==> Overlay(byName, ss)[ss[i].name] == ss[i]
    ensures forall n :: n in byName && (forall i :: 0 <= i < |ss| ==> ss[i].name != n) ==> Overlay(byName, ss)[n] == byName[n]
  {
    OverlayKeys(byName, ss);
    forall i | 0 <= i < |ss| ensures Overlay(byName, ss)[ss[i].name] == ss[i] {
      OverlayHit(byName, ss, i);
    }
    forall n | n in byName && (forall i :: 0 <= i < |ss| ==> ss[i].name != n) ensures Overlay(byName, ss)[n] == byName[n] {
      OverlayMiss(byName, ss, n);
    }
  }

  lemma {:induction false} OverlayKeys(byName: map<Name, EndpointSlice>, ss: seq<EndpointSlice>)
    requires forall i :: 0 <= i < |ss| ==> ss[i].name in byName
    ensures Overlay(byName, ss).Keys == byName.Keys
  {
    if ss != [] {
      OverlayKeys(byName, ss[..|ss| - 1]);
    }
  }

  lemma {:induction false} OverlayHit(byName: map<Name, EndpointSlice>, ss: seq<EndpointSlice>, i: nat)
    requires DistinctNames(ss) && i < |ss|
    ensures ss[i].name in Overlay(byName, ss) && Overlay(byName, ss)[ss[i].name] == ss[i]
  {
    if i < |ss| - 1 {
      OverlayHit(byName, ss[..|ss| - 1], i);
    }
  }

  lemma {:induction false} OverlayMiss(byName: map<Name, EndpointSlice>, ss: seq<EndpointSlice>, n: Name)
    requires n in byName && forall i :: 0 <= i < |ss| ==> ss[i].name != n
    ensures n in Overlay(byName, ss) && Overlay(byName, ss)[n] == byName[n]
  {
    if ss != [] {
      OverlayMiss(byName, ss[..|ss| - 1], n);
    }
  }

  lemma {:induction false} OverlayOccurrences(existing: seq<EndpointSlice>, byName: map<Name, EndpointSlice>, gone: set<Name>,
                                              before: seq<EndpointSlice>, after: seq<EndpointSlice>, k: EndpointKey)
    requires DistinctNames(existing) && Covers(byName, existing)
    requires |before| == |after| && DistinctNames(before)
    requires forall i :: 0 <= i < |before| ==>
      && after[i].name == before[i].name && before[i].name !in gone
      && before[i].name in byName && byName[before[i].name] == before[i]
      && before[i].name in Names(existing)
    ensures Covers(Overlay(byName, after), existing)
    ensures Occurrences(Current(existing, Overlay(byName, after), gone), k) + Occurrences(before, k)
         == Occurrences(Current(existing, byName, gone), k) + Occurrences(after, k)
  {
    if before != [] {
      var n := |before| - 1;
      var front := Overlay(byName, after[..n]);
      OverlayLookup(byName, after[..n]);
      OverlayOccurrences(existing, byName, gone, before[..n], after[..n], k);
      var p := NameIndex(existing, before[n].name);
      assert front[before[n].name] == before[n];
      CurrentReplace(existing, front, gone, p, before[n].name, after[n], k);
    }
  }

  // The name sets are disjoint, name existing slices only, and byName files slices under their names.
  ghost predicate WellMarked(existing: seq<EndpointSlice>, w: Working) {
    && DistinctNames(existing) && Covers(w.byName, existing)
    && w.toUpdate !! w.toDelete && w.toUpdate !! w.untouched && w.toDelete !! w.untouched
    && w.toUpdate <= Names(existing) && w.untouched <= Names(existing)
    && Names(existing) == w.byName.Keys
    && forall n :: n in w.byName ==> w.byName[n].name == n
  }

  // Only slices of toUpdate gained endpoints, none past the limit; and one gained endpoints
  // only if every slice that was longer before is full now.
  ghost predicate UpdatedFilled(w: Working, byName: map<Name, EndpointSlice>, d: Desired, max: nat)
    requires w.toUpdate <= w.byName.Keys
  {
    && byName.Keys == w.byName.Keys
    && (forall n :: n in w.toUpdate ==> Grown(w.byName[n], byName[n], d, max))
    && (forall n :: n in w.byName && n !in w.toUpdate ==> byName[n] == w.byName[n])
    && (forall m, n | m in w.toUpdate && n in w.toUpdate ::
          |byName[n].endpoints| > |w.byName[n].endpoints| && |w.byName[m].endpoints| > |w.byName[n].endpoints|
          ==> |byName[m].endpoints| >= max)
  }

  ghost predicate AllUpdatedFull(toUpdate: set<Name>, byName: map<Name, EndpointSlice>, max: nat)
    requires toUpdate <= byName.Keys
  {
    forall n :: n in toUpdate ==> |byName[n].endpoints| >= max
  }

  // The slices to update, fullest first.
  ghost predicate Queue(w: Working, slices: seq<EndpointSlice>) {
    && DistinctNames(slices) && FullestFirst(slices)
    && (forall i :: 0 <= i < |slices| ==> slices[i].name in w.toUpdate && slices[i].name in w.byName && w.byName[slices[i].name] == slices[i])
    && (forall n :: n in w.toUpdate ==> n in w.byName && w.byName[n].name == n && w.byName[n] in slices)
  }

  lemma ListsIsQueue(w: Working, names: seq<Name>, slices: seq<EndpointSlice>)
    requires forall n :: n in names <==> n in w.toUpdate
    requires forall n :: n in w.toUpdate ==> n in w.byName && w.byName[n].name == n
    requires Lists(slices, names, w.byName) && FullestFirst(slices)
    ensures Queue(w, slices)
  {
    forall i | 0 <= i < |slices|
      ensures slices[i].name in w.toUpdate && slices[i].name in w.byName && w.byName[slices[i].name] == slices[i]
    {
      assert slices[i] in slices;
    }
  }

  // Where the slice named n stands in the queue, and where filling it left it.
  lemma QueueIndex(w: Working, slices: seq<EndpointSlice>, filled: seq<EndpointSlice>, n: Name) returns (j: nat)
    requires Queue(w, slices) && n in w.toUpdate
    requires |filled| == |slices| && forall i :: 0 <= i < |slices| ==> filled[i].name == slices[i].name
    ensures j < |slices| && slices[j] == w.byName[n]
    ensures Overlay(w.byName, filled).Keys == w.byName.Keys && Overlay(w.byName, filled)[n] == filled[j]
  {
    j :| 0 <= j < |slices| && slices[j] == w.byName[n];
    OverlayLookup(w.byName, filled);
    assert filled[j].name == n;
  }

  lemma QueueOutside(w: Working, slices: seq<EndpointSlice>, filled: seq<EndpointSlice>, n: Name)
    requires Queue(w, slices) && n in w.byName && n !in w.toUpdate
    requires |filled| == |slices| && forall i :: 0 <= i < |slices| ==> filled[i].name == slices[i].name
    ensures Overlay(w.byName, filled).Keys == w.byName.Keys && Overlay(w.byName, filled)[n] == w.byName[n]
  {
    OverlayLookup(w.byName, filled);
  }

  lemma QueueFilled(w: Working, slices: seq<EndpointSlice>, filled: seq<EndpointSlice>, d: Desired, items: Desired, max: nat)
    requires Queue(w, slices) && |filled| == |slices|
    requires FilledPrefix(slices, d, filled, items, max)
    ensures Overlay(w.byName, filled).Keys == w.byName.Keys
    ensures forall n :: n in w.toUpdate ==> Grown(w.byName[n], Overlay(w.byName, filled)[n], d, max)
    ensures forall n :: n in w.byName && n !in w.toUpdate ==> Overlay(w.byName, filled)[n] == w.byName[n]
    ensures |items| > 0 ==> AllUpdatedFull(w.toUpdate, Overlay(w.byName, filled), max)
  {
    assert forall i :: 0 <= i < |slices| ==> Grown(slices[i], filled[i], d, max) && filled[i].name == slices[i].name;
    OverlayLookup(w.byName, filled);
    forall n | n in w.toUpdate
      ensures Grown(w.byName[n], Overlay(w.byName, filled)[n], d, max)
      ensures |items| > 0 ==> |Overlay(w.byName, filled)[n].endpoints| >= max
    {
      var j := QueueIndex(w, slices, filled, n);
    }
    forall n | n in w.byName && n !in w.toUpdate ensures Overlay(w.byName, filled)[n] == w.byName[n] {
      QueueOutside(w, slices, filled, n);
    }
  }

  lemma QueueFullestFirst(w: Working, slices: seq<EndpointSlice>, filled: seq<EndpointSlice>, max: nat, m: Name, n: Name)
    requires Queue(w, slices) && m in w.toUpdate && n in w.toUpdate
    requires |filled| == |slices| && forall i :: 0 <= i < |slices| ==> filled[i].name == slices[i].name
    requires FilledInOrder(slices, filled, max)
    requires Overlay(w.byName, filled).Keys == w.byName.Keys
    requires |Overlay(w.byName, filled)[n].endpoints| > |w.byName[n].endpoints|
    requires |w.byName[m].endpoints| > |w.byName[n].endpoints|
    ensures |Overlay(w.byName, filled)[m].endpoints| >= max
  {
    var i := QueueIndex(w, slices, filled, m);
    var j := QueueIndex(w, slices, filled, n);
    assert i < j;
    assert filled[..j][i] == filled[i];
  }

  lemma QueueBalanced(existing: seq<EndpointSlice>, w: Working, slices: seq<EndpointSlice>, filled: seq<EndpointSlice>,
                      items: Desired, items': Desired, d0: Desired)
    requires WellMarked(existing, w) && Queue(w, slices)
    requires |filled| == |slices| && forall i :: 0 <= i < |slices| ==> filled[i].name == slices[i].name
    requires Conserves(slices, items, filled, items')
    requires Balanced(Current(existing, w.byName, w.toDelete), items, d0)
    ensures Covers(Overlay(w.byName, filled), existing)
    ensures Balanced(Current(existing, Overlay(w.byName, filled), w.toDelete), items', d0)
  {
    OverlayLookup(w.byName, filled);
    forall k
      ensures Occurrences(Current(existing, Overlay(w.byName, filled), w.toDelete), k) + Indicator(k in items') == Indicator(k in d0)
    {
      OverlayOccurrences(existing, w.byName, w.toDelete, slices, filled, k);
    }
  }

  method FillUpdated(ghost existing: seq<EndpointSlice>, ghost d0: Desired, w: Working, desired: EndpointSet, max: nat)
    returns (byName: map<Name, EndpointSlice>)
    requires desired.Valid() && WellMarked(existing, w)
    requires Balanced(Current(existing, w.byName, w.toDelete), desired.items, d0)
    modifies desired
    ensures desired.Valid() && Within(desired.items, old(desired.items))
    ensures UpdatedFilled(w, byName, old(desired.items), max)
    ensures |desired.items| > 0 ==> AllUpdatedFull(w.toUpdate, byName, max)
    ensures Covers(byName, existing) && Balanced(Current(existing, byName, w.toDelete), desired.items, d0)
  {
    byName := w.byName;
    if |desired.items| > 0 && |w.toUpdate| > 0 {
      var names := UnsortedList(w.toUpdate);
      var slices := SortFullestFirst(names, byName);
      ListsIsQueue(w, names, slices);
      var filled := FillAll(slices, desired, max);
      byName := Overlay(byName, filled);
      WholePrefix(slices);
      QueueFilled(w, slices, filled, old(desired.items), desired.items, max);
      QueueBalanced(existing, w, slices, filled, old(desired.items), desired.items, d0);
      forall m, n | m in w.toUpdate && n in w.toUpdate
        && |byName[n].endpoints| > |w.byName[n].endpoints| && |w.byName[m].endpoints| > |w.byName[n].endpoints|
        ensures |byName[m].endpoints| >= max
      {
        QueueFullestFirst(w, slices, filled, max, m, n);
      }
    }
  }

  /* Step 3: place the remainder */

  // The slice that num more endpoints bring closest to max without passing it, if there is one.
  method GetSliceToFill(slices: seq<EndpointSlice>, num: nat, max: nat) returns (r: Option<EndpointSlice>)
    ensures r.Some? ==> r.value in slices && num + |r.value.endpoints| <= max
    ensures r.Some? ==> forall s :: s in slices && num + |s.endpoints| <= max ==> |s.endpoints| <= |r.value.endpoints|
    ensures r.None? <==> forall s :: s in slices ==> num + |s.endpoints| > max || num + |s.endpoints| == 0
  {
    var closestDiff: int := max;
    r := None;
    for i := 0 to |slices|
      invariant r.None? ==> closestDiff == max
      invariant r.Some? ==> r.value in slices && 0 < closestDiff == max - (num + |r.value.endpoints|) < max
      invariant forall j :: 0 <= j < i ==> num + |slices[j].endpoints| > max || max - (num + |slices[j].endpoints|) >= closestDiff
    {
      var currentDiff := max - (num + |slices[i].endpoints|);
      if currentDiff >= 0 && currentDiff < closestDiff {
        closestDiff := currentDiff;
        r := Some(slices[i]);
        if closestDiff == 0 {
          return;
        }
      }
    }
  }

  // The slices filed under `names`, in that order.
  method Collect(names: seq<Name>, byName: map<Name, EndpointSlice>) returns (slices: seq<EndpointSlice>)
    requires forall n :: n in names ==> n in byName
    ensures |slices| == |names| && forall i :: 0 <= i < |names| ==> slices[i] == byName[names[i]]
  {
    slices := [];
    for i := 0 to |names|
      invariant |slices| == i && forall j :: 0 <= j < i ==> slices[j] == byName[names[j]]
    {
      slices := slices + [byName[names[i]]];
    }
  }

  // No untouched slice has room for r more endpoints.
  ghost predicate NoRoom(w: Working, r: nat, max: nat)
    requires w.untouched <= w.byName.Keys
  {
    forall n :: n in w.untouched ==> |w.byName[n].endpoints| + r > max
  }

  // Slice n is the fullest untouched one that has room for r more endpoints.
  ghost predicate BestFit(w: Working, n: Name, r: nat, max: nat)
    requires w.untouched <= w.byName.Keys
  {
    && n in w.untouched && |w.byName[n].endpoints| + r <= max
    && forall m :: m in w.untouched && |w.byName[m].endpoints| + r <= max ==> |w.byName[m].endpoints| <= |w.byName[n].endpoints|
  }

  method FindBestFit(w: Working, r: nat, max: nat) returns (n: Option<Name>)
    requires forall n :: n in w.untouched ==> n in w.byName && w.byName[n].name == n
    requires r > 0
    ensures n.Some? ==> BestFit(w, n.value, r, max)
    ensures n.None? ==> r >= max || NoRoom(w, r, max)
  {
    n := None;
    if r < max && |w.untouched| > 0 {
      var names := UnsortedList(w.untouched);
      var slices := Collect(names, w.byName);
      var found := GetSliceToFill(slices, r, max);
      forall m | m in w.untouched ensures w.byName[m] in slices {
        var i :| 0 <= i < |names| && names[i] == m;
        assert slices[i] == w.byName[m];
      }
      if found.Some? {
        n := Some(found.value.name);
        var i :| 0 <= i < |slices| && slices[i] == found.value;
        assert names[i] in w.untouched;
      }
    }
  }

  // The slices to create are copies of the blank slice, holding between 1 and max desired endpoints.
  ghost predicate Created(create: seq<EndpointSlice>, blank: EndpointSlice, d: Desired, max: nat) {
    forall i :: 0 <= i < |create| ==> Grown(blank, create[i], d, max) && |create[i].endpoints| > |blank.endpoints|
  }

  // What step 3 may have done to the existing slices: nothing, or filled the best fitting
  // untouched slice with everything that was left over by full new slices.
  ghost predicate Placed(w: Working, w': Working, create: seq<EndpointSlice>, touched: Option<Name>, d: Desired, max: nat)
    requires w.untouched <= w.byName.Keys
  {
    && (touched.None? ==> w' == w)
    && (touched.Some? ==>
          var n := touched.value;
          && n in w.untouched && n in w'.byName
          && Grown(w.byName[n], w'.byName[n], d, max)
          && |w'.byName[n].endpoints| > |w.byName[n].endpoints|
          && w' == Working(w.byName[n := w'.byName[n]], w.untouched - {n}, w.toUpdate + {n}, w.toDelete)
          && BestFit(w, n, |w'.byName[n].endpoints| - |w.byName[n].endpoints|, max)
          && AllFull(create, max))
    && (create != [] ==>
          && AllFull(create[..|create| - 1], max)
          && var last := |create[|create| - 1].endpoints|; (last < max ==> NoRoom(w, last, max)))
  }

  lemma CreatedSnoc(create: seq<EndpointSlice>, t: EndpointSlice, blank: EndpointSlice, items: Desired, d: Desired, max: nat)
    requires Created(create, blank, d, max) && Within(items, d)
    requires Grown(blank, t, items, max) && |t.endpoints| > |blank.endpoints|
    ensures Created(create + [t], blank, d, max)
  {
    GrownMonotone(blank, t, items, d, max);
  }

  // The state of step 3 with `items` still waiting: what has been done, and that nothing is lost.
  ghost predicate Placing(existing: seq<EndpointSlice>, d0: Desired, w: Working, blank: EndpointSlice, max: nat,
                          w': Working, create: seq<EndpointSlice>, touched: Option<Name>, items: Desired) {
    && WellMarked(existing, w)
    && PlacingShape(d0, w, blank, max, w', create, touched, items)
    && PlacingBalance(existing, d0, w.toDelete, w'.byName, create, items)
  }

  ghost predicate PlacingShape(d0: Desired, w: Working, blank: EndpointSlice, max: nat,
                               w': Working, create: seq<EndpointSlice>, touched: Option<Name>, items: Desired)
    requires w.untouched <= w.byName.Keys
  {
    && KeyedByKey(items) && Within(items, d0)
    && (|items| > 0 ==> touched.None? && AllFull(create, max))
    && Created(create, blank, d0, max) && Placed(w, w', create, touched, d0, max)
  }

  ghost predicate PlacingBalance(existing: seq<EndpointSlice>, d0: Desired, gone: set<Name>, byName: map<Name, EndpointSlice>,
                                 create: seq<EndpointSlice>, items: Desired) {
    Covers(byName, existing) && Balanced(Current(existing, byName, gone) + create, items, d0)
  }

  lemma PlacedInNew(w: Working, create: seq<EndpointSlice>, t: EndpointSlice, d0: Desired, max: nat)
    requires w.untouched <= w.byName.Keys
    requires Placed(w, w, create, None, d0, max) && AllFull(create, max)
    requires |t.endpoints| >= max || NoRoom(w, |t.endpoints|, max)
    ensures Placed(w, w, create + [t], None, d0, max)
  {
    assert (create + [t])[..|create|] == create;
  }

  lemma FilledNew(blank: EndpointSlice, items: Desired, t: EndpointSlice, items': Desired, max: nat)
    requires max >= 1 && blank.endpoints == [] && |items| > 0
    requires FillStep(blank, items, t, items', max)
    ensures 0 < |t.endpoints| <= max && |items'| < |items|
    ensures |items'| > 0 || |items| >= max ==> |t.endpoints| == max
    ensures |items'| == 0 ==> |t.endpoints| == |items|
    ensures forall k :: CountKey(t.endpoints, k) + Indicator(k in items') == Indicator(k in items)
  {
  }

  lemma NewShape(d0: Desired, w: Working, blank: EndpointSlice, max: nat,
                 create: seq<EndpointSlice>, items: Desired, t: EndpointSlice, items': Desired)
    requires max >= 1 && blank.endpoints == [] && |items| > 0 && w.untouched <= w.byName.Keys
    requires PlacingShape(d0, w, blank, max, w, create, None, items)
    requires |items| >= max || NoRoom(w, |items|, max)
    requires FillStep(blank, items, t, items', max)
    ensures PlacingShape(d0, w, blank, max, w, create + [t], None, items')
  {
    FilledNew(blank, items, t, items', max);
    CreatedSnoc(create, t, blank, items, d0, max);
    PlacedInNew(w, create, t, d0, max);
  }

  lemma NewBalance(existing: seq<EndpointSlice>, d0: Desired, gone: set<Name>, byName: map<Name, EndpointSlice>,
                   create: seq<EndpointSlice>, items: Desired, t: EndpointSlice, items': Desired)
    requires PlacingBalance(existing, d0, gone, byName, create, items)
    requires forall k :: CountKey(t.endpoints, k) + Indicator(k in items') == Indicator(k in items)
    ensures PlacingBalance(existing, d0, gone, byName, create + [t], items')
  {
    var ss := Current(existing, byName, gone);
    CreateBalanced(ss + create, t, items, items', d0);
    ConcatAssociative(ss, create, [t]);
  }

  lemma PlaceInNew(existing: seq<EndpointSlice>, d0: Desired, w: Working, blank: EndpointSlice, max: nat,
                   create: seq<EndpointSlice>, items: Desired, t: EndpointSlice, items': Desired)
    requires max >= 1 && blank.endpoints == [] && |items| > 0
    requires Placing(existing, d0, w, blank, max, w, create, None, items)
    requires |items| >= max || NoRoom(w, |items|, max)
    requires FillStep(blank, items, t, items', max)
    ensures Placing(existing, d0, w, blank, max, w, create + [t], None, items')
    ensures |items'| < |items|
  {
    FilledNew(blank, items, t, items', max);
    NewShape(d0, w, blank, max, create, items, t, items');
    NewBalance(existing, d0, w.toDelete, w.byName, create, items, t, items');
  }

  function Touch(w: Working, n: Name, t: EndpointSlice): Working {
    Working(w.byName[n := t], w.untouched - {n}, w.toUpdate + {n}, w.toDelete)
  }

  lemma PlaceInTouched(existing: seq<EndpointSlice>, d0: Desired, w: Working, blank: EndpointSlice, max: nat,
                       create: seq<EndpointSlice>, n: Name, items: Desired, t: EndpointSlice, items': Desired)
    requires |items| > 0
    requires Placing(existing, d0, w, blank, max, w, create, None, items)
    requires BestFit(w, n, |items|, max)
    requires FillStep(w.byName[n], items, t, items', max)
    ensures Placing(existing, d0, w, blank, max, Touch(w, n, t), create, Some(n), items')
    ensures items' == map[]
  {
    GrownMonotone(w.byName[n], t, items, d0, max);
    ReplaceBalanced(existing, w.byName, w.toDelete, NameIndex(existing, n), n, t, create, items, items', d0);
  }

  method PlaceRemainder(ghost existing: seq<EndpointSlice>, ghost d0: Desired, w: Working, blank: EndpointSlice,
                        desired: EndpointSet, max: nat)
    returns (w': Working, create: seq<EndpointSlice>, ghost touched: Option<Name>)
    requires max >= 1 && blank.endpoints == []
    requires desired.Valid() && WellMarked(existing, w) && Within(desired.items, d0)
    requires Balanced(Current(existing, w.byName, w.toDelete), desired.items, d0)
    modifies desired
    ensures desired.items == map[]
    ensures Placing(existing, d0, w, blank, max, w', create, touched, map[])
    ensures |old(desired.items)| == 0 ==> create == [] && touched.None?
  {
    w', create, touched := w, [], None;
    assert Current(existing, w.byName, w.toDelete) + [] == Current(existing, w.byName, w.toDelete);
    while |desired.items| > 0
      invariant Placing(existing, d0, w, blank, max, w', create, touched, desired.items)
      invariant |old(desired.items)| == 0 ==> |desired.items| == 0 && create == [] && touched.None?
      decreases |desired.items|
    {
      ghost var items := desired.items;
      var n := FindBestFit(w', |desired.items|, max);
      if n.None? {
        var t := Fill(blank, desired, max);
        PlaceInNew(existing, d0, w, blank, max, create, items, t, desired.items);
        create := create + [t];
      } else {
        var t := Fill(w'.byName[n.value], desired, max);
        PlaceInTouched(existing, d0, w, blank, max, create, n.value, items, t, desired.items);
        w', touched := Touch(w', n.value, t), n;
      }
    }
    assert desired.items == map[];
  }
}
