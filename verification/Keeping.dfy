/**
 The first step of reconciling one port mapping: every existing slice keeps the endpoints
 that are still desired, and is judged unchanged, to be updated, or to be deleted.
 */
module Keeping {
  import opened Sequences
  import opened Discovery
  import opened EndpointSets
  import opened SliceLabels

  type Desired = map<EndpointKey, Endpoint>

  datatype Verdict = Delete | Update(slice: EndpointSlice) | Unchanged

  function AllKeys(ss: seq<EndpointSlice>): set<EndpointKey> {
    set s <- ss, e <- s.endpoints :: e.key
  }

  // The desired versions of the endpoints of `es` that are desired, each key once.
  function Kept(es: seq<Endpoint>, d: Desired): seq<Endpoint> {
    if es == [] then []
    else
      var front, e := es[..|es| - 1], es[|es| - 1];
      if e.key in d && e.key !in KeySet(front) then Kept(front, d) + [d[e.key]] else Kept(front, d)
  }

  // Some kept endpoint differs from its desired version beyond the key.
  predicate Outdated(es: seq<Endpoint>, d: Desired) {
    es != [] &&
    var front, e := es[..|es| - 1], es[|es| - 1];
    Outdated(front, d) || (e.key in d && e.key !in KeySet(front) && !EqualBeyondHash(d[e.key], e))
  }

  function Judge(s: EndpointSlice, d: Desired, service: Service, managedBy: string): Verdict {
    var kept := Kept(s.endpoints, d);
    if Outdated(s.endpoints, d) || |kept| != |s.endpoints| then
      if kept == [] then Delete
      else Update(s.(endpoints := kept, labels := SliceLabelsFor(service, managedBy)))
    else if !MirrorsLabels(s, service) then
      Update(s.(labels := SliceLabelsFor(service, managedBy)))
    else
      Unchanged
  }

  // The verdict on slice j, given that the slices before it have taken their endpoints.
  function VerdictOn(existing: seq<EndpointSlice>, j: nat, d: Desired, service: Service, managedBy: string): Verdict
    requires j < |existing|
  {
    Judge(existing[j], d - AllKeys(existing[..j]), service, managedBy)
  }

  predicate Covers(byName: map<Name, EndpointSlice>, existing: seq<EndpointSlice>) {
    forall i :: 0 <= i < |existing| ==> existing[i].name in byName
  }

  // The state of a group while it is reconciled: the deleted slices are gone, the others are
  // as `byName` has them.
  function Current(existing: seq<EndpointSlice>, byName: map<Name, EndpointSlice>, gone: set<Name>): seq<EndpointSlice>
    requires Covers(byName, existing)
  {
    if existing == [] then []
    else
      var front, s := existing[..|existing| - 1], existing[|existing| - 1];
      Current(front, byName, gone) + (if s.name in gone then [] else [byName[s.name]])
  }

  // The slice map and the three name sets the reconciler keeps for one group.
  datatype Working = Working(
    byName: map<Name, EndpointSlice>, untouched: set<Name>, toUpdate: set<Name>, toDelete: set<Name>)

  function Indicator(b: bool): nat {
    if b then 1 else 0
  }

  // What the three name sets and the slice map mean once the first n slices have been judged.
  ghost predicate Judged(existing: seq<EndpointSlice>, n: nat, d: Desired, service: Service, managedBy: string, w: Working)
    requires n <= |existing|
  {
    && w.byName.Keys == Names(existing[..n])
    && w.untouched <= w.byName.Keys && w.toUpdate <= w.byName.Keys && w.toDelete <= w.byName.Keys
    && forall j :: 0 <= j < n ==> Marked(existing[j], VerdictOn(existing, j, d, service, managedBy), w)
  }

  predicate Marked(s: EndpointSlice, v: Verdict, w: Working) {
    && (s.name in w.toDelete <==> v.Delete?)
    && (s.name in w.toUpdate <==> v.Update?)
    && (s.name in w.untouched <==> v.Unchanged?)
    && s.name in w.byName
    && w.byName[s.name] == (if v.Update? then v.slice else s)
  }

  /* Lemmas about one slice */

  lemma {:induction false} KeptIsDesired(es: seq<Endpoint>, d: Desired)
    requires KeyedByKey(d)
    ensures |Kept(es, d)| <= |es|
    ensures forall e :: e in Kept(es, d) ==> e.key in d && d[e.key] == e
  {
    if es != [] {
      KeptIsDesired(es[..|es| - 1], d);
    }
  }

  // Each desired key is either kept once or still waiting, never both.
  lemma {:induction false} KeptConserves(es: seq<Endpoint>, d: Desired, k: EndpointKey)
    requires KeyedByKey(d)
    ensures CountKey(Kept(es, d), k) + Indicator(k in d - KeySet(es)) == Indicator(k in d)
  {
    if es != [] {
      var front, e := es[..|es| - 1], es[|es| - 1];
      KeptConserves(front, d, k);
      assert es == front + [e];
      if e.key in d && e.key !in KeySet(front) {
        CountKeySnoc(Kept(front, d), d[e.key], k);
      }
    }
  }

  lemma KeySetSnoc(es: seq<Endpoint>)
    requires es != []
    ensures KeySet(es) == KeySet(es[..|es| - 1]) + {es[|es| - 1].key}
  {
    assert es == es[..|es| - 1] + [es[|es| - 1]];
  }

  lemma RemoveKeySize<K, V>(m: map<K, V>, k: K)
    ensures |m - {k}| == |m| - Indicator(k in m)
  {
    if k in m {
      assert (m - {k}).Keys == m.Keys - {k};
    } else {
      assert m - {k} == m;
    }
  }

  lemma SubtractUnion<K, V>(m: map<K, V>, a: set<K>, b: set<K>)
    ensures m - (a + b) == m - a - b
  {
  }

  lemma {:induction false} KeptLength(es: seq<Endpoint>, d: Desired)
    ensures |Kept(es, d)| == |d| - |d - KeySet(es)|
  {
    if es == [] {
      assert d - KeySet(es) == d;
    } else {
      var front, e := es[..|es| - 1], es[|es| - 1];
      KeptLength(front, d);
      KeySetSnoc(es);
      SubtractUnion(d, KeySet(front), {e.key});
      RemoveKeySize(d - KeySet(front), e.key);
    }
  }

  // When nothing was dropped, the slice's own endpoints are the kept ones, position by position.
  lemma {:induction false} AllKept(es: seq<Endpoint>, d: Desired)
    requires KeyedByKey(d)
    requires |Kept(es, d)| == |es|
    ensures forall i :: 0 <= i < |es| ==> es[i].key in d && Kept(es, d)[i] == d[es[i].key]
    ensures !Outdated(es, d) ==> forall i :: 0 <= i < |es| ==> EqualBeyondHash(d[es[i].key], es[i])
  {
    if es != [] {
      var front := es[..|es| - 1];
      KeptIsDesired(front, d);
      AllKept(front, d);
    }
  }

  lemma {:induction false} SameKeysSameCount(es: seq<Endpoint>, fs: seq<Endpoint>, k: EndpointKey)
    requires |es| == |fs| && forall i :: 0 <= i < |es| ==> es[i].key == fs[i].key
    ensures CountKey(es, k) == CountKey(fs, k)
  {
    if es != [] {
      SameKeysSameCount(es[..|es| - 1], fs[..|fs| - 1], k);
    }
  }

  // A slice all of whose endpoints are desired, distinct and up to date keeps them all.
  lemma {:induction false} KeepsAll(es: seq<Endpoint>, d: Desired)
    requires forall i :: 0 <= i < |es| ==> es[i].key in d && EqualBeyondHash(d[es[i].key], es[i])
    requires forall k :: CountKey(es, k) <= 1
    ensures |Kept(es, d)| == |es| && !Outdated(es, d)
  {
    if es != [] {
      var front, e := es[..|es| - 1], es[|es| - 1];
      assert forall i :: 0 <= i < |front| ==> es[i] == front[i];
      forall k ensures CountKey(front, k) <= 1 {
        assert CountKey(es, k) >= CountKey(front, k);
      }
      KeepsAll(front, d);
      assert CountKey(es, e.key) == CountKey(front, e.key) + 1;
      forall i | 0 <= i < |front| ensures front[i].key != e.key {
        CountKeyPositive(front, i);
      }
    }
  }

  // Told by positions: none is kept exactly if none is desired, and all are kept exactly if all are desired and no two
  // have the same key.
  lemma {:induction false} NoneKept(es: seq<Endpoint>, d: Desired)
    ensures Kept(es, d) == [] <==> forall i :: 0 <= i < |es| ==> es[i].key !in d
  {
    if es != [] {
      var front, e := es[..|es| - 1], es[|es| - 1];
      NoneKept(front, d);
      assert forall i :: 0 <= i < |front| ==> front[i] == es[i];
    }
  }

  lemma {:induction false} EachKept(es: seq<Endpoint>, d: Desired)
    ensures |Kept(es, d)| <= |es|
    ensures |Kept(es, d)| == |es| <==>
      (forall i :: 0 <= i < |es| ==> es[i].key in d) && (forall i, j :: 0 <= i < j < |es| ==> es[i].key != es[j].key)
  {
    if es != [] {
      var front, e := es[..|es| - 1], es[|es| - 1];
      EachKept(front, d);
      assert forall i :: 0 <= i < |front| ==> front[i] == es[i];
      assert e.key in KeySet(front) <==> exists i :: 0 <= i < |front| && front[i].key == e.key;
    }
  }

  lemma {:induction false} OutdatedExactly(es: seq<Endpoint>, d: Desired)
    requires forall i, j :: 0 <= i < j < |es| ==> es[i].key != es[j].key
    ensures Outdated(es, d) <==> exists i :: 0 <= i < |es| && es[i].key in d && !EqualBeyondHash(d[es[i].key], es[i])
  {
    if es != [] {
      var front, e := es[..|es| - 1], es[|es| - 1];
      OutdatedExactly(front, d);
      assert forall i :: 0 <= i < |front| ==> front[i] == es[i];
    }
  }

  // An endpoint stands as it should: its node, zone and conditions are the desired ones, and so is its target but for the
  // resource version.
  ghost predicate AsDesired(e: Endpoint, f: Endpoint) {
    && e.nodeName == f.nodeName && e.zone == f.zone && e.conditions == f.conditions
    && (e.targetRef.Some? <==> f.targetRef.Some?)
    && (e.targetRef.Some? && f.targetRef.Some? ==>
          e.targetRef.value.kind == f.targetRef.value.kind && e.targetRef.value.uid == f.targetRef.value.uid)
  }

  // A slice is deleted exactly if it has endpoints and none of them is desired. It is left alone exactly if its endpoints
  // are desired, different from each other and as desired, and its labels are the service's outside three keys.
  lemma JudgedExactly(s: EndpointSlice, d: Desired, service: Service, managedBy: string)
    ensures Judge(s, d, service, managedBy).Delete? <==>
      s.endpoints != [] && forall i :: 0 <= i < |s.endpoints| ==> s.endpoints[i].key !in d
    ensures Judge(s, d, service, managedBy).Unchanged? <==>
      && (forall i :: 0 <= i < |s.endpoints| ==> s.endpoints[i].key in d && AsDesired(s.endpoints[i], d[s.endpoints[i].key]))
      && (forall i, j :: 0 <= i < j < |s.endpoints| ==> s.endpoints[i].key != s.endpoints[j].key)
      && (forall k :: k !in RESERVED ==> SameUnder(s.labels, service.labels, k))
  {
    var es := s.endpoints;
    NoneKept(es, d);
    EachKept(es, d);
    MirrorsExactly(s, service);
    if |Kept(es, d)| == |es| {
      OutdatedExactly(es, d);
      if Outdated(es, d) {
        var i :| 0 <= i < |es| && es[i].key in d && !EqualBeyondHash(d[es[i].key], es[i]);
        assert !AsDesired(es[i], d[es[i].key]);
      }
    }
    if Kept(es, d) == [] {
      NothingOutdated(es, d);
    }
  }

  lemma {:induction false} NothingOutdated(es: seq<Endpoint>, d: Desired)
    requires forall i :: 0 <= i < |es| ==> es[i].key !in d
    ensures !Outdated(es, d)
  {
    if es != [] {
      assert forall i :: 0 <= i < |es| - 1 ==> es[..|es| - 1][i] == es[i];
      NothingOutdated(es[..|es| - 1], d);
    }
  }

  /* Lemmas about the group */

  lemma AllKeysSnoc(ss: seq<EndpointSlice>, j: nat)
    requires j < |ss|
    ensures AllKeys(ss[..j + 1]) == AllKeys(ss[..j]) + KeySet(ss[j].endpoints)
  {
    PrefixStep(ss, j);
  }

  lemma NoKeys(ss: seq<EndpointSlice>, d: Desired)
    ensures d - AllKeys(ss[..0]) == d
  {
  }

  lemma RestSnoc(ss: seq<EndpointSlice>, j: nat, d: Desired)
    requires j < |ss|
    ensures d - AllKeys(ss[..j + 1]) == d - AllKeys(ss[..j]) - KeySet(ss[j].endpoints)
  {
    AllKeysSnoc(ss, j);
    SubtractUnion(d, AllKeys(ss[..j]), KeySet(ss[j].endpoints));
  }

  lemma TotalSnoc(ss: seq<EndpointSlice>, j: nat)
    requires j < |ss|
    ensures TotalEndpoints(ss[..j + 1]) == TotalEndpoints(ss[..j]) + |ss[j].endpoints|
  {
    PrefixStep(ss, j);
  }

  lemma RestSize(ss: seq<EndpointSlice>, j: nat, d: Desired)
    requires j < |ss|
    ensures |d - AllKeys(ss[..j + 1])| == |d - AllKeys(ss[..j])| - |Kept(ss[j].endpoints, d - AllKeys(ss[..j]))|
  {
    RestSnoc(ss, j, d);
    KeptLength(ss[j].endpoints, d - AllKeys(ss[..j]));
  }

  // What is left of slice s after its verdict, as far as counting is concerned.
  function After(s: EndpointSlice, v: Verdict): seq<Endpoint> {
    match v
    case Delete => []
    case Update(t) => t.endpoints
    case Unchanged => s.endpoints
  }

  lemma JudgeConserves(s: EndpointSlice, d: Desired, service: Service, managedBy: string, k: EndpointKey)
    requires KeyedByKey(d)
    ensures CountKey(After(s, Judge(s, d, service, managedBy)), k) + Indicator(k in d - KeySet(s.endpoints))
         == Indicator(k in d)
  {
    KeptConserves(s.endpoints, d, k);
    if |Kept(s.endpoints, d)| == |s.endpoints| {
      AllKept(s.endpoints, d);
      SameKeysSameCount(s.endpoints, Kept(s.endpoints, d), k);
    }
  }

  // Appending to byName beyond the slices already seen does not disturb the earlier part.
  lemma {:induction false} CurrentFrame(existing: seq<EndpointSlice>, byName: map<Name, EndpointSlice>, byName': map<Name, EndpointSlice>,
                                        gone: set<Name>, gone': set<Name>)
    requires Covers(byName, existing) && Covers(byName', existing)
    requires forall i :: 0 <= i < |existing| ==>
      var name := existing[i].name;
      byName[name] == byName'[name] && (name in gone <==> name in gone')
    ensures Current(existing, byName, gone) == Current(existing, byName', gone')
  {
    if existing != [] {
      CurrentFrame(existing[..|existing| - 1], byName, byName', gone, gone');
    }
  }

  lemma CurrentLast(existing: seq<EndpointSlice>, byName: map<Name, EndpointSlice>, gone: set<Name>, k: EndpointKey)
    requires existing != [] && Covers(byName, existing)
    ensures var front, name := existing[..|existing| - 1], existing[|existing| - 1].name;
      Occurrences(Current(existing, byName, gone), k)
      == Occurrences(Current(front, byName, gone), k) + (if name in gone then 0 else CountKey(byName[name].endpoints, k))
  {
    var front, s := existing[..|existing| - 1], existing[|existing| - 1];
    if s.name !in gone {
      OccurrencesSnoc(Current(front, byName, gone), byName[s.name], k);
    } else {
      assert Current(existing, byName, gone) == Current(front, byName, gone);
    }
  }

  lemma JudgedCovers(existing: seq<EndpointSlice>, d: Desired, service: Service, managedBy: string, w: Working)
    requires Judged(existing, |existing|, d, service, managedBy, w)
    ensures Covers(w.byName, existing)
  {
    forall j | 0 <= j < |existing| ensures existing[j].name in w.byName {
      assert Marked(existing[j], VerdictOn(existing, j, d, service, managedBy), w);
    }
  }

  // Over the first n slices, each desired key is held once or still waiting, never both.
  lemma {:induction false} CurrentConserves(existing: seq<EndpointSlice>, n: nat, d: Desired, service: Service, managedBy: string,
                                            w: Working, k: EndpointKey)
    requires n <= |existing| && KeyedByKey(d)
    requires Judged(existing, |existing|, d, service, managedBy, w) && Covers(w.byName, existing)
    ensures Occurrences(Current(existing[..n], w.byName, w.toDelete), k) + Indicator(k in d - AllKeys(existing[..n])) == Indicator(k in d)
  {
    if n > 0 {
      CurrentConserves(existing, n - 1, d, service, managedBy, w, k);
      PrefixStep(existing, n - 1);
      CurrentLast(existing[..n], w.byName, w.toDelete, k);
      RestSnoc(existing, n - 1, d);
      VerdictConserves(existing, n - 1, d, service, managedBy, w, k);
    }
  }

  lemma VerdictConserves(existing: seq<EndpointSlice>, j: nat, d: Desired, service: Service, managedBy: string,
                         w: Working, k: EndpointKey)
    requires j < |existing| && KeyedByKey(d)
    requires Marked(existing[j], VerdictOn(existing, j, d, service, managedBy), w)
    ensures var rest := d - AllKeys(existing[..j]);
      (if existing[j].name in w.toDelete then 0 else CountKey(w.byName[existing[j].name].endpoints, k))
      + Indicator(k in rest - KeySet(existing[j].endpoints)) == Indicator(k in rest)
  {
    JudgeConserves(existing[j], d - AllKeys(existing[..j]), service, managedBy, k);
  }

  /* The step itself */

  method KeepEndpoints(es: seq<Endpoint>, desired: EndpointSet) returns (kept: seq<Endpoint>, outdated: bool)
    requires desired.Valid()
    modifies desired
    ensures desired.Valid() && desired.items == old(desired.items) - KeySet(es)
    ensures kept == Kept(es, old(desired.items))
    ensures outdated <==> Outdated(es, old(desired.items))
  {
    kept, outdated := [], false;
    for i := 0 to |es|
      invariant desired.Valid() && desired.items == old(desired.items) - KeySet(es[..i])
      invariant kept == Kept(es[..i], old(desired.items))
      invariant outdated <==> Outdated(es[..i], old(desired.items))
    {
      PrefixStep(es, i);
      KeySetSnoc(es[..i + 1]);
      SubtractUnion(old(desired.items), KeySet(es[..i]), {es[i].key});
      var got := desired.Get(es[i]);
      if got.Some? {
        kept := kept + [got.value];
        if !EqualBeyondHash(got.value, es[i]) {
          outdated := true;
        }
        desired.Delete(es[i]);
      } else {
        assert desired.items - {es[i].key} == desired.items;
      }
    }
    WholePrefix(es);
  }

  function MarkDelete(w: Working, s: EndpointSlice): Working {
    w.(byName := w.byName[s.name := s], toDelete := w.toDelete + {s.name})
  }

  function MarkUpdate(w: Working, t: EndpointSlice): Working {
    w.(byName := w.byName[t.name := t], toUpdate := w.toUpdate + {t.name})
  }

  function MarkUntouched(w: Working, s: EndpointSlice): Working {
    w.(byName := w.byName[s.name := s], untouched := w.untouched + {s.name})
  }

  // w' differs from w only in what it says about `name`, which w did not know yet.
  ghost predicate AddsOnly(w: Working, w': Working, name: Name) {
    && w'.byName.Keys == w.byName.Keys + {name}
    && forall n :: n != name ==>
         && (n in w.byName ==> w'.byName[n] == w.byName[n])
         && (n in w'.toDelete <==> n in w.toDelete)
         && (n in w'.toUpdate <==> n in w.toUpdate)
         && (n in w'.untouched <==> n in w.untouched)
  }

  ghost predicate Fresh(w: Working, name: Name) {
    name !in w.byName && name !in w.untouched && name !in w.toUpdate && name !in w.toDelete
  }

  lemma MarksAddOnly(w: Working, s: EndpointSlice)
    ensures AddsOnly(w, MarkDelete(w, s), s.name)
    ensures AddsOnly(w, MarkUpdate(w, s), s.name)
    ensures AddsOnly(w, MarkUntouched(w, s), s.name)
  {
  }

  method JudgeSlice(s: EndpointSlice, service: Service, managedBy: string, w: Working, desired: EndpointSet)
    returns (w': Working, removed: int)
    requires desired.Valid()
    requires Fresh(w, s.name)
    modifies desired
    ensures desired.Valid() && desired.items == old(desired.items) - KeySet(s.endpoints)
    ensures Marked(s, Judge(s, old(desired.items), service, managedBy), w') && AddsOnly(w, w', s.name)
    ensures removed == |s.endpoints| - |old(desired.items)| + |desired.items|
  {
    var kept, outdated := KeepEndpoints(s.endpoints, desired);
    KeptIsDesired(s.endpoints, old(desired.items));
    KeptLength(s.endpoints, old(desired.items));

    var labels, labelsChanged := SetEndpointSliceLabels(s, service, managedBy);
    removed := 0;
    if outdated || |s.endpoints| != |kept| {
      if |s.endpoints| > |kept| {
        removed := |s.endpoints| - |kept|;
      }
      if |kept| == 0 {
        w' := MarkDelete(w, s);
        MarksAddOnly(w, s);
      } else {
        var t := s.(endpoints := kept, labels := labels);
        w' := MarkUpdate(w, t);
        MarksAddOnly(w, t);
      }
    } else if labelsChanged {
      var t := s.(labels := labels);
      w' := MarkUpdate(w, t);
      MarksAddOnly(w, t);
    } else {
      w' := MarkUntouched(w, s);
      MarksAddOnly(w, s);
    }
  }

  method KeepDesired(service: Service, managedBy: string, existing: seq<EndpointSlice>, desired: EndpointSet)
    returns (w: Working, numRemoved: int)
    requires desired.Valid() && DistinctNames(existing)
    modifies desired
    ensures desired.Valid() && desired.items == old(desired.items) - AllKeys(existing)
    ensures Judged(existing, |existing|, old(desired.items), service, managedBy, w)
    ensures numRemoved == TotalEndpoints(existing) - |old(desired.items)| + |desired.items|
  {
    w, numRemoved := Working(map[], {}, {}, {}), 0;
    ghost var d := desired.items;
    NoKeys(existing, d);
    for i := 0 to |existing|
      invariant desired.Valid() && KeptSoFar(existing, i, d, service, managedBy, desired.items, w, numRemoved)
    {
      ghost var items := desired.items;
      KeptFresh(existing, i, d, service, managedBy, items, w, numRemoved);
      var w', removed := JudgeSlice(existing[i], service, managedBy, w, desired);
      KeptStep(existing, i, d, service, managedBy, items, w, numRemoved, desired.items, w', removed);
      w, numRemoved := w', numRemoved + removed;
    }
    WholePrefix(existing);
  }

  // After the first n slices, with `items` still to be found.
  ghost predicate KeptSoFar(existing: seq<EndpointSlice>, n: nat, d: Desired, service: Service, managedBy: string,
                            items: Desired, w: Working, removed: int)
    requires n <= |existing|
  {
    && items == d - AllKeys(existing[..n]) && Judged(existing, n, d, service, managedBy, w)
    && removed == TotalEndpoints(existing[..n]) - |d| + |items|
  }

  lemma KeptFresh(existing: seq<EndpointSlice>, n: nat, d: Desired, service: Service, managedBy: string,
                  items: Desired, w: Working, removed: int)
    requires n < |existing| && DistinctNames(existing) && KeptSoFar(existing, n, d, service, managedBy, items, w, removed)
    ensures Fresh(w, existing[n].name)
  {
  }

  lemma KeptStep(existing: seq<EndpointSlice>, n: nat, d: Desired, service: Service, managedBy: string,
                 items: Desired, w: Working, removed: int, items': Desired, w': Working, removed': int)
    requires n < |existing| && DistinctNames(existing) && KeptSoFar(existing, n, d, service, managedBy, items, w, removed)
    requires items' == items - KeySet(existing[n].endpoints)
    requires Marked(existing[n], Judge(existing[n], items, service, managedBy), w') && AddsOnly(w, w', existing[n].name)
    requires removed' == |existing[n].endpoints| - |items| + |items'|
    ensures KeptSoFar(existing, n + 1, d, service, managedBy, items', w', removed + removed')
  {
    RestSnoc(existing, n, d);
    TotalSnoc(existing, n);
    JudgedSnoc(existing, n, d, service, managedBy, w, w');
  }

  lemma JudgedSnoc(existing: seq<EndpointSlice>, n: nat, d: Desired, service: Service, managedBy: string, w: Working, w': Working)
    requires n < |existing| && DistinctNames(existing)
    requires Judged(existing, n, d, service, managedBy, w)
    requires Marked(existing[n], VerdictOn(existing, n, d, service, managedBy), w')
    requires AddsOnly(w, w', existing[n].name)
    ensures Judged(existing, n + 1, d, service, managedBy, w')
  {
    PrefixStep(existing, n);
    forall j | 0 <= j < n + 1
      ensures Marked(existing[j], VerdictOn(existing, j, d, service, managedBy), w')
    {
      if j < n {
        assert Marked(existing[j], VerdictOn(existing, j, d, service, managedBy), w);
        assert existing[j].name in w.byName && existing[j].name != existing[n].name;
      }
    }
  }
}
