/**
 Reading the hints of unchanged slices, and giving every endpoint of the other slices a hint for
 its own zone.
 */
module HintScan {
  import opened Sequences
  import opened Discovery
  import opened ZoneMaps
  import opened Allocation
  import opened Hints

  // `counts` records how many hints of the slices name each zone.
  ghost predicate Tallies(counts: Counts, ss: seq<EndpointSlice>) {
    forall z :: Get(counts, z) == TotalHints(ss, z)
  }

  ghost predicate TalliesEndpoints(counts: Counts, es: seq<Endpoint>) {
    && (forall z :: Get(counts, z) == HintsIn(es, z))
    && (forall z :: z in counts ==> counts[z] > 0)
  }

  lemma {:induction false} CountZonePositive(zones: seq<Zone>, i: nat)
    requires i < |zones|
    ensures CountZone(zones, zones[i]) > 0
  {
    if i < |zones| - 1 {
      CountZonePositive(zones[..|zones| - 1], i);
    }
  }

  lemma {:induction false} HintsAtLeast(es: seq<Endpoint>, i: nat, z: Zone)
    requires i < |es|
    ensures HintsIn(es, z) >= EndpointHints(es[i], z)
  {
    if i < |es| - 1 {
      HintsAtLeast(es[..|es| - 1], i, z);
    }
  }

  // Adds the hints of one endpoint to the counts, unless one names a zone outside the allocations.
  method CountEndpoint(hints: seq<Zone>, counts: Counts, a: map<Zone, Allocation>) returns (ok: bool, counts': Counts)
    ensures ok <==> forall i :: 0 <= i < |hints| ==> hints[i] in a
    ensures ok ==> forall z :: Get(counts', z) == Get(counts, z) + CountZone(hints, z)
    ensures ok ==> forall z :: z in counts' ==> z in counts || z in a
    ensures ok && (forall z :: z in counts ==> counts[z] > 0) ==> forall z :: z in counts' ==> counts'[z] > 0
  {
    ok, counts' := true, counts;
    for i := 0 to |hints|
      invariant forall j :: 0 <= j < i ==> hints[j] in a
      invariant forall z :: Get(counts', z) == Get(counts, z) + CountZone(hints[..i], z)
      invariant forall z :: z in counts' ==> z in counts || z in a
      invariant (forall z :: z in counts ==> counts[z] > 0) ==> forall z :: z in counts' ==> counts'[z] > 0
    {
      if hints[i] !in a {
        ok := false;
        return;
      }
      PrefixStep(hints, i);
      counts' := Bump(counts', hints[i], 1);
    }
    WholePrefix(hints);
  }

  lemma NotRetainable(es: seq<Endpoint>, i: nat, j: nat, kept: seq<EndpointSlice>, a: map<Zone, Allocation>)
    requires i < |es| && Ready(es[i]) && es[i].hints.Some? && j < |es[i].hints.value| && es[i].hints.value[j] !in a
    ensures !Fits(es, kept, a)
  {
    CountZonePositive(es[i].hints.value, j);
    HintsAtLeast(es, i, es[i].hints.value[j]);
  }

  method CountHints(es: seq<Endpoint>, a: map<Zone, Allocation>, ghost kept: seq<EndpointSlice>) returns (r: Option<Counts>)
    ensures r.None? ==> !Fits(es, kept, a)
    ensures r.Some? ==> FullyHinted(es) && TalliesEndpoints(r.value, es) && r.value.Keys <= a.Keys
  {
    var counts: Counts := map[];
    for i := 0 to |es|
      invariant FullyHinted(es[..i]) && TalliesEndpoints(counts, es[..i]) && counts.Keys <= a.Keys
    {
      var e := es[i];
      PrefixStep(es, i);
      if Ready(e) {
        if e.hints.None? || |e.hints.value| == 0 {
          return None;
        }
        var ok, counts' := CountEndpoint(e.hints.value, counts, a);
        if !ok {
          ghost var j :| 0 <= j < |e.hints.value| && e.hints.value[j] !in a;
          NotRetainable(es, i, j, kept, a);
          return None;
        }
        counts := counts';
      }
    }
    WholePrefix(es);
    r := Some(counts);
  }

  // The hints of the slice by zone, unless the slice has to be updated.
  method GetHintsByZone(s: EndpointSlice, allocatedHints: Counts, a: map<Zone, Allocation>, ghost kept: seq<EndpointSlice>)
    returns (r: Option<Counts>)
    requires Tallies(allocatedHints, kept)
    ensures r.Some? <==> Fits(s.endpoints, kept, a)
    ensures r.Some? ==> TalliesEndpoints(r.value, s.endpoints)
  {
    r := CountHints(s.endpoints, a, kept);
    if r.None? {
      return;
    }
    var counts := r.value;
    var rest := counts.Keys;
    while rest != {}
      invariant rest <= counts.Keys
      invariant forall z :: z in counts && z !in rest ==> counts[z] + Get(allocatedHints, z) <= a[z].maximum
      decreases rest
    {
      var zone :| zone in rest;
      if zone !in a || counts[zone] + Get(allocatedHints, zone) > a[zone].maximum {
        assert HintsIn(s.endpoints, zone) == counts[zone];
        return None;
      }
      rest := rest - {zone};
    }
    forall z | HintsIn(s.endpoints, z) > 0
      ensures z in a && HintsIn(s.endpoints, z) + TotalHints(kept, z) <= a[z].maximum
    {
      assert Get(counts, z) > 0;
    }
  }

  method AddCounts(counts: Counts, more: Counts) returns (sum: Counts)
    ensures forall z :: Get(sum, z) == Get(counts, z) + Get(more, z)
    ensures sum.Keys == counts.Keys + more.Keys
  {
    sum := counts;
    var rest := more.Keys;
    while rest != {}
      invariant rest <= more.Keys && sum.Keys == counts.Keys + (more.Keys - rest)
      invariant forall z :: Get(sum, z) == Get(counts, z) + (if z in rest then 0 else Get(more, z))
      decreases rest
    {
      var zone :| zone in rest;
      sum := Bump(sum, zone, more[zone]);
      rest := rest - {zone};
    }
  }

  // Sorts out the unchanged slices and sums up the hints of those that stay unchanged.
  method SplitUnchanged(us: seq<EndpointSlice>, a: map<Zone, Allocation>)
    returns (kept: seq<EndpointSlice>, displaced: seq<EndpointSlice>, counts: Counts)
    ensures kept == Retained(us, a) && displaced == Displaced(us, a)
    ensures Tallies(counts, kept)
  {
    kept, displaced, counts := [], [], map[];
    for i := 0 to |us|
      invariant kept == Retained(us[..i], a) && displaced == Displaced(us[..i], a)
      invariant Tallies(counts, kept)
    {
      PrefixStep(us, i);
      var hintsByZone := GetHintsByZone(us[i], counts, a, kept);
      if hintsByZone.None? {
        displaced := displaced + [us[i]];
      } else {
        forall z ensures TotalHints(kept + [us[i]], z) == TotalHints(kept, z) + HintsIn(us[i].endpoints, z) {
          TotalHintsSnoc(kept, us[i], z);
        }
        kept := kept + [us[i]];
        counts := AddCounts(counts, hintsByZone.value);
      }
    }
    WholePrefix(us);
  }

  /* Same-zone hints */

  // The endpoint with a hint for its own zone, if it is ready.
  function Localized(e: Endpoint): Endpoint {
    if Ready(e) && e.zone.Some? then e.(hints := Some([e.zone.value])) else e
  }

  predicate LocalizedAll(es: seq<Endpoint>, fs: seq<Endpoint>) {
    |es| == |fs| && forall i :: 0 <= i < |es| ==> fs[i] == Localized(es[i])
  }

  // Every ready endpoint says which zone it is in.
  predicate Zoned(es: seq<Endpoint>) {
    forall i :: 0 <= i < |es| && es[i].conditions.ready == Some(true) ==> es[i].zone.Some? && es[i].zone.value != NoZone
  }

  predicate AllZoned(ss: seq<EndpointSlice>) {
    forall i :: 0 <= i < |ss| ==> Zoned(ss[i].endpoints)
  }

  method HintEndpoints(es: seq<Endpoint>, counts: Counts) returns (ok: bool, fs: seq<Endpoint>, counts': Counts)
    ensures ok <==> Zoned(es)
    ensures ok ==> LocalizedAll(es, fs) && forall z :: Get(counts', z) == Get(counts, z) + ReadyIn(es, z)
    ensures |fs| == |es| && forall i :: 0 <= i < |es| ==> fs[i] == es[i] || fs[i] == Localized(es[i])
  {
    ok, fs, counts' := true, es, counts;
    for i := 0 to |es|
      invariant |fs| == |es| && Zoned(es[..i])
      invariant forall j :: 0 <= j < i ==> fs[j] == Localized(es[j])
      invariant forall j :: i <= j < |es| ==> fs[j] == es[j]
      invariant forall z :: Get(counts', z) == Get(counts, z) + ReadyIn(es[..i], z)
    {
      PrefixStep(es, i);
      if Ready(es[i]) {
        if es[i].zone.None? || es[i].zone.value == NoZone {
          ok := false;
          return;
        }
        counts' := Bump(counts', es[i].zone.value, 1);
        fs := fs[i := es[i].(hints := Some([es[i].zone.value]))];
      }
    }
    WholePrefix(es);
  }

  predicate LocalizedSlices(ss: seq<EndpointSlice>, ts: seq<EndpointSlice>) {
    |ss| == |ts| && forall i :: 0 <= i < |ss| ==> ts[i] == ss[i].(endpoints := ts[i].endpoints) && LocalizedAll(ss[i].endpoints, ts[i].endpoints)
  }

  method AssignSameZone(ss: seq<EndpointSlice>, counts: Counts) returns (ok: bool, ts: seq<EndpointSlice>, counts': Counts)
    ensures ok <==> AllZoned(ss)
    ensures ok ==> LocalizedSlices(ss, ts) && forall z :: Get(counts', z) == Get(counts, z) + TotalReadyIn(ss, z)
    ensures AllSameButHints(ss, ts) && AllNotReadyKept(ss, ts)
  {
    ok, ts, counts' := true, ss, counts;
    for i := 0 to |ss|
      invariant |ts| == |ss| && AllZoned(ss[..i])
      invariant LocalizedSlices(ss[..i], ts[..i]) && ts[i..] == ss[i..]
      invariant AllSameButHints(ss, ts) && AllNotReadyKept(ss, ts)
      invariant forall z :: Get(counts', z) == Get(counts, z) + TotalReadyIn(ss[..i], z)
    {
      PrefixStep(ss, i);
      assert ts[i] == ss[i];
      var good, es, more := HintEndpoints(ss[i].endpoints, counts');
      var t := ss[i].(endpoints := es);
      ghost var before := ts;
      ts := ts[i := t];
      assert ts[..i + 1] == before[..i] + [t];
      assert SameButHints(ss[i], t);
      if !good {
        ok := false;
        return;
      }
      counts' := more;
    }
    WholePrefix(ss);
    WholePrefix(ts);
  }

  // With same-zone hints, the hints by zone are the ready endpoints by zone.
  lemma {:induction false} LocalizedHints(es: seq<Endpoint>, fs: seq<Endpoint>, z: Zone)
    requires Zoned(es) && LocalizedAll(es, fs)
    ensures HintsIn(fs, z) == ReadyIn(es, z)
  {
    if es != [] {
      var n := |es| - 1;
      LocalizedHints(es[..n], fs[..n], z);
      if Ready(es[n]) {
        assert fs[n].hints.value[..0] == [];
        assert CountZone([es[n].zone.value], z) == (if es[n].zone.value == z then 1 else 0);
      }
    }
  }

  lemma {:induction false} LocalizedTotal(ss: seq<EndpointSlice>, ts: seq<EndpointSlice>, z: Zone)
    requires AllZoned(ss) && LocalizedSlices(ss, ts)
    ensures TotalHints(ts, z) == TotalReadyIn(ss, z)
  {
    if ss != [] {
      var n := |ss| - 1;
      LocalizedTotal(ss[..n], ts[..n], z);
      LocalizedHints(ss[n].endpoints, ts[n].endpoints, z);
    }
  }
}
