/**
 Counting topology hints on slices, comparing slices up to hints, and deciding which unchanged
 slices may keep the hints they have.
 */
module Hints {
  import opened Sequences
  import opened Discovery
  import opened Allocation

  predicate Ready(e: Endpoint) {
    e.conditions.ready == Some(true)
  }

  predicate HasZone(e: Endpoint) {
    e.zone.Some? && e.zone.value != NoZone
  }

  /* Counting */

  function CountZone(zones: seq<Zone>, z: Zone): nat {
    if zones == [] then 0
    else CountZone(zones[..|zones| - 1], z) + (if zones[|zones| - 1] == z then 1 else 0)
  }

  // How many hints of a ready endpoint name zone z.
  function EndpointHints(e: Endpoint, z: Zone): nat {
    if Ready(e) && e.hints.Some? then CountZone(e.hints.value, z) else 0
  }

  function HintsIn(es: seq<Endpoint>, z: Zone): nat {
    if es == [] then 0 else HintsIn(es[..|es| - 1], z) + EndpointHints(es[|es| - 1], z)
  }

  function TotalHints(ss: seq<EndpointSlice>, z: Zone): nat {
    if ss == [] then 0 else TotalHints(ss[..|ss| - 1], z) + HintsIn(ss[|ss| - 1].endpoints, z)
  }

  // How many ready endpoints are in zone z.
  function ReadyIn(es: seq<Endpoint>, z: Zone): nat {
    if es == [] then 0
    else ReadyIn(es[..|es| - 1], z) + (if Ready(es[|es| - 1]) && es[|es| - 1].zone == Some(z) then 1 else 0)
  }

  function TotalReadyIn(ss: seq<EndpointSlice>, z: Zone): nat {
    if ss == [] then 0 else TotalReadyIn(ss[..|ss| - 1], z) + ReadyIn(ss[|ss| - 1].endpoints, z)
  }

  function NumReady(es: seq<Endpoint>): nat {
    if es == [] then 0 else NumReady(es[..|es| - 1]) + (if Ready(es[|es| - 1]) then 1 else 0)
  }

  function TotalReady(ss: seq<EndpointSlice>): nat {
    if ss == [] then 0 else TotalReady(ss[..|ss| - 1]) + NumReady(ss[|ss| - 1].endpoints)
  }

  // The positions of the endpoints with a property.
  function Positions(es: seq<Endpoint>, p: Endpoint -> bool): set<nat> {
    set i: nat | i < |es| && p(es[i])
  }

  lemma PositionsSnoc(es: seq<Endpoint>, p: Endpoint -> bool)
    requires es != []
    ensures |Positions(es, p)| == |Positions(es[..|es| - 1], p)| + if p(es[|es| - 1]) then 1 else 0
  {
    var n := |es| - 1;
    var front := Positions(es[..n], p);
    assert Positions(es, p) == if p(es[n]) then front + {n} else front;
  }

  // Told by positions: the ready endpoints, and those of a zone.
  lemma {:induction false} ReadyIsCount(es: seq<Endpoint>, p: Endpoint -> bool)
    requires forall e: Endpoint :: p(e) <==> e.conditions.ready == Some(true)
    ensures NumReady(es) == |Positions(es, p)|
  {
    if es == [] {
      assert Positions(es, p) == {};
    } else {
      ReadyIsCount(es[..|es| - 1], p);
      PositionsSnoc(es, p);
    }
  }

  lemma {:induction false} ReadyInIsCount(es: seq<Endpoint>, z: Zone, p: Endpoint -> bool)
    requires forall e: Endpoint :: p(e) <==> e.conditions.ready == Some(true) && e.zone == Some(z)
    ensures ReadyIn(es, z) == |Positions(es, p)|
  {
    if es == [] {
      assert Positions(es, p) == {};
    } else {
      ReadyInIsCount(es[..|es| - 1], z, p);
      PositionsSnoc(es, p);
    }
  }

  lemma {:induction false} CountZoneIsCount(zones: seq<Zone>, z: Zone)
    ensures CountZone(zones, z) == multiset(zones)[z]
  {
    if zones != [] {
      var n := |zones| - 1;
      CountZoneIsCount(zones[..n], z);
      assert zones == zones[..n] + [zones[n]];
    }
  }

  // The hints of all ready endpoints in one list.
  function AllHints(es: seq<Endpoint>): seq<Zone> {
    if es == [] then []
    else
      var e := es[|es| - 1];
      AllHints(es[..|es| - 1]) + if e.conditions.ready == Some(true) && e.hints.Some? then e.hints.value else []
  }

  lemma {:induction false} HintsAreCounted(es: seq<Endpoint>, z: Zone)
    ensures HintsIn(es, z) == multiset(AllHints(es))[z]
  {
    if es != [] {
      var n := |es| - 1;
      HintsAreCounted(es[..n], z);
      if es[n].hints.Some? {
        CountZoneIsCount(es[n].hints.value, z);
      }
    }
  }

  lemma HintsSnoc(es: seq<Endpoint>, e: Endpoint, z: Zone)
    ensures HintsIn(es + [e], z) == HintsIn(es, z) + EndpointHints(e, z)
    ensures ReadyIn(es + [e], z) == ReadyIn(es, z) + (if Ready(e) && e.zone == Some(z) then 1 else 0)
  {
    assert (es + [e])[..|es|] == es;
  }

  lemma TotalHintsSnoc(ss: seq<EndpointSlice>, s: EndpointSlice, z: Zone)
    ensures TotalHints(ss + [s], z) == TotalHints(ss, z) + HintsIn(s.endpoints, z)
    ensures TotalReadyIn(ss + [s], z) == TotalReadyIn(ss, z) + ReadyIn(s.endpoints, z)
  {
    assert (ss + [s])[..|ss|] == ss;
  }

  lemma {:induction false} TotalHintsConcat(ss: seq<EndpointSlice>, ts: seq<EndpointSlice>, z: Zone)
    ensures TotalHints(ss + ts, z) == TotalHints(ss, z) + TotalHints(ts, z)
  {
    if ts == [] {
      assert ss + ts == ss;
    } else {
      var n := |ts| - 1;
      assert (ss + ts)[..|ss + ts| - 1] == ss + ts[..n];
      TotalHintsConcat(ss, ts[..n], z);
    }
  }

  method NumReadyEndpoints(es: seq<Endpoint>) returns (total: nat)
    ensures total == NumReady(es)
  {
    total := 0;
    for i := 0 to |es|
      invariant total == NumReady(es[..i])
    {
      PrefixStep(es, i);
      if Ready(es[i]) {
        total := total + 1;
      }
    }
    WholePrefix(es);
  }

  method SumReadyEndpoints(ss: seq<EndpointSlice>) returns (total: nat)
    ensures total == TotalReady(ss)
  {
    total := 0;
    for i := 0 to |ss|
      invariant total == TotalReady(ss[..i])
    {
      PrefixStep(ss, i);
      var n := NumReadyEndpoints(ss[i].endpoints);
      total := total + n;
    }
    WholePrefix(ss);
  }

  /* Hinted and unhinted slices */

  // Every ready endpoint has at least one hint.
  predicate FullyHinted(es: seq<Endpoint>) {
    forall i :: 0 <= i < |es| && es[i].conditions.ready == Some(true) ==> es[i].hints.Some? && es[i].hints.value != []
  }

  predicate AllHinted(ss: seq<EndpointSlice>) {
    forall i :: 0 <= i < |ss| ==> FullyHinted(ss[i].endpoints)
  }

  predicate Unhinted(es: seq<Endpoint>) {
    forall i :: 0 <= i < |es| ==> es[i].hints.None?
  }

  predicate NoneHinted(ss: seq<EndpointSlice>) {
    forall i :: 0 <= i < |ss| ==> Unhinted(ss[i].endpoints)
  }

  // The two slices differ at most in hints.
  predicate SameButHints(s: EndpointSlice, t: EndpointSlice) {
    && t == s.(endpoints := t.endpoints)
    && |s.endpoints| == |t.endpoints|
    && forall i :: 0 <= i < |s.endpoints| ==> t.endpoints[i] == s.endpoints[i].(hints := t.endpoints[i].hints)
  }

  predicate AllSameButHints(ss: seq<EndpointSlice>, ts: seq<EndpointSlice>) {
    |ss| == |ts| && forall i :: 0 <= i < |ss| ==> SameButHints(ss[i], ts[i])
  }

  lemma AllSameButHintsTransitive(ss: seq<EndpointSlice>, ts: seq<EndpointSlice>, us: seq<EndpointSlice>)
    requires AllSameButHints(ss, ts) && AllSameButHints(ts, us)
    ensures AllSameButHints(ss, us)
  {
    forall i | 0 <= i < |ss| ensures SameButHints(ss[i], us[i]) {
      assert SameButHints(ss[i], ts[i]) && SameButHints(ts[i], us[i]);
    }
  }

  // Endpoints that are not ready are as they were, hints included.
  predicate NotReadyKept(es: seq<Endpoint>, fs: seq<Endpoint>) {
    |es| == |fs| && forall i :: 0 <= i < |es| && es[i].conditions.ready != Some(true) ==> fs[i] == es[i]
  }

  predicate AllNotReadyKept(ss: seq<EndpointSlice>, ts: seq<EndpointSlice>) {
    |ss| == |ts| && forall i :: 0 <= i < |ss| ==> NotReadyKept(ss[i].endpoints, ts[i].endpoints)
  }

  lemma AllNotReadyKeptTransitive(ss: seq<EndpointSlice>, ts: seq<EndpointSlice>, us: seq<EndpointSlice>)
    requires AllNotReadyKept(ss, ts) && AllNotReadyKept(ts, us)
    ensures AllNotReadyKept(ss, us)
  {
    forall i | 0 <= i < |ss| ensures NotReadyKept(ss[i].endpoints, us[i].endpoints) {
      assert NotReadyKept(ss[i].endpoints, ts[i].endpoints) && NotReadyKept(ts[i].endpoints, us[i].endpoints);
    }
  }

  lemma {:induction false} ReadyInSame(es: seq<Endpoint>, fs: seq<Endpoint>, z: Zone)
    requires |es| == |fs| && forall i :: 0 <= i < |es| ==> fs[i] == es[i].(hints := fs[i].hints)
    ensures ReadyIn(es, z) == ReadyIn(fs, z) && NumReady(es) == NumReady(fs)
  {
    if es != [] {
      ReadyInSame(es[..|es| - 1], fs[..|fs| - 1], z);
    }
  }

  lemma {:induction false} TotalReadyInSame(ss: seq<EndpointSlice>, ts: seq<EndpointSlice>, z: Zone)
    requires AllSameButHints(ss, ts)
    ensures TotalReadyIn(ss, z) == TotalReadyIn(ts, z) && TotalReady(ss) == TotalReady(ts)
  {
    if ss != [] {
      var n := |ss| - 1;
      TotalReadyInSame(ss[..n], ts[..n], z);
      ReadyInSame(ss[n].endpoints, ts[n].endpoints, z);
    }
  }

  // us was split into `kept` and `moved`.
  ghost predicate Splits(us: seq<EndpointSlice>, kept: seq<EndpointSlice>, moved: seq<EndpointSlice>) {
    multiset(us) == multiset(kept) + multiset(moved)
  }

  lemma SplitsSnoc(us: seq<EndpointSlice>, kept: seq<EndpointSlice>, moved: seq<EndpointSlice>, s: EndpointSlice)
    requires Splits(us, kept, moved)
    ensures Splits(us + [s], kept + [s], moved)
    ensures Splits(us + [s], kept, moved + [s])
  {
  }

  // Only hints changed, and some unchanged slices became updates because of that.
  ghost predicate OnlyHintsChanged(create: seq<EndpointSlice>, update: seq<EndpointSlice>, same: seq<EndpointSlice>,
                                   create': seq<EndpointSlice>, update': seq<EndpointSlice>, same': seq<EndpointSlice>,
                                   moved: seq<EndpointSlice>) {
    AllSameButHints(create, create') && AllSameButHints(update + moved, update') && Splits(same, same', moved)
  }

  lemma AllSameButHintsConcat(ss: seq<EndpointSlice>, ts: seq<EndpointSlice>, ss': seq<EndpointSlice>, ts': seq<EndpointSlice>)
    requires AllSameButHints(ss, ss') && AllSameButHints(ts, ts')
    ensures AllSameButHints(ss + ts, ss' + ts')
  {
  }

  lemma AllSameButHintsReflexive(ss: seq<EndpointSlice>)
    ensures AllSameButHints(ss, ss)
  {
  }

  lemma AllSameButHintsSplit(ss: seq<EndpointSlice>, ts: seq<EndpointSlice>, hinted: seq<EndpointSlice>)
    requires AllSameButHints(ss + ts, hinted)
    ensures AllSameButHints(ss, hinted[..|ss|]) && AllSameButHints(ts, hinted[|ss|..])
    ensures hinted[..|ss|] + hinted[|ss|..] == hinted
  {
    forall i | 0 <= i < |ss| ensures SameButHints(ss[i], hinted[..|ss|][i]) {
      assert SameButHints((ss + ts)[i], hinted[i]);
    }
    forall i | 0 <= i < |ts| ensures SameButHints(ts[i], hinted[|ss|..][i]) {
      assert SameButHints((ss + ts)[|ss| + i], hinted[|ss| + i]);
    }
  }

  // Two changes of hints in a row are one change of hints.
  lemma OnlyHintsComposed(c0: seq<EndpointSlice>, u0: seq<EndpointSlice>, s0: seq<EndpointSlice>,
                          c1: seq<EndpointSlice>, u1: seq<EndpointSlice>, s1: seq<EndpointSlice>, m1: seq<EndpointSlice>,
                          c2: seq<EndpointSlice>, u2: seq<EndpointSlice>, s2: seq<EndpointSlice>, m2: seq<EndpointSlice>)
    requires OnlyHintsChanged(c0, u0, s0, c1, u1, s1, m1) && OnlyHintsChanged(c1, u1, s1, c2, u2, s2, m2)
    ensures OnlyHintsChanged(c0, u0, s0, c2, u2, s2, m1 + m2)
  {
    AllSameButHintsTransitive(c0, c1, c2);
    AllSameButHintsReflexive(m2);
    AllSameButHintsConcat(u0 + m1, m2, u1, m2);
    AllSameButHintsTransitive(u0 + m1 + m2, u1 + m2, u2);
    ConcatAssociative(u0, m1, m2);
    assert multiset(m1 + m2) == multiset(m1) + multiset(m2);
  }

  /* Hints of endpoints that are not ready */

  predicate Fresh(e: Endpoint) {
    e.conditions.ready == Some(true) || e.hints.None?
  }

  // No endpoint that is not ready has hints.
  ghost predicate NoStaleHints(ss: seq<EndpointSlice>) {
    forall s, e :: s in ss && e in s.endpoints ==> Fresh(e)
  }

  lemma FreshSame(s: EndpointSlice, t: EndpointSlice, e: Endpoint)
    requires SameButHints(s, t) && NotReadyKept(s.endpoints, t.endpoints) && e in t.endpoints && !Fresh(e)
    ensures e in s.endpoints
  {
    var j :| 0 <= j < |t.endpoints| && t.endpoints[j] == e;
    assert s.endpoints[j] == e;
  }

  lemma FreshBefore(s: EndpointSlice, t: EndpointSlice, e: Endpoint)
    requires NotReadyKept(s.endpoints, t.endpoints) && e in s.endpoints && !Fresh(e)
    ensures e in t.endpoints
  {
    var j :| 0 <= j < |s.endpoints| && s.endpoints[j] == e;
    assert t.endpoints[j] == e;
  }

  lemma NoStaleHintsSame(ss: seq<EndpointSlice>, ts: seq<EndpointSlice>)
    requires AllSameButHints(ss, ts) && AllNotReadyKept(ss, ts)
    ensures NoStaleHints(ss) <==> NoStaleHints(ts)
  {
    if s, e :| s in ss && e in s.endpoints && !Fresh(e) {
      var i :| 0 <= i < |ss| && ss[i] == s;
      FreshBefore(s, ts[i], e);
      assert ts[i] in ts;
    }
    if t, e :| t in ts && e in t.endpoints && !Fresh(e) {
      var i :| 0 <= i < |ts| && ts[i] == t;
      FreshSame(ss[i], t, e);
      assert ss[i] in ss;
    }
  }

  lemma NoStaleHintsSplit(us: seq<EndpointSlice>, kept: seq<EndpointSlice>, moved: seq<EndpointSlice>)
    requires Splits(us, kept, moved)
    ensures NoStaleHints(us) <==> NoStaleHints(kept) && NoStaleHints(moved)
  {
    forall s ensures s in us <==> s in kept || s in moved {
      assert s in multiset(us) <==> s in multiset(kept) || s in multiset(moved);
    }
  }

  // Stale hints are gone after a change of hints that leaves endpoints that are not ready alone exactly if there
  // were none before.
  lemma StaleHintsStay(create: seq<EndpointSlice>, update: seq<EndpointSlice>, same: seq<EndpointSlice>,
                       create': seq<EndpointSlice>, update': seq<EndpointSlice>, same': seq<EndpointSlice>, moved: seq<EndpointSlice>)
    requires OnlyHintsChanged(create, update, same, create', update', same', moved)
    requires AllNotReadyKept(create + (update + moved), create' + update')
    ensures NoStaleHints(create + update + same) <==> NoStaleHints(create' + update' + same')
  {
    AllSameButHintsConcat(create, update + moved, create', update');
    NoStaleHintsSame(create + (update + moved), create' + update');
    NoStaleHintsSplit(same, same', moved);
  }

  /* Which unchanged slices keep their hints */

  // A slice keeps its hints if every ready endpoint has one, all name zones that take endpoints, and
  // together with the hints of the slices kept so far none exceeds its zone's maximum.
  ghost predicate Fits(es: seq<Endpoint>, kept: seq<EndpointSlice>, a: map<Zone, Allocation>) {
    && FullyHinted(es)
    && forall z :: HintsIn(es, z) > 0 ==> z in a && HintsIn(es, z) + TotalHints(kept, z) <= a[z].maximum
  }

  ghost function Retained(us: seq<EndpointSlice>, a: map<Zone, Allocation>): seq<EndpointSlice> {
    if us == [] then []
    else
      var front, s := Retained(us[..|us| - 1], a), us[|us| - 1];
      if Fits(s.endpoints, front, a) then front + [s] else front
  }

  ghost function Displaced(us: seq<EndpointSlice>, a: map<Zone, Allocation>): seq<EndpointSlice> {
    if us == [] then []
    else
      var front, s := Displaced(us[..|us| - 1], a), us[|us| - 1];
      if Fits(s.endpoints, Retained(us[..|us| - 1], a), a) then front else front + [s]
  }

  // The retained hints never exceed a zone's maximum, and name only zones that take endpoints.
  lemma {:induction false} RetainedWithinMaximum(us: seq<EndpointSlice>, a: map<Zone, Allocation>, z: Zone)
    requires TotalHints(Retained(us, a), z) > 0
    ensures z in a && TotalHints(Retained(us, a), z) <= a[z].maximum
  {
    var n := |us| - 1;
    var front, s := Retained(us[..n], a), us[n];
    if Fits(s.endpoints, front, a) {
      TotalHintsSnoc(front, s, z);
      if HintsIn(s.endpoints, z) == 0 {
        RetainedWithinMaximum(us[..n], a, z);
      }
    } else {
      RetainedWithinMaximum(us[..n], a, z);
    }
  }

  lemma {:induction false} RetainedHinted(us: seq<EndpointSlice>, a: map<Zone, Allocation>)
    ensures AllHinted(Retained(us, a))
    ensures Splits(us, Retained(us, a), Displaced(us, a))
  {
    if us != [] {
      var n := |us| - 1;
      RetainedHinted(us[..n], a);
      SplitsSnoc(us[..n], Retained(us[..n], a), Displaced(us[..n], a), us[n]);
      assert us == us[..n] + [us[n]];
    }
  }

  lemma {:induction false} TotalReadyConcat(ss: seq<EndpointSlice>, ts: seq<EndpointSlice>)
    ensures TotalReady(ss + ts) == TotalReady(ss) + TotalReady(ts)
  {
    if ts == [] {
      assert ss + ts == ss;
    } else {
      var n := |ts| - 1;
      assert (ss + ts)[..|ss + ts| - 1] == ss + ts[..n];
      TotalReadyConcat(ss, ts[..n]);
    }
  }

  lemma {:induction false} SplitReady(us: seq<EndpointSlice>, a: map<Zone, Allocation>)
    ensures TotalReady(us) == TotalReady(Retained(us, a)) + TotalReady(Displaced(us, a))
  {
    if us != [] {
      var n := |us| - 1;
      SplitReady(us[..n], a);
      TotalReadyConcat(Retained(us[..n], a), [us[n]]);
      TotalReadyConcat(Displaced(us[..n], a), [us[n]]);
      assert [us[n]][..0] == [];
    }
  }

  // Slices with a ready endpoint, all hinted, and yet no hint for any zone.
  ghost predicate HintedButUncounted(ss: seq<EndpointSlice>) {
    AllHinted(ss) && TotalReady(ss) > 0 && forall z :: TotalHints(ss, z) == 0
  }

  // There are no such slices.
  lemma {:induction false} EveryHintIsCounted(ss: seq<EndpointSlice>)
    ensures !HintedButUncounted(ss)
  {
    if ss != [] && AllHinted(ss) && TotalReady(ss) > 0 {
      var n := |ss| - 1;
      if NumReady(ss[n].endpoints) > 0 {
        assert FullyHinted(ss[n].endpoints);
        var z := SomeHint(ss[n].endpoints);
        assert TotalHints(ss, z) > 0;
      } else {
        EveryHintIsCounted(ss[..n]);
        var z :| TotalHints(ss[..n], z) != 0;
        assert TotalHints(ss, z) > 0;
      }
    }
  }

  lemma {:induction false} SomeHint(es: seq<Endpoint>) returns (z: Zone)
    requires FullyHinted(es) && NumReady(es) > 0
    ensures HintsIn(es, z) > 0
  {
    var n := |es| - 1;
    if Ready(es[n]) {
      var zones := es[n].hints.value;
      z := zones[|zones| - 1];
      assert CountZone(zones, z) > 0;
    } else {
      z := SomeHint(es[..n]);
    }
  }
}
