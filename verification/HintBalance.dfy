/**
 When hints end within the allocations: every zone at least at its minimum and at most at its maximum.
 */
module HintBalance {
  import opened Discovery
  import opened ZoneMaps
  import opened Allocation
  import opened Redistribution
  import opened Hints
  import opened HintMoves
  import opened TopologyCache

  ghost predicate MinimaMet(zones: map<Zone, Allocation>, counts: Counts) {
    forall z :: z in zones ==> Get(counts, z) >= zones[z].minimum
  }

  ghost predicate Within(zones: map<Zone, Allocation>, counts: Counts) {
    forall z :: z in zones ==> zones[z].minimum <= Get(counts, z) <= zones[z].maximum
  }

  /* Sums over zones */

  ghost function Over(zs: set<Zone>, f: Zone -> int): Counts {
    map z | z in zs :: f(z)
  }

  lemma OverMinus(zs: set<Zone>, f: Zone -> int, z: Zone)
    ensures Over(zs, f) - {z} == Over(zs - {z}, f)
  {
  }

  lemma {:induction false} SumOfSums(zs: set<Zone>, f: Zone -> int, g: Zone -> int, h: Zone -> int)
    requires forall z :: z in zs ==> h(z) == f(z) + g(z)
    ensures Sum(Over(zs, h)) == Sum(Over(zs, f)) + Sum(Over(zs, g))
  {
    if z :| z in zs {
      SumOfSums(zs - {z}, f, g, h);
      SumStep(zs, f, z);
      SumStep(zs, g, z);
      SumStep(zs, h, z);
    }
  }

  lemma SumStep(zs: set<Zone>, f: Zone -> int, z: Zone)
    requires z in zs
    ensures Sum(Over(zs, f)) == f(z) + Sum(Over(zs - {z}, f))
  {
    SumRemove(Over(zs, f), z);
    OverMinus(zs, f, z);
  }

  lemma {:induction false} SumMonotone(zs: set<Zone>, f: Zone -> int, g: Zone -> int)
    requires forall z :: z in zs ==> f(z) <= g(z)
    ensures Sum(Over(zs, f)) <= Sum(Over(zs, g))
  {
    if z :| z in zs {
      SumMonotone(zs - {z}, f, g);
      SumStep(zs, f, z);
      SumStep(zs, g, z);
    }
  }

  // At most one zone counts one.
  lemma {:induction false} SumSingle(zs: set<Zone>, f: Zone -> int, y: Zone)
    requires forall z :: z in zs ==> f(z) <= if z == y then 1 else 0
    ensures Sum(Over(zs, f)) <= 1
    ensures y !in zs ==> Sum(Over(zs, f)) <= 0
  {
    if z :| z in zs {
      SumSingle(zs - {z}, f, y);
      SumStep(zs, f, z);
      if y in zs {
        SumStep(zs, f, y);
        SumSingle(zs - {y}, f, y);
      }
    }
  }

  lemma {:induction false} SumExtended(zs: set<Zone>, m: Counts, f: Zone -> int)
    requires m.Keys <= zs && forall z :: f(z) == Get(m, z)
    ensures Sum(Over(zs, f)) == Sum(m)
    decreases zs
  {
    if z :| z in zs {
      SumStep(zs, f, z);
      if z in m {
        SumRemove(m, z);
        var f' := y => Get(m - {z}, y);
        SumExtended(zs - {z}, m - {z}, f');
        assert Over(zs - {z}, f') == Over(zs - {z}, f);
      } else {
        SumExtended(zs - {z}, m, f);
      }
    } else {
      assert m == map[];
    }
  }

  /* Every ready endpoint is in one zone, and has one hint */

  // Every ready endpoint has at most one hint, as all slices written here have.
  predicate SingleHinted(es: seq<Endpoint>) {
    forall i :: 0 <= i < |es| && Ready(es[i]) && es[i].hints.Some? ==> |es[i].hints.value| <= 1
  }

  predicate AllSingleHinted(ss: seq<EndpointSlice>) {
    forall i :: 0 <= i < |ss| ==> SingleHinted(ss[i].endpoints)
  }

  lemma EndpointCountsOnce(e: Endpoint, zs: set<Zone>, f: Zone -> int, g: Zone -> int)
    requires forall z :: f(z) == if Ready(e) && e.zone == Some(z) then 1 else 0
    requires forall z :: g(z) == EndpointHints(e, z)
    ensures Sum(Over(zs, f)) <= NumReady([e])
    ensures SingleHinted([e]) ==> Sum(Over(zs, g)) <= NumReady([e])
  {
    assert [e][..0] == [];
    SumSingle(zs, f, if e.zone.Some? then e.zone.value else NoZone);
    if SingleHinted([e]) {
      assert [e][0] == e;
      var hint := if e.hints.Some? && e.hints.value != [] then e.hints.value[0] else NoZone;
      forall z ensures g(z) <= if z == hint then 1 else 0 {
        if Ready(e) && e.hints.Some? && |e.hints.value| == 1 {
          SingleHintCount(e, z);
        }
      }
      SumSingle(zs, g, hint);
    }
    if !Ready(e) {
      SumMonotone(zs, f, z => 0);
      SumMonotone(zs, g, z => 0);
      SumZero(zs, z => 0);
    }
  }

  lemma {:induction false} SumZero(zs: set<Zone>, f: Zone -> int)
    requires forall z :: z in zs ==> f(z) == 0
    ensures Sum(Over(zs, f)) == 0
  {
    if z :| z in zs {
      SumZero(zs - {z}, f);
      SumStep(zs, f, z);
    }
  }

  lemma {:induction false} EndpointsCountOnce(es: seq<Endpoint>, zs: set<Zone>, f: Zone -> int, g: Zone -> int)
    requires forall z :: f(z) == ReadyIn(es, z) && g(z) == HintsIn(es, z)
    ensures Sum(Over(zs, f)) <= NumReady(es)
    ensures SingleHinted(es) ==> Sum(Over(zs, g)) <= NumReady(es)
  {
    if es == [] {
      SumZero(zs, f);
      SumZero(zs, g);
    } else {
      var front, e := es[..|es| - 1], es[|es| - 1];
      var f', g' := (z: Zone) => ReadyIn(front, z) as int, (z: Zone) => HintsIn(front, z) as int;
      EndpointsCountOnce(front, zs, f', g');
      var f1, g1 := (z: Zone) => if Ready(e) && e.zone == Some(z) then 1 else 0, (z: Zone) => EndpointHints(e, z) as int;
      EndpointCountsOnce(e, zs, f1, g1);
      SumOfSums(zs, f', f1, f);
      SumOfSums(zs, g', g1, g);
      assert [e][..0] == [];
    }
  }

  lemma {:induction false} SlicesCountOnce(ss: seq<EndpointSlice>, zs: set<Zone>, f: Zone -> int, g: Zone -> int)
    requires forall z :: f(z) == TotalReadyIn(ss, z) && g(z) == TotalHints(ss, z)
    ensures Sum(Over(zs, f)) <= TotalReady(ss)
    ensures AllSingleHinted(ss) ==> Sum(Over(zs, g)) <= TotalReady(ss)
  {
    if ss == [] {
      SumZero(zs, f);
      SumZero(zs, g);
    } else {
      var front, es := ss[..|ss| - 1], ss[|ss| - 1].endpoints;
      var f', g' := (z: Zone) => TotalReadyIn(front, z) as int, (z: Zone) => TotalHints(front, z) as int;
      SlicesCountOnce(front, zs, f', g');
      var f1, g1 := (z: Zone) => ReadyIn(es, z) as int, (z: Zone) => HintsIn(es, z) as int;
      EndpointsCountOnce(es, zs, f1, g1);
      SumOfSums(zs, f', f1, f);
      SumOfSums(zs, g', g1, g);
    }
  }

  /* Within the allocations */

  lemma SumDone(zs: set<Zone>, plan: Counts, rest: Counts, f: Zone -> int)
    requires plan.Keys <= zs && Positive(rest) && forall z :: Done(plan, rest, z) >= 0 && f(z) == Done(plan, rest, z)
    ensures Sum(Over(zs, f)) == Sum(plan) - Sum(rest)
  {
    RestIsPart(plan, rest);
    var all, left := (z: Zone) => Get(plan, z), (z: Zone) => Get(rest, z);
    SumExtended(zs, plan, all);
    SumExtended(zs, rest, left);
    SumOfSums(zs, f, left, all);
  }

  // Moves change no sum over all zones.
  lemma ChangesCancel(zs: set<Zone>, x: Shift, c: Zone -> int)
    requires Ledger(x.giving, x.rest.giving, x.receiving, x.rest.receiving, x.rest.changes)
    requires x.giving.Keys + x.receiving.Keys <= zs
    requires forall z :: c(z) == Get(x.rest.changes, z)
    ensures Sum(Over(zs, c)) == 0
  {
    var given, received := (z: Zone) => Done(x.giving, x.rest.giving, z), (z: Zone) => Done(x.receiving, x.rest.receiving, z);
    SumDone(zs, x.giving, x.rest.giving, given);
    SumDone(zs, x.receiving, x.rest.receiving, received);
    SumOfSums(zs, given, c, received);
  }

  lemma RestIsPart(plan: Counts, rest: Counts)
    requires Positive(rest) && forall z :: Done(plan, rest, z) >= 0
    ensures rest.Keys <= plan.Keys
  {
    forall z | z in rest ensures z in plan {
      assert Done(plan, rest, z) >= 0;
    }
  }

  // The zones with allocations have no more hints than there are ready endpoints.
  lemma HintsAtMostReady(written: seq<EndpointSlice>, same: seq<EndpointSlice>, counts: Counts, zones: map<Zone, Allocation>,
                         x: Shift, c: Zone -> int)
    requires Shifted(written, same, counts, zones, x) && AllSingleHinted(same) && forall z :: c(z) == Get(counts, z)
    ensures Sum(Over(zones.Keys, c)) <= TotalReady(written) + TotalReady(same)
  {
    var natural := NaturalCounts(written, same, zones);
    PlanShape(zones, natural, x.giving, x.receiving);
    var changes := (z: Zone) => Get(x.rest.changes, z);
    ChangesCancel(zones.Keys, x, changes);
    var fw, gw := (z: Zone) => TotalReadyIn(written, z) as int, (z: Zone) => TotalHints(written, z) as int;
    var fs, gs := (z: Zone) => TotalReadyIn(same, z) as int, (z: Zone) => TotalHints(same, z) as int;
    SlicesCountOnce(written, zones.Keys, fw, gw);
    SlicesCountOnce(same, zones.Keys, fs, gs);
    var n := (z: Zone) => NaturalHints(written, same, z) as int;
    SumOfSums(zones.Keys, fw, gs, n);
    SumOfSums(zones.Keys, n, changes, c);
  }

  // If every zone has its minimum, none has more than its maximum.
  lemma MinimaSuffice(ratios: map<Zone, real>, n: nat, counts: Counts, c: Zone -> int)
    requires MinimaMet(AllocationsFor(ratios, n), counts) && forall z :: c(z) == Get(counts, z)
    requires Sum(Over(ratios.Keys, c)) <= n
    ensures Within(AllocationsFor(ratios, n), counts)
  {
    var zones := AllocationsFor(ratios, n);
    var low := (z: Zone) => if z in ratios then MinimumFor(ratios[z], n) else 0;
    assert Minima(ratios, n) == Over(ratios.Keys, low);
    forall z | z in zones ensures Get(counts, z) <= zones[z].maximum {
      SumStep(ratios.Keys, c, z);
      SumStep(ratios.Keys, low, z);
      SumMonotone(ratios.Keys - {z}, low, c);
    }
  }

  // What a zone has by nature and receives reaches its minimum, as the moves were made or as they were planned.
  ghost predicate MadeUp(written: seq<EndpointSlice>, same: seq<EndpointSlice>, zones: map<Zone, Allocation>, x: Shift) {
    forall z :: z in zones ==> NaturalHints(written, same, z) + Done(x.receiving, x.rest.receiving, z) >= zones[z].minimum
  }

  ghost predicate PlanSuffices(written: seq<EndpointSlice>, same: seq<EndpointSlice>, zones: map<Zone, Allocation>, receiving: Counts) {
    forall z :: z in zones ==> NaturalHints(written, same, z) + Get(receiving, z) >= zones[z].minimum
  }

  // After redistribution every zone has its minimum exactly if the moves made up for what zones lack by nature; donors
  // never fall below theirs. If all planned endpoints can be moved, that is exactly if the plan is enough.
  lemma MinimaExactly(written: seq<EndpointSlice>, same: seq<EndpointSlice>, counts: Counts, zones: map<Zone, Allocation>, x: Shift)
    requires Shifted(written, same, counts, zones, x)
    requires forall z :: z in zones ==> zones[z].desired >= zones[z].minimum as real
    ensures MinimaMet(zones, counts) <==> MadeUp(written, same, zones, x)
    ensures Movable(written, x.giving) ==> (MinimaMet(zones, counts) <==> PlanSuffices(written, same, zones, x.receiving))
  {
    forall z | z in zones
      ensures Get(counts, z) >= zones[z].minimum <==>
        NaturalHints(written, same, z) + Done(x.receiving, x.rest.receiving, z) >= zones[z].minimum
    {
      OnlyNeedyMatter(written, same, counts, zones, x, z);
    }
    CarriedOut(written, same, counts, zones, x);
  }

  lemma CarriedOut(written: seq<EndpointSlice>, same: seq<EndpointSlice>, counts: Counts, zones: map<Zone, Allocation>, x: Shift)
    requires Shifted(written, same, counts, zones, x)
    ensures Movable(written, x.giving) ==> (MadeUp(written, same, zones, x) <==> PlanSuffices(written, same, zones, x.receiving))
  {
    if Movable(written, x.giving) {
      forall z ensures Done(x.receiving, x.rest.receiving, z) == Get(x.receiving, z) {
        assert x.rest.receiving == map[];
      }
    }
  }

  // With its minimum in every zone, no zone has more than its maximum, if no endpoint has two hints.
  lemma BalancedExactly(written: seq<EndpointSlice>, same: seq<EndpointSlice>, counts: Counts, ratios: map<Zone, real>, n: nat, x: Shift)
    requires n == TotalReady(written) + TotalReady(same) && AllSingleHinted(same)
    requires Shifted(written, same, counts, AllocationsFor(ratios, n), x)
    ensures Within(AllocationsFor(ratios, n), counts) <==> MadeUp(written, same, AllocationsFor(ratios, n), x)
  {
    var zones := AllocationsFor(ratios, n);
    MinimaExactly(written, same, counts, zones, x);
    if MinimaMet(zones, counts) {
      var c := (z: Zone) => Get(counts, z);
      HintsAtMostReady(written, same, counts, zones, x, c);
      assert zones.Keys == ratios.Keys;
      MinimaSuffice(ratios, n, counts, c);
    }
  }

  lemma OnlyNeedyMatter(written: seq<EndpointSlice>, same: seq<EndpointSlice>, counts: Counts, zones: map<Zone, Allocation>,
                        x: Shift, z: Zone)
    requires Shifted(written, same, counts, zones, x) && z in zones && zones[z].desired >= zones[z].minimum as real
    ensures Get(counts, z) >= zones[z].minimum <==>
      NaturalHints(written, same, z) + Done(x.receiving, x.rest.receiving, z) >= zones[z].minimum
  {
    var natural := NaturalCounts(written, same, zones);
    PlanShape(zones, natural, x.giving, x.receiving);
    RestIsPart(x.receiving, x.rest.receiving);
    assert Get(x.rest.changes, z) == Done(x.receiving, x.rest.receiving, z) - Done(x.giving, x.rest.giving, z);
    if z in x.giving {
      DonorKeepsMinimum(zones, natural, x.giving, x.receiving, z, Done(x.giving, x.rest.giving, z));
    } else {
      RestIsPart(x.giving, x.rest.giving);
    }
  }

  /* Outside the allocations */

  // Two zones with shares 0.9 and 0.1 of the CPU, and 13 ready endpoints in the one, 1 in the other.
  const LOPSIDED: map<Zone, real> := map[EAST := 0.9, WEST := 0.1]

  const LOPSIDED_ZONES := map[EAST := Allocation(11, 12, 12.6), WEST := Allocation(2, 3, 2.0)]

  lemma LopsidedMinima()
    ensures MinimumFor(0.9, 14) == 11 && MinimumFor(0.1, 14) == 2
  {
    MinimumIsLeast(0.9, 14, 11);
    MinimumIsLeast(0.9, 14, 10);
    MinimumIsLeast(0.1, 14, 2);
    MinimumIsLeast(0.1, 14, 1);
  }

  lemma LopsidedAllocations()
    ensures Feasible(Some(LOPSIDED), 14) && AllocationsFor(LOPSIDED, 14) == LOPSIDED_ZONES
  {
    LopsidedMinima();
    var m := Minima(LOPSIDED, 14);
    assert m[EAST] == 11 && m[WEST] == 2;
    SumRemove(m, EAST);
    SumRemove(m - {EAST}, WEST);
    assert (m - {EAST} - {WEST}).Keys == {};
    assert |LOPSIDED| == 2 by {
      assert LOPSIDED.Keys == {EAST, WEST};
    }
  }

  // While no zone has half an endpoint to give, no hint is moved.
  lemma NothingToGive(written: seq<EndpointSlice>, same: seq<EndpointSlice>, counts: Counts, zones: map<Zone, Allocation>,
                      x: Shift, z: Zone)
    requires Shifted(written, same, counts, zones, x)
    requires forall y :: y in zones ==> NaturalHints(written, same, y) as real - zones[y].desired < 0.5
    ensures Get(counts, z) == NaturalHints(written, same, z)
  {
    var natural := NaturalCounts(written, same, zones);
    PlanShape(zones, natural, x.giving, x.receiving);
    NoGivers(zones, natural, x.giving, x.receiving);
    SameSums(x.giving, x.receiving);
    RestIsPart(x.giving, x.rest.giving);
    RestIsPart(x.receiving, x.rest.receiving);
    assert Get(x.rest.changes, z) == Done(x.receiving, x.rest.receiving, z) - Done(x.giving, x.rest.giving, z);
  }

  lemma NoGivers(zones: map<Zone, Allocation>, hints: Counts, giving: Counts, receiving: Counts)
    requires Planned(zones, hints, giving, receiving)
    requires forall y :: y in zones ==> Get(hints, y) as real - zones[y].desired < 0.5
    ensures giving == map[]
  {
    GiversHaveHalf(zones, hints, giving, receiving);
    assert giving.Keys == {};
  }

  lemma GiversHaveHalf(zones: map<Zone, Allocation>, hints: Counts, giving: Counts, receiving: Counts)
    requires Planned(zones, hints, giving, receiving)
    ensures forall z :: z in giving ==> z in zones && Get(hints, z) as real - zones[z].desired >= 0.5
  {
    forall z | z in giving ensures z in zones && Get(hints, z) as real - zones[z].desired >= 0.5 {
      assert giving[z] > 0 && LeftAt(Surplus(zones, hints), giving, z) >= -0.5;
    }
  }

  // The large zone has less than half an endpoint to give, so the small one stays below its minimum and the large one
  // above its maximum.
  lemma LopsidedStays(written: seq<EndpointSlice>, counts: Counts, x: Shift)
    requires TotalReadyIn(written, EAST) == 13 && TotalReadyIn(written, WEST) == 1
    requires Shifted(written, [], counts, LOPSIDED_ZONES, x)
    ensures Get(counts, EAST) == 13 > LOPSIDED_ZONES[EAST].maximum
    ensures Get(counts, WEST) == 1 < LOPSIDED_ZONES[WEST].minimum
  {
    NothingToGive(written, [], counts, LOPSIDED_ZONES, x, EAST);
    NothingToGive(written, [], counts, LOPSIDED_ZONES, x, WEST);
  }

  /* Slices whose hints can stay as they are */

  // Every ready endpoint has a hint, for zones with an allocation and within their maxima.
  ghost predicate HintsKept(us: seq<EndpointSlice>, zones: map<Zone, Allocation>) {
    AllHinted(us) && forall z :: TotalHints(us, z) > 0 ==> z in zones && TotalHints(us, z) <= zones[z].maximum
  }

  // No untouched slice has to be taken up exactly if their hints are within the allocations, in whatever order they
  // are looked at.
  lemma {:induction false} NoneDisplaced(us: seq<EndpointSlice>, zones: map<Zone, Allocation>)
    ensures Displaced(us, zones) == [] <==> HintsKept(us, zones)
    ensures Displaced(us, zones) == [] ==> Retained(us, zones) == us
  {
    if us != [] {
      var n := |us| - 1;
      var front, s := us[..n], us[n];
      assert us == front + [s];
      NoneDisplaced(front, zones);
      if Displaced(us, zones) == [] {
        assert Retained(us, zones) == us;
        AllKept(us, zones);
      }
      if HintsKept(us, zones) {
        PartKept(front, s, zones);
      }
    }
  }

  lemma AllKept(us: seq<EndpointSlice>, zones: map<Zone, Allocation>)
    requires Retained(us, zones) == us
    ensures HintsKept(us, zones)
  {
    RetainedHinted(us, zones);
    forall z | TotalHints(us, z) > 0 ensures z in zones && TotalHints(us, z) <= zones[z].maximum {
      RetainedWithinMaximum(us, zones, z);
    }
  }

  lemma PartKept(front: seq<EndpointSlice>, s: EndpointSlice, zones: map<Zone, Allocation>)
    requires HintsKept(front + [s], zones)
    ensures HintsKept(front, zones) && Fits(s.endpoints, front, zones)
  {
    var us := front + [s];
    assert forall i :: 0 <= i < |front| ==> us[i] == front[i];
    assert us[|front|] == s;
    forall z ensures TotalHints(us, z) == TotalHints(front, z) + HintsIn(s.endpoints, z) {
      TotalHintsSnoc(front, s, z);
    }
  }

  // The hints of the slices need no change: they are kept if there are allocations, and there are none otherwise.
  ghost predicate HintsStand(cpuRatios: Option<map<Zone, real>>, us: seq<EndpointSlice>) {
    if Feasible(cpuRatios, TotalReady(us)) then HintsKept(us, AllocationsFor(cpuRatios.value, TotalReady(us))) else NoneHinted(us)
  }

  // Adding hints to slices none of which is to be written takes one up exactly if their hints do not stand.
  lemma NothingTakenUp(cpuRatios: Option<map<Zone, real>>, us: seq<EndpointSlice>, us': seq<EndpointSlice>, moved: seq<EndpointSlice>)
    requires TakenUp(cpuRatios, [], [], us, moved) && Splits(us, us', moved)
    requires CanHint(cpuRatios, [], [], us) ==> moved == Displaced(us, AllocationsFor(cpuRatios.value, TotalReady(us)))
    requires !CanHint(cpuRatios, [], [], us) ==> NoneHinted(us')
    ensures moved == [] <==> HintsStand(cpuRatios, us)
  {
    if Feasible(cpuRatios, TotalReady(us)) {
      var zones := AllocationsFor(cpuRatios.value, TotalReady(us));
      NoneDisplaced(us, zones);
      assert [] + ([] + Displaced(us, zones)) == Displaced(us, zones);
    } else {
      NoHintsMoved(us, us', moved);
    }
  }

  lemma NoHintsMoved(us: seq<EndpointSlice>, us': seq<EndpointSlice>, moved: seq<EndpointSlice>)
    requires Splits(us, us', moved) && NoneHinted(us') && forall i :: 0 <= i < |moved| ==> !Unhinted(moved[i].endpoints)
    ensures moved == [] <==> NoneHinted(us)
  {
    if moved == [] {
      assert multiset(us) == multiset(us');
      forall i | 0 <= i < |us| ensures Unhinted(us[i].endpoints) {
        assert us[i] in multiset(us) && us[i] in multiset(us');
      }
    } else {
      assert moved[0] in multiset(us);
      var j :| 0 <= j < |us| && us[j] == moved[0];
    }
  }

  // The lopsided hints do not stand: their slices are written again on every pass.
  lemma LopsidedIsRewritten(us: seq<EndpointSlice>)
    requires TotalReady(us) == 14 && TotalHints(us, EAST) == 13
    ensures !HintsStand(Some(LOPSIDED), us)
  {
    LopsidedAllocations();
  }

  // Nor do missing hints while there are allocations. If hints cannot be given, because a ready endpoint does not say
  // which zone it is in, the slices without them are written again on every pass too.
  lemma UnhintedIsRewritten(cpuRatios: Option<map<Zone, real>>, us: seq<EndpointSlice>)
    requires Feasible(cpuRatios, TotalReady(us)) && NoneHinted(us)
    ensures !HintsStand(cpuRatios, us)
  {
    if AllHinted(us) {
      NothingReady(us);
    }
  }

  lemma {:induction false} NothingReady(us: seq<EndpointSlice>)
    requires AllHinted(us) && NoneHinted(us)
    ensures TotalReady(us) == 0
  {
    if us != [] {
      NothingReady(us[..|us| - 1]);
      NoReadyEndpoint(us[|us| - 1].endpoints);
    }
  }

  lemma {:induction false} NoReadyEndpoint(es: seq<Endpoint>)
    requires FullyHinted(es) && Unhinted(es)
    ensures NumReady(es) == 0
  {
    if es != [] {
      NoReadyEndpoint(es[..|es| - 1]);
      assert es[|es| - 1].hints.None?;
    }
  }
}
