/**
 How many endpoints each zone should serve, in proportion to its share of the CPU, and when
 the minima that keep every zone within the overload threshold cannot all be met.
 */
module Allocation {
  import opened Sequences
  import opened Discovery
  import opened ZoneMaps

  const OVERLOAD_THRESHOLD: real := 0.2

  datatype Allocation = Allocation(minimum: int, maximum: int, desired: real)

  datatype Reason =
    | InsufficientNodeInfo
    | NodesReadyInOneZoneOnly
    | InsufficientNumberOfEndpoints
    | MinAllocationExceedsOverloadThreshold
    | NoZoneSpecified

  datatype AllocationResult = Allocated(zones: map<Zone, Allocation>) | Disabled(reason: Reason)

  function Ceil(x: real): int {
    -((-x).Floor)
  }

  function Max(x: real, y: real): real {
    if x < y then y else x
  }

  // The fewest endpoints that keep a zone with this share of the CPU within the overload threshold.
  function MinimumFor(ratio: real, numEndpoints: nat): int {
    Ceil(ratio * numEndpoints as real * (1.0 / (1.0 + OVERLOAD_THRESHOLD)))
  }

  function Minima(ratios: map<Zone, real>, numEndpoints: nat): Counts {
    map z | z in ratios :: MinimumFor(ratios[z], numEndpoints)
  }

  ghost predicate NonNegative(ratios: map<Zone, real>) {
    forall z :: z in ratios ==> ratios[z] >= 0.0
  }

  // A zone given k endpoints out of n is not overloaded when its load per endpoint is at most six fifths of the
  // average; the minimum is the least such k.
  lemma MinimumIsLeast(ratio: real, n: nat, k: int)
    ensures 5.0 * (ratio * n as real) <= 6.0 * k as real <==> k >= MinimumFor(ratio, n)
  {
    var load := ratio * n as real;
    var share := load * (1.0 / (1.0 + OVERLOAD_THRESHOLD));
    assert share * 1.2 == load;
    var m := Ceil(share);
    assert m as real >= share > m as real - 1.0;
  }

  lemma MinimaNonNegative(ratios: map<Zone, real>, n: nat)
    requires NonNegative(ratios)
    ensures forall z :: z in ratios ==> Minima(ratios, n)[z] >= 0
  {
    forall z | z in ratios ensures MinimumFor(ratios[z], n) >= 0 {
      var load := ratios[z] * n as real;
      assert load >= 0.0;
    }
  }

  // The allocation of one zone when `total` is the sum of all minima.
  ghost predicate Fair(a: Allocation, ratio: real, n: nat, total: int) {
    && a.minimum == MinimumFor(ratio, n)
    && a.desired == Max(ratio * n as real, a.minimum as real)
    && a.maximum + (total - a.minimum) == n
  }

  // The allocation of one zone before the maxima are known.
  function Partial(ratio: real, n: nat): Allocation {
    Allocation(MinimumFor(ratio, n), 0, Max(ratio * n as real, MinimumFor(ratio, n) as real))
  }

  // Sets minimum and desired share of every zone, or finds that the minima do not fit.
  method AllocateMinima(ratios: map<Zone, real>, numEndpoints: nat)
    returns (fits: bool, allocations: map<Zone, Allocation>, minTotal: int)
    requires NonNegative(ratios)
    ensures fits <==> Sum(Minima(ratios, numEndpoints)) <= numEndpoints
    ensures fits ==> minTotal == Sum(Minima(ratios, numEndpoints)) && allocations.Keys == ratios.Keys
    ensures fits ==> forall z :: z in allocations ==> allocations[z] == Partial(ratios[z], numEndpoints)
  {
    ghost var minima := Minima(ratios, numEndpoints);
    MinimaNonNegative(ratios, numEndpoints);
    var remainingMinEndpoints: int := numEndpoints;
    var rest := ratios.Keys;
    fits, allocations, minTotal := true, map[], 0;
    while rest != {}
      invariant rest <= ratios.Keys && allocations.Keys == ratios.Keys - rest
      invariant forall z :: z in allocations ==> allocations[z] == Partial(ratios[z], numEndpoints)
      invariant minTotal == Sum(minima - rest) && 0 <= remainingMinEndpoints == numEndpoints - minTotal
      decreases rest
    {
      var zone :| zone in rest;
      SumPart(minima, rest, zone);
      var allocation := Partial(ratios[zone], numEndpoints);
      allocations := allocations[zone := allocation];
      minTotal := minTotal + allocation.minimum;
      remainingMinEndpoints := remainingMinEndpoints - allocation.minimum;
      rest := rest - {zone};
      if remainingMinEndpoints < 0 {
        SumAtMost(minima, rest);
        fits := false;
        return;
      }
    }
    assert minima - rest == minima;
  }

  method AddMaxima(allocations: map<Zone, Allocation>, spare: int) returns (zones: map<Zone, Allocation>)
    ensures zones.Keys == allocations.Keys
    ensures forall z :: z in zones ==> zones[z] == allocations[z].(maximum := allocations[z].minimum + spare)
  {
    zones := allocations;
    var rest := zones.Keys;
    while rest != {}
      invariant rest <= zones.Keys && zones.Keys == allocations.Keys
      invariant forall z :: z in zones ==>
        zones[z] == if z in rest then allocations[z] else allocations[z].(maximum := allocations[z].minimum + spare)
      decreases rest
    {
      var zone :| zone in rest;
      zones := zones[zone := zones[zone].(maximum := zones[zone].minimum + spare)];
      rest := rest - {zone};
    }
  }

  // Which of the outcomes applies, in the order the checks are made.
  ghost predicate Diagnosed(cpuRatios: Option<map<Zone, real>>, n: nat, r: AllocationResult) {
    if cpuRatios.None? then r == Disabled(InsufficientNodeInfo)
    else if |cpuRatios.value| < 2 then r == Disabled(NodesReadyInOneZoneOnly)
    else if |cpuRatios.value| > n then r == Disabled(InsufficientNumberOfEndpoints)
    else if Sum(Minima(cpuRatios.value, n)) > n then r == Disabled(MinAllocationExceedsOverloadThreshold)
    else
      && r.Allocated? && r.zones.Keys == cpuRatios.value.Keys
      && forall z :: z in r.zones ==> Fair(r.zones[z], cpuRatios.value[z], n, Sum(Minima(cpuRatios.value, n)))
  }

  // The allocations are possible: enough zones, enough endpoints, and the minima fit.
  ghost predicate Feasible(cpuRatios: Option<map<Zone, real>>, n: nat) {
    cpuRatios.Some? && 2 <= |cpuRatios.value| <= n && Sum(Minima(cpuRatios.value, n)) <= n
  }

  // The allocations, whatever order the zones are visited in.
  ghost function AllocationsFor(ratios: map<Zone, real>, n: nat): map<Zone, Allocation> {
    map z | z in ratios :: Partial(ratios[z], n).(maximum := MinimumFor(ratios[z], n) + n - Sum(Minima(ratios, n)))
  }

  // The minimum keeps the zone from overload and one endpoint less does not; the share is the zone's part of all endpoints
  // but not below the minimum.
  lemma ShareExactly(ratio: real, n: nat)
    ensures var a, load := Partial(ratio, n), ratio * n as real;
      && 6.0 * (a.minimum - 1) as real < 5.0 * load <= 6.0 * a.minimum as real
      && a.desired >= load && a.desired >= a.minimum as real && (a.desired == load || a.desired == a.minimum as real)
  {
    var m := MinimumFor(ratio, n);
    MinimumIsLeast(ratio, n, m);
    MinimumIsLeast(ratio, n, m - 1);
  }

  // The maximum leaves the other zones their minima.
  lemma MaximumExactly(ratios: map<Zone, real>, n: nat, z: Zone)
    requires z in ratios
    ensures AllocationsFor(ratios, n)[z].maximum + Sum(Minima(ratios - {z}, n)) == n
    ensures AllocationsFor(ratios, n)[z] == Partial(ratios[z], n).(maximum := AllocationsFor(ratios, n)[z].maximum)
  {
    SumRemove(Minima(ratios, n), z);
    assert Minima(ratios, n) - {z} == Minima(ratios - {z}, n);
  }

  lemma DiagnosedZones(cpuRatios: Option<map<Zone, real>>, n: nat, r: AllocationResult)
    requires Diagnosed(cpuRatios, n, r)
    ensures r.Allocated? <==> Feasible(cpuRatios, n)
    ensures r.Allocated? ==> r.zones == AllocationsFor(cpuRatios.value, n)
    ensures r.Disabled? ==> r.reason != NoZoneSpecified
  {
    if r.Allocated? {
      forall z | z in r.zones ensures r.zones[z] == AllocationsFor(cpuRatios.value, n)[z] {
        assert Fair(r.zones[z], cpuRatios.value[z], n, Sum(Minima(cpuRatios.value, n)));
      }
    }
  }

  method GetAllocations(cpuRatios: Option<map<Zone, real>>, numEndpoints: nat) returns (r: AllocationResult)
    requires cpuRatios.Some? ==> NonNegative(cpuRatios.value)
    ensures Diagnosed(cpuRatios, numEndpoints, r)
  {
    if cpuRatios.None? {
      return Disabled(InsufficientNodeInfo);
    }
    if |cpuRatios.value| < 2 {
      return Disabled(NodesReadyInOneZoneOnly);
    }
    if |cpuRatios.value| > numEndpoints {
      return Disabled(InsufficientNumberOfEndpoints);
    }
    var fits, allocations, minTotal := AllocateMinima(cpuRatios.value, numEndpoints);
    if !fits {
      return Disabled(MinAllocationExceedsOverloadThreshold);
    }
    var zones := AddMaxima(allocations, numEndpoints - minTotal);
    r := Allocated(zones);
  }

  lemma SumPart(m: Counts, rest: set<Zone>, z: Zone)
    requires z in rest && z in m
    ensures Sum(m - (rest - {z})) == Sum(m - rest) + m[z]
  {
    SumRemove(m - (rest - {z}), z);
    MinusPart(m, rest, z);
  }

  lemma {:induction false} SumAtMost(m: Counts, rest: set<Zone>)
    requires forall z :: z in m ==> m[z] >= 0
    ensures Sum(m - rest) <= Sum(m)
    decreases rest
  {
    if rest == {} {
      assert m - rest == m;
    } else {
      var z :| z in rest;
      SumAtMost(m, rest - {z});
      if z in m {
        SumPart(m, rest, z);
      } else {
        MinusPart(m, rest, z);
      }
    }
  }
}
