/**
 The greedy plan that rounds fractional surpluses and deficits to whole endpoints: which zones
 give endpoints away, which receive them, and how many.
 */
module Redistribution {
  import opened Discovery
  import opened ZoneMaps
  import opened Allocation

  type Shares = map<Zone, real>

  function Surplus(a: map<Zone, Allocation>, hints: Counts): Shares {
    map z | z in a && Get(hints, z) as real > a[z].desired :: Get(hints, z) as real - a[z].desired
  }

  function Deficit(a: map<Zone, Allocation>, hints: Counts): Shares {
    map z | z in a && (Get(hints, z) as real) < a[z].desired :: a[z].desired - Get(hints, z) as real
  }

  // What is left of a zone's share after `taken` whole endpoints.
  function LeftAt(shares: Shares, taken: Counts, z: Zone): real
    requires z in shares
  {
    shares[z] - Get(taken, z) as real
  }

  // `left` is what remains of the shares.
  ghost predicate Remains(left: Shares, shares: Shares, taken: Counts) {
    left.Keys == shares.Keys && forall z :: z in shares ==> left[z] == LeftAt(shares, taken, z)
  }

  method GetMost(zones: Shares) returns (zone: Zone, num: real)
    requires NoZone !in zones
    ensures zone == NoZone ==> num == 0.0 && forall z :: z in zones ==> zones[z] <= 0.0
    ensures zone != NoZone ==> zone in zones && num == zones[zone] > 0.0
    ensures forall z :: z in zones ==> zones[z] <= num
  {
    zone, num := NoZone, 0.0;
    var rest := zones.Keys;
    while rest != {}
      invariant rest <= zones.Keys && num >= 0.0
      invariant zone == NoZone ==> num == 0.0
      invariant zone != NoZone ==> zone in zones && num == zones[zone] > 0.0
      invariant forall z :: z in zones && z !in rest ==> zones[z] <= num
      decreases rest
    {
      var z :| z in rest;
      if zones[z] > num {
        zone, num := z, zones[z];
      }
      rest := rest - {z};
    }
  }

  method SplitZones(a: map<Zone, Allocation>, hints: Counts) returns (giving: Shares, receiving: Shares)
    ensures giving == Surplus(a, hints) && receiving == Deficit(a, hints)
  {
    giving, receiving := map[], map[];
    var rest := a.Keys;
    while rest != {}
      invariant rest <= a.Keys
      invariant forall z :: z in giving <==> z in Surplus(a, hints) && z !in rest
      invariant forall z :: z in giving ==> giving[z] == Surplus(a, hints)[z]
      invariant forall z :: z in receiving <==> z in Deficit(a, hints) && z !in rest
      invariant forall z :: z in receiving ==> receiving[z] == Deficit(a, hints)[z]
      decreases rest
    {
      var zone :| zone in rest;
      rest := rest - {zone};
      var held := Get(hints, zone) as real;
      if held > a[zone].desired {
        giving := giving[zone := held - a[zone].desired];
      } else if held < a[zone].desired {
        receiving := receiving[zone := a[zone].desired - held];
      }
    }
  }

  // `taken` was drawn from the shares one whole endpoint at a time, always from a largest one, and
  // only while at least half an endpoint was left there.
  ghost predicate Drawn(shares: Shares, taken: Counts) {
    && taken.Keys <= shares.Keys
    && (forall z :: z in taken ==> taken[z] > 0 && LeftAt(shares, taken, z) >= -0.5)
    && (forall y, z :: y in shares && z in taken ==> LeftAt(shares, taken, y) <= LeftAt(shares, taken, z) + 1.0)
  }

  lemma DrawOne(shares: Shares, taken: Counts, zone: Zone)
    requires Drawn(shares, taken) && zone in shares
    requires LeftAt(shares, taken, zone) >= 0.5
    requires forall y :: y in shares ==> LeftAt(shares, taken, y) <= LeftAt(shares, taken, zone)
    ensures Drawn(shares, Bump(taken, zone, 1))
  {
    var more := Bump(taken, zone, 1);
    LeftAfter(shares, taken, zone);
    forall y, z | y in shares && z in more
      ensures LeftAt(shares, more, y) <= LeftAt(shares, more, z) + 1.0
    {
      if z != zone {
        assert LeftAt(shares, taken, y) <= LeftAt(shares, taken, z) + 1.0;
      }
    }
  }

  lemma LeftAfter(shares: Shares, taken: Counts, zone: Zone)
    requires zone in shares
    ensures LeftAt(shares, Bump(taken, zone, 1), zone) == LeftAt(shares, taken, zone) - 1.0
    ensures forall y :: y in shares && y != zone ==> LeftAt(shares, Bump(taken, zone, 1), y) == LeftAt(shares, taken, y)
  {
  }

  lemma RemainsAfter(left: Shares, shares: Shares, taken: Counts, zone: Zone)
    requires Remains(left, shares, taken) && zone in shares
    ensures Remains(left[zone := left[zone] - 1.0], shares, Bump(taken, zone, 1))
  {
    LeftAfter(shares, taken, zone);
  }

  // How many endpoints can still be drawn.
  function Rounded(shares: Shares): Counts {
    map z | z in shares :: (shares[z] + 0.5).Floor
  }

  lemma RoundedShrinks(shares: Shares, zone: Zone)
    requires zone in shares
    ensures Sum(Rounded(shares[zone := shares[zone] - 1.0])) == Sum(Rounded(shares)) - 1
  {
    SumBump(Rounded(shares), zone, -1);
    assert (shares[zone] - 1.0 + 0.5).Floor == (shares[zone] + 0.5).Floor - 1;
    assert Rounded(shares[zone := shares[zone] - 1.0]) == Bump(Rounded(shares), zone, -1);
  }

  lemma RoundedNonNegative(left: Shares, shares: Shares, taken: Counts)
    requires Drawn(shares, taken) && Remains(left, shares, taken)
    requires forall z :: z in shares ==> shares[z] > 0.0
    ensures Sum(Rounded(left)) >= 0
  {
    forall z | z in left ensures Rounded(left)[z] >= 0 {
      assert z !in taken ==> left[z] == shares[z];
    }
    SumNonNegative(Rounded(left));
  }

  // No endpoint can be moved any more: between any giver and any receiver, one side has less than
  // half an endpoint left or both have less than one.
  ghost predicate Exhausted(surplus: Shares, giving: Counts, deficit: Shares, receiving: Counts) {
    forall y, z :: y in surplus && z in deficit ==>
      var a, b := LeftAt(surplus, giving, y), LeftAt(deficit, receiving, z);
      a < 0.5 || b < 0.5 || (a < 1.0 && b < 1.0)
  }

  // What the plan promises for the given allocations and hints.
  ghost predicate Planned(a: map<Zone, Allocation>, hints: Counts, giving: Counts, receiving: Counts) {
    && Drawn(Surplus(a, hints), giving) && Drawn(Deficit(a, hints), receiving)
    && Sum(giving) == Sum(receiving)
    && Exhausted(Surplus(a, hints), giving, Deficit(a, hints), receiving)
  }

  method GetGivingAndReceivingZones(a: map<Zone, Allocation>, hints: Counts) returns (giving: Counts, receiving: Counts)
    requires NoZone !in a
    ensures Planned(a, hints, giving, receiving)
  {
    var surplus, deficit := SplitZones(a, hints);
    giving, receiving := RoundShares(surplus, deficit);
  }

  // The state of the greedy loop.
  ghost predicate Rounding(surplus: Shares, giving: Counts, toGive: Shares, deficit: Shares, receiving: Counts, toReceive: Shares) {
    && Drawn(surplus, giving) && Remains(toGive, surplus, giving)
    && Drawn(deficit, receiving) && Remains(toReceive, deficit, receiving)
    && Sum(giving) == Sum(receiving)
  }

  predicate Largest(shares: Shares, zone: Zone) {
    zone in shares && forall z :: z in shares ==> shares[z] <= shares[zone]
  }

  lemma RoundOnce(surplus: Shares, giving: Counts, toGive: Shares, deficit: Shares, receiving: Counts, toReceive: Shares,
                  giver: Zone, receiver: Zone)
    requires Rounding(surplus, giving, toGive, deficit, receiving, toReceive)
    requires Largest(toGive, giver) && toGive[giver] >= 0.5 && Largest(toReceive, receiver) && toReceive[receiver] >= 0.5
    ensures Rounding(surplus, Bump(giving, giver, 1), toGive[giver := toGive[giver] - 1.0],
                     deficit, Bump(receiving, receiver, 1), toReceive[receiver := toReceive[receiver] - 1.0])
  {
    DrawOne(surplus, giving, giver);
    DrawOne(deficit, receiving, receiver);
    RemainsAfter(toGive, surplus, giving, giver);
    RemainsAfter(toReceive, deficit, receiving, receiver);
    SumBump(giving, giver, 1);
    SumBump(receiving, receiver, 1);
  }

  lemma StoppedIsExhausted(surplus: Shares, giving: Counts, toGive: Shares, deficit: Shares, receiving: Counts, toReceive: Shares,
                           mostToGive: real, mostToReceive: real)
    requires Remains(toGive, surplus, giving) && Remains(toReceive, deficit, receiving)
    requires forall z :: z in toGive ==> toGive[z] <= mostToGive
    requires forall z :: z in toReceive ==> toReceive[z] <= mostToReceive
    requires mostToGive < 0.5 || mostToReceive < 0.5 || (mostToGive < 1.0 && mostToReceive < 1.0)
    ensures Exhausted(surplus, giving, deficit, receiving)
  {
  }

  // One endpoint at a time, from the zone with the most to give to the zone with the most to receive.
  method RoundShares(surplus: Shares, deficit: Shares) returns (giving: Counts, receiving: Counts)
    requires NoZone !in surplus && NoZone !in deficit
    requires forall z :: z in surplus ==> surplus[z] > 0.0
    ensures Drawn(surplus, giving) && Drawn(deficit, receiving)
    ensures Sum(giving) == Sum(receiving)
    ensures Exhausted(surplus, giving, deficit, receiving)
  {
    var givingDesired, receivingDesired := surplus, deficit;
    giving, receiving := map[], map[];
    while true
      invariant Rounding(surplus, giving, givingDesired, deficit, receiving, receivingDesired)
      decreases Sum(Rounded(givingDesired))
    {
      var givingZone, numToGive := GetMost(givingDesired);
      var receivingZone, numToReceive := GetMost(receivingDesired);
      if givingZone == NoZone || receivingZone == NoZone || (numToGive < 1.0 && numToReceive < 1.0) ||
         numToGive < 0.5 || numToReceive < 0.5 {
        StoppedIsExhausted(surplus, giving, givingDesired, deficit, receiving, receivingDesired, numToGive, numToReceive);
        break;
      }
      RoundOnce(surplus, giving, givingDesired, deficit, receiving, receivingDesired, givingZone, receivingZone);
      RoundedNonNegative(givingDesired, surplus, giving);
      RoundedShrinks(givingDesired, givingZone);
      giving := Bump(giving, givingZone, 1);
      givingDesired := givingDesired[givingZone := givingDesired[givingZone] - 1.0];
      receiving := Bump(receiving, receivingZone, 1);
      receivingDesired := receivingDesired[receivingZone := receivingDesired[receivingZone] - 1.0];
    }
  }

  /* What the plan means for the zones */

  // A zone never plans both to give and to receive.
  lemma PlanIsOneWay(a: map<Zone, Allocation>, hints: Counts, giving: Counts, receiving: Counts)
    requires Planned(a, hints, giving, receiving)
    ensures giving.Keys !! receiving.Keys
  {
  }

  // A donor that gives no more than planned keeps at least its minimum.
  lemma DonorKeepsMinimum(a: map<Zone, Allocation>, hints: Counts, giving: Counts, receiving: Counts, z: Zone, given: int)
    requires Planned(a, hints, giving, receiving)
    requires z in giving && z in a && a[z].desired >= a[z].minimum as real
    requires 0 <= given <= giving[z]
    ensures Get(hints, z) - given >= a[z].minimum
  {
    assert LeftAt(Surplus(a, hints), giving, z) >= -0.5;
  }

  // A receiver that receives no more than planned ends at most half an endpoint above its share.
  lemma ReceiverStaysBelow(a: map<Zone, Allocation>, hints: Counts, giving: Counts, receiving: Counts, z: Zone, received: int)
    requires Planned(a, hints, giving, receiving)
    requires z in receiving && z in a
    requires 0 <= received <= receiving[z]
    ensures (Get(hints, z) + received) as real <= a[z].desired + 0.5
  {
    assert LeftAt(Deficit(a, hints), receiving, z) >= -0.5;
  }
}
