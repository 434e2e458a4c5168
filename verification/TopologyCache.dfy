/**
 The topology cache: which services have hints, how many hints each zone has, and the operation
 that gives hints to the slices of a service or takes all of them away.
 */
module TopologyCache {
  import opened Discovery
  import opened ZoneMaps
  import opened Allocation
  import opened Redistribution
  import opened Hints
  import opened HintScan
  import opened HintMoves

  // The slices of one service and address type: to be created, to be updated, or untouched so far.
  class SliceInfo {
    const serviceKey: string
    const addressType: AddressType
    var toCreate: seq<EndpointSlice>
    var toUpdate: seq<EndpointSlice>
    var untouched: seq<EndpointSlice>

    constructor (serviceKey: string, addressType: AddressType, toCreate: seq<EndpointSlice>,
                 toUpdate: seq<EndpointSlice>, untouched: seq<EndpointSlice>)
      ensures this.serviceKey == serviceKey && this.addressType == addressType
      ensures this.toCreate == toCreate && this.toUpdate == toUpdate && this.untouched == untouched
    {
      this.serviceKey, this.addressType := serviceKey, addressType;
      this.toCreate, this.toUpdate, this.untouched := toCreate, toUpdate, untouched;
    }

    function Everything(): seq<EndpointSlice>
      reads this
    {
      toCreate + toUpdate + untouched
    }

    method GetTotalReadyEndpoints() returns (total: nat)
      ensures total == TotalReady(toCreate) + TotalReady(toUpdate) + TotalReady(untouched)
    {
      var created := SumReadyEndpoints(toCreate);
      var updated := SumReadyEndpoints(toUpdate);
      var same := SumReadyEndpoints(untouched);
      total := created + updated + same;
    }
  }

  // Takes every hint away; an untouched slice becomes an update only if it had one.
  method RemoveHintsFromSlices(si: SliceInfo) returns (ghost moved: seq<EndpointSlice>)
    modifies si
    ensures OnlyHintsChanged(old(si.toCreate), old(si.toUpdate), old(si.untouched), si.toCreate, si.toUpdate, si.untouched, moved)
    ensures NoneHinted(si.Everything())
    ensures forall i :: 0 <= i < |moved| ==> !Unhinted(moved[i].endpoints)
  {
    si.toCreate := StripAll(si.toCreate);
    var updated := StripAll(si.toUpdate);
    var same, hinted := SplitHinted(si.untouched);
    var stripped := StripAll(hinted);
    si.toUpdate, si.untouched, moved := updated + stripped, same, hinted;
  }

  /* Hinting the slices of one service */

  // What redistribution may do to a zone that held `before` hints: a donor keeps its minimum, a
  // receiver stays within half an endpoint of its share, and no other zone changes.
  ghost predicate ZoneBalanced(a: Allocation, before: int, after: int) {
    && (before as real > a.desired ==> a.minimum <= after <= before)
    && ((before as real) < a.desired ==> before <= after && after as real <= a.desired + 0.5)
    && (before as real == a.desired ==> after == before)
  }

  lemma PlanBalanced(zones: map<Zone, Allocation>, before: Counts, giving: Counts, receiving: Counts,
                     rest: Moves, z: Zone)
    requires Planned(zones, before, giving, receiving)
    requires Ledger(giving, rest.giving, receiving, rest.receiving, rest.changes)
    requires z in zones ==> zones[z].desired >= zones[z].minimum as real
    ensures z in zones ==> ZoneBalanced(zones[z], Get(before, z), Get(before, z) + Get(rest.changes, z))
    ensures z !in zones ==> Get(rest.changes, z) == 0
  {
    assert Get(rest.changes, z) == Done(receiving, rest.receiving, z) - Done(giving, rest.giving, z);
    PlanIsOneWay(zones, before, giving, receiving);
    if z in giving {
      DonorKeepsMinimum(zones, before, giving, receiving, z, Done(giving, rest.giving, z));
    } else if z in receiving {
      ReceiverStaysBelow(zones, before, giving, receiving, z, Done(receiving, rest.receiving, z));
    }
  }

  // How many hints zone z would have if every endpoint to be written were hinted for its own zone.
  function NaturalHints(written: seq<EndpointSlice>, same: seq<EndpointSlice>, z: Zone): nat {
    TotalReadyIn(written, z) + TotalHints(same, z)
  }

  ghost predicate Hinted(written: seq<EndpointSlice>, same: seq<EndpointSlice>, counts: Counts, zones: map<Zone, Allocation>) {
    && AllHinted(written) && AllHinted(same)
    && (forall z :: Get(counts, z) == TotalHints(written, z) + TotalHints(same, z))
    && (forall z :: z in zones ==> ZoneBalanced(zones[z], NaturalHints(written, same, z), Get(counts, z)))
    && (forall z :: z !in zones ==> Get(counts, z) == NaturalHints(written, same, z))
  }

  // A plan of moves and what was not carried out of it.
  datatype Shift = Shift(giving: Counts, receiving: Counts, rest: Moves)

  // The hints each zone with an allocation would have without any move.
  ghost function NaturalCounts(written: seq<EndpointSlice>, same: seq<EndpointSlice>, zones: map<Zone, Allocation>): Counts {
    map z | z in zones :: NaturalHints(written, same, z) as int
  }

  // Every endpoint planned to be given away is in a slice that is written.
  ghost predicate Movable(written: seq<EndpointSlice>, giving: Counts) {
    forall z :: z in giving ==> giving[z] <= TotalReadyIn(written, z)
  }

  // The counts are what the endpoints' own zones give and the moves of a greedy plan change, and the plan is carried
  // out to the end exactly if enough endpoints can be moved.
  ghost predicate Shifted(written: seq<EndpointSlice>, same: seq<EndpointSlice>, counts: Counts, zones: map<Zone, Allocation>, x: Shift) {
    && Planned(zones, NaturalCounts(written, same, zones), x.giving, x.receiving)
    && Ledger(x.giving, x.rest.giving, x.receiving, x.rest.receiving, x.rest.changes)
    && (forall z :: Get(counts, z) == NaturalHints(written, same, z) + Get(x.rest.changes, z))
    && (Movable(written, x.giving) <==> x.rest.giving == map[] == x.rest.receiving)
  }

  lemma SameSums(giving: Counts, receiving: Counts)
    requires Positive(giving) && Positive(receiving) && Sum(giving) == Sum(receiving)
    ensures giving == map[] <==> receiving == map[]
  {
    PositiveSum(giving);
    PositiveSum(receiving);
  }

  lemma PositiveSum(m: Counts)
    requires Positive(m)
    ensures Sum(m) == 0 <==> m == map[]
  {
    if z :| z in m {
      SumRemove(m, z);
      SumNonNegative(m - {z});
    }
    assert m.Keys == {} <==> m == map[];
  }

  // A giving zone gives no more than it has, so a plan carried out to the end was a possible one; and it stops early
  // only when a giving zone has no endpoint left.
  lemma CarriedIfMovable(ts: seq<EndpointSlice>, us: seq<EndpointSlice>, giving: Counts, receiving: Counts, rest: Moves)
    requires Positive(giving) && Positive(receiving) && giving.Keys !! receiving.Keys && Sum(giving) == Sum(receiving)
    requires forall z :: TotalHints(ts, z) == TotalReadyIn(ts, z) && TotalHints(us, z) == TotalHints(ts, z) + Get(rest.changes, z)
    requires Ledger(giving, rest.giving, receiving, rest.receiving, rest.changes)
    requires Finished(rest) || SlicesGaveAll(ts, Moves(giving, receiving, map[]), rest)
    ensures Movable(ts, giving) <==> rest.giving == map[] == rest.receiving
  {
    SameSums(rest.giving, rest.receiving);
    assert Finished(rest) ==> rest.giving == map[] == rest.receiving by {
      assert |rest.giving| == 0 ==> rest.giving == map[];
      assert |rest.receiving| == 0 ==> rest.receiving == map[];
    }
    if rest.giving == map[] {
      forall z | z in giving ensures giving[z] <= TotalReadyIn(ts, z) {
        assert Get(rest.changes, z) == Done(receiving, rest.receiving, z) - Done(giving, rest.giving, z);
        assert TotalHints(us, z) == TotalHints(ts, z) + Get(rest.changes, z);
      }
    }
    if Movable(ts, giving) && SlicesGaveAll(ts, Moves(giving, receiving, map[]), rest) {
      NothingLeftToGive(ts, giving, receiving, rest);
    }
  }

  lemma NothingLeftToGive(ts: seq<EndpointSlice>, giving: Counts, receiving: Counts, rest: Moves)
    requires Movable(ts, giving) && SlicesGaveAll(ts, Moves(giving, receiving, map[]), rest)
    requires Ledger(giving, rest.giving, receiving, rest.receiving, rest.changes)
    ensures rest.giving == map[]
  {
    forall z ensures z !in rest.giving {
      assert Done(giving, rest.giving, z) >= 0;
    }
  }

  // A plan looks at the hints of zones with an allocation only.
  lemma PlannedFor(zones: map<Zone, Allocation>, before: Counts, natural: Counts, giving: Counts, receiving: Counts)
    requires Planned(zones, before, giving, receiving) && forall z :: z in zones ==> Get(natural, z) == Get(before, z)
    ensures Planned(zones, natural, giving, receiving)
  {
    SameShares(zones, before, natural);
  }

  lemma SameShares(zones: map<Zone, Allocation>, before: Counts, natural: Counts)
    requires forall z :: z in zones ==> Get(natural, z) == Get(before, z)
    ensures Surplus(zones, before) == Surplus(zones, natural) && Deficit(zones, before) == Deficit(zones, natural)
  {
  }

  lemma PlanShape(zones: map<Zone, Allocation>, hints: Counts, giving: Counts, receiving: Counts)
    requires Planned(zones, hints, giving, receiving)
    ensures Positive(giving) && Positive(receiving) && giving.Keys !! receiving.Keys && giving.Keys + receiving.Keys <= zones.Keys
    ensures Sum(giving) == Sum(receiving)
  {
    PlanIsOneWay(zones, hints, giving, receiving);
  }

  // The moves made of a plan, and what they do to the counts.
  ghost predicate MovesMade(local: seq<EndpointSlice>, moved: seq<EndpointSlice>, same: seq<EndpointSlice>,
                            before: Counts, after: Counts, x: Shift) {
    && (forall z :: TotalHints(local, z) == TotalReadyIn(local, z) == TotalReadyIn(moved, z))
    && (forall z :: TotalHints(moved, z) == TotalHints(local, z) + Get(x.rest.changes, z))
    && (forall z :: Get(before, z) == NaturalHints(moved, same, z))
    && (forall z :: Get(after, z) == Get(before, z) + Get(x.rest.changes, z))
    && Ledger(x.giving, x.rest.giving, x.receiving, x.rest.receiving, x.rest.changes)
    && (Finished(x.rest) || SlicesGaveAll(local, Moves(x.giving, x.receiving, map[]), x.rest))
  }

  lemma MovedIsShifted(local: seq<EndpointSlice>, moved: seq<EndpointSlice>, same: seq<EndpointSlice>,
                       before: Counts, after: Counts, zones: map<Zone, Allocation>, x: Shift)
    requires Planned(zones, before, x.giving, x.receiving) && MovesMade(local, moved, same, before, after, x)
    ensures Shifted(moved, same, after, zones, x)
  {
    PlannedFor(zones, before, NaturalCounts(moved, same, zones), x.giving, x.receiving);
    PlanShape(zones, before, x.giving, x.receiving);
    CarriedIfMovable(local, moved, x.giving, x.receiving, x.rest);
    assert Movable(local, x.giving) <==> Movable(moved, x.giving);
  }

  lemma LocalizedIsHinted(ss: seq<EndpointSlice>, ts: seq<EndpointSlice>)
    requires AllZoned(ss) && LocalizedSlices(ss, ts)
    ensures AllHinted(ts) && forall i :: 0 <= i < |ts| ==> OwnHints(ts[i].endpoints)
  {
    forall i | 0 <= i < |ts| ensures FullyHinted(ts[i].endpoints) && OwnHints(ts[i].endpoints) {
      assert Zoned(ss[i].endpoints) && LocalizedAll(ss[i].endpoints, ts[i].endpoints);
    }
  }

  lemma ShiftedIsHinted(us: seq<EndpointSlice>, same: seq<EndpointSlice>, after: Counts, zones: map<Zone, Allocation>, x: Shift)
    requires Shifted(us, same, after, zones, x) && AllHinted(us) && AllHinted(same)
    requires forall z :: Get(after, z) == TotalHints(us, z) + TotalHints(same, z)
    requires forall z :: z in zones ==> zones[z].desired >= zones[z].minimum as real
    ensures Hinted(us, same, after, zones)
  {
    var natural := NaturalCounts(us, same, zones);
    forall z
      ensures z in zones ==> ZoneBalanced(zones[z], NaturalHints(us, same, z), Get(after, z))
      ensures z !in zones ==> Get(after, z) == NaturalHints(us, same, z)
    {
      PlanBalanced(zones, natural, x.giving, x.receiving, x.rest, z);
    }
  }

  method MakeMoves(local: seq<EndpointSlice>, ghost same: seq<EndpointSlice>, before: Counts, giving: Counts, receiving: Counts)
    returns (moved: seq<EndpointSlice>, after: Counts, ghost rest: Moves)
    requires AllHinted(local) && forall i :: 0 <= i < |local| ==> OwnHints(local[i].endpoints)
    requires Positive(giving) && Positive(receiving) && NoZone !in giving
    requires forall z :: TotalHints(local, z) == TotalReadyIn(local, z)
    requires forall z :: Get(before, z) == NaturalHints(local, same, z)
    ensures AllSameButHints(local, moved) && AllNotReadyKept(local, moved) && AllHinted(moved)
    ensures MovesMade(local, moved, same, before, after, Shift(giving, receiving, rest))
  {
    var changes;
    moved, changes, rest := RedistributeHints(local, giving, receiving);
    after := AddCounts(before, changes);
    SameReady(local, moved);
  }

  // Moves hints between the slices so that each zone comes closer to its share.
  method MoveHints(local: seq<EndpointSlice>, same: seq<EndpointSlice>, before: Counts, zones: map<Zone, Allocation>)
    returns (moved: seq<EndpointSlice>, after: Counts, ghost x: Shift)
    requires NoZone !in zones && AllHinted(local) && forall i :: 0 <= i < |local| ==> OwnHints(local[i].endpoints)
    requires forall z :: TotalHints(local, z) == TotalReadyIn(local, z)
    requires forall z :: Get(before, z) == NaturalHints(local, same, z)
    ensures AllSameButHints(local, moved) && AllNotReadyKept(local, moved) && AllHinted(moved)
    ensures forall z :: Get(after, z) == TotalHints(moved, z) + TotalHints(same, z)
    ensures Shifted(moved, same, after, zones, x)
  {
    var giving, receiving := GetGivingAndReceivingZones(zones, before);
    PlanShape(zones, before, giving, receiving);
    ghost var rest;
    moved, after, rest := MakeMoves(local, same, before, giving, receiving);
    x := Shift(giving, receiving, rest);
    MovedIsShifted(local, moved, same, before, after, zones, x);
    MovesCounted(local, moved, same, before, after, x);
  }

  lemma MovesCounted(local: seq<EndpointSlice>, moved: seq<EndpointSlice>, same: seq<EndpointSlice>,
                     before: Counts, after: Counts, x: Shift)
    requires MovesMade(local, moved, same, before, after, x)
    ensures forall z :: Get(after, z) == TotalHints(moved, z) + TotalHints(same, z)
  {
  }

  lemma SameReady(ss: seq<EndpointSlice>, ts: seq<EndpointSlice>)
    requires AllSameButHints(ss, ts)
    ensures forall z :: TotalReadyIn(ss, z) == TotalReadyIn(ts, z)
  {
    forall z ensures TotalReadyIn(ss, z) == TotalReadyIn(ts, z) {
      TotalReadyInSame(ss, ts, z);
    }
  }

  lemma LocalizedCounts(ss: seq<EndpointSlice>, ts: seq<EndpointSlice>)
    requires AllZoned(ss) && LocalizedSlices(ss, ts) && AllSameButHints(ss, ts)
    ensures forall z :: TotalHints(ts, z) == TotalReadyIn(ts, z) == TotalReadyIn(ss, z)
  {
    forall z ensures TotalHints(ts, z) == TotalReadyIn(ts, z) == TotalReadyIn(ss, z) {
      LocalizedTotal(ss, ts, z);
      TotalReadyInSame(ss, ts, z);
    }
  }

  // Gives hints to the slices, or finds a ready endpoint without a zone.
  method HintSlices(written: seq<EndpointSlice>, same: seq<EndpointSlice>, counts: Counts, zones: map<Zone, Allocation>)
    returns (ok: bool, hinted: seq<EndpointSlice>, after: Counts, ghost x: Shift)
    requires NoZone !in zones && forall z :: z in zones ==> zones[z].desired >= zones[z].minimum as real
    requires Tallies(counts, same) && AllHinted(same)
    ensures ok <==> AllZoned(written)
    ensures AllSameButHints(written, hinted) && AllNotReadyKept(written, hinted)
    ensures ok ==> Hinted(hinted, same, after, zones) && Shifted(hinted, same, after, zones, x)
  {
    var local, before;
    ok, local, before := AssignSameZone(written, counts);
    hinted, after, x := local, before, Shift(map[], map[], Moves(map[], map[], map[]));
    if !ok {
      return;
    }
    LocalizedIsHinted(written, local);
    LocalizedCounts(written, local);
    hinted, after, x := MoveHints(local, same, before, zones);
    AllSameButHintsTransitive(written, local, hinted);
    AllNotReadyKeptTransitive(written, local, hinted);
    ShiftedIsHinted(hinted, same, after, zones, x);
  }

  datatype Event = HintsRemoved(reason: Reason) | HintsEnabled | NoEvent

  // The allocations are possible, and every ready endpoint that needs a hint says which zone it is in.
  ghost predicate CanHint(cpuRatios: Option<map<Zone, real>>, create: seq<EndpointSlice>, update: seq<EndpointSlice>,
                          same: seq<EndpointSlice>) {
    var n := TotalReady(create) + TotalReady(update) + TotalReady(same);
    && Feasible(cpuRatios, n)
    && AllZoned(create + (update + Displaced(same, AllocationsFor(cpuRatios.value, n))))
  }

  ghost predicate Allocatable(cpuRatios: Option<map<Zone, real>>, create: seq<EndpointSlice>, update: seq<EndpointSlice>,
                              same: seq<EndpointSlice>) {
    Feasible(cpuRatios, TotalReady(create) + TotalReady(update) + TotalReady(same))
  }

  // Why hints are removed: there are no allocations, for the first reason that applies, or an endpoint has no zone.
  ghost predicate RemovedFor(cpuRatios: Option<map<Zone, real>>, create: seq<EndpointSlice>, update: seq<EndpointSlice>,
                             same: seq<EndpointSlice>, reason: Reason) {
    if Allocatable(cpuRatios, create, update, same) then reason == NoZoneSpecified
    else Diagnosed(cpuRatios, TotalReady(create) + TotalReady(update) + TotalReady(same), Disabled(reason))
  }

  // Which untouched slices become updates: where there are allocations, those whose hints do not fit and possibly more;
  // where there are none, only slices with hints.
  ghost predicate TakenUp(cpuRatios: Option<map<Zone, real>>, create: seq<EndpointSlice>, update: seq<EndpointSlice>,
                          same: seq<EndpointSlice>, moved: seq<EndpointSlice>) {
    if Allocatable(cpuRatios, create, update, same)
    then Displaced(same, AllocationsFor(cpuRatios.value, TotalReady(create) + TotalReady(update) + TotalReady(same))) <= moved
    else forall i :: 0 <= i < |moved| ==> !Unhinted(moved[i].endpoints)
  }

  // The allocations for all ready endpoints of the slices.
  ghost predicate ZonesFor(cpuRatios: Option<map<Zone, real>>, create: seq<EndpointSlice>, update: seq<EndpointSlice>,
                           same: seq<EndpointSlice>, zones: map<Zone, Allocation>) {
    cpuRatios.Some? && zones == AllocationsFor(cpuRatios.value, TotalReady(create) + TotalReady(update) + TotalReady(same))
  }

  lemma HintedKeepsReady(create: seq<EndpointSlice>, update: seq<EndpointSlice>, same: seq<EndpointSlice>,
                         zones: map<Zone, Allocation>, hinted: seq<EndpointSlice>, counts: Counts)
    requires AllSameButHints(create + (update + Displaced(same, zones)), hinted)
    requires Hinted(hinted, Retained(same, zones), counts, zones) && |counts| == 0
    requires TotalReady(create) + TotalReady(update) + TotalReady(same) > 0
    ensures HintedButUncounted(hinted + Retained(same, zones))
  {
    var written, kept := create + (update + Displaced(same, zones)), Retained(same, zones);
    TotalReadyInSame(written, hinted, NoZone);
    TotalReadyConcat(create, update + Displaced(same, zones));
    TotalReadyConcat(update, Displaced(same, zones));
    TotalReadyConcat(hinted, kept);
    SplitReady(same, zones);
    forall z ensures TotalHints(hinted + kept, z) == 0 {
      assert Get(counts, z) == 0;
      TotalHintsConcat(hinted, kept, z);
    }
  }

  // Gives hints to the slices to be written, including the untouched ones that cannot keep theirs.
  method WriteHints(si: SliceInfo, zones: map<Zone, Allocation>)
    returns (ok: bool, after: Counts, ghost displaced: seq<EndpointSlice>, ghost x: Shift)
    requires NoZone !in zones && forall z :: z in zones ==> zones[z].desired >= zones[z].minimum as real
    modifies si
    ensures displaced == Displaced(old(si.untouched), zones) && si.untouched == Retained(old(si.untouched), zones)
    ensures OnlyHintsChanged(old(si.toCreate), old(si.toUpdate), old(si.untouched), si.toCreate, si.toUpdate, si.untouched, displaced)
    ensures ok <==> AllZoned(old(si.toCreate) + (old(si.toUpdate) + displaced))
    ensures ok ==> Hinted(si.toCreate + si.toUpdate, si.untouched, after, zones)
    ensures ok ==> Shifted(si.toCreate + si.toUpdate, si.untouched, after, zones, x)
    ensures AllNotReadyKept(old(si.toCreate) + (old(si.toUpdate) + displaced), si.toCreate + si.toUpdate)
    ensures ok && |after| == 0 && TotalReady(old(si.toCreate)) + TotalReady(old(si.toUpdate)) + TotalReady(old(si.untouched)) > 0 ==>
      HintedButUncounted(si.Everything())
  {
    ghost var create, update, same := si.toCreate, si.toUpdate, si.untouched;
    var kept, moved, counts := SplitUnchanged(si.untouched, zones);
    RetainedHinted(si.untouched, zones);
    var written := si.toCreate + (si.toUpdate + moved);
    var hinted;
    ok, hinted, after, x := HintSlices(written, kept, counts, zones);
    AllSameButHintsSplit(si.toCreate, si.toUpdate + moved, hinted);
    if ok && |after| == 0 && TotalReady(create) + TotalReady(update) + TotalReady(same) > 0 {
      HintedKeepsReady(create, update, same, zones, hinted, after);
    }
    si.toUpdate, si.untouched, displaced := hinted[|si.toCreate|..], kept, moved;
    si.toCreate := hinted[..|si.toCreate|];
  }

  function Lookup<K(==), T(==), V>(table: map<K, map<T, V>>, k: K, t: T): Option<V> {
    if k in table && t in table[k] then Some(table[k][t]) else None
  }

  // The table without one inner entry, and without the outer one when that was its last.
  function Without<K, T, V>(table: map<K, map<T, V>>, k: K, t: T): map<K, map<T, V>> {
    if k !in table then table
    else if |table[k] - {t}| == 0 then table - {k}
    else table[k := table[k] - {t}]
  }

  lemma LookupWithout<K, T, V>(table: map<K, map<T, V>>, k: K, t: T, k': K, t': T)
    ensures Lookup(Without(table, k, t), k', t') == if k' == k && t' == t then None else Lookup(table, k', t')
  {
    if k in table && |table[k] - {t}| == 0 {
      assert (table[k] - {t}).Keys == {};
    }
  }

  class TopologyCache {
    var cpuRatiosByZone: Option<map<Zone, real>>
    var endpointsByService: map<string, map<AddressType, Counts>>
    var hintsPopulatedByService: set<string>

    ghost predicate Valid()
      reads this
    {
      cpuRatiosByZone.Some? ==> NonNegative(cpuRatiosByZone.value) && NoZone !in cpuRatiosByZone.value
    }

    constructor ()
      ensures Valid() && endpointsByService == map[] && hintsPopulatedByService == {}
    {
      cpuRatiosByZone := Some(map[]);
      endpointsByService := map[];
      hintsPopulatedByService := {};
    }

    function Entry(serviceKey: string, addressType: AddressType): Option<Counts>
      reads this
    {
      Lookup(endpointsByService, serviceKey, addressType)
    }

    // Nothing is recorded differently except under this service and address type.
    twostate predicate OthersKept(serviceKey: string, addressType: AddressType)
      reads this
    {
      && cpuRatiosByZone == old(cpuRatiosByZone)
      && (forall k, t :: k != serviceKey || t != addressType ==> Entry(k, t) == old(Entry(k, t)))
      && (forall k :: k != serviceKey ==> (k in hintsPopulatedByService <==> k in old(hintsPopulatedByService)))
    }

    method SetHints(serviceKey: string, addressType: AddressType, hints: Counts)
      modifies this
      ensures Entry(serviceKey, addressType) == Some(hints) && serviceKey in hintsPopulatedByService
      ensures OthersKept(serviceKey, addressType)
    {
      if serviceKey !in endpointsByService {
        endpointsByService := endpointsByService[serviceKey := map[]];
      }
      endpointsByService := endpointsByService[serviceKey := endpointsByService[serviceKey][addressType := hints]];
      hintsPopulatedByService := hintsPopulatedByService + {serviceKey};
    }

    method RemoveHints(serviceKey: string, addressType: AddressType)
      modifies this
      ensures Entry(serviceKey, addressType) == None && serviceKey !in hintsPopulatedByService
      ensures OthersKept(serviceKey, addressType)
    {
      forall k, t
        ensures Lookup(Without(endpointsByService, serviceKey, addressType), k, t)
             == if k == serviceKey && t == addressType then None else Lookup(endpointsByService, k, t)
      {
        LookupWithout(endpointsByService, serviceKey, addressType, k, t);
      }
      endpointsByService := Without(endpointsByService, serviceKey, addressType);
      hintsPopulatedByService := hintsPopulatedByService - {serviceKey};
    }

    // Takes all hints away, on the slices and in the cache.
    method Disable(si: SliceInfo) returns (ghost moved: seq<EndpointSlice>)
      modifies this, si
      ensures OthersKept(si.serviceKey, si.addressType)
      ensures Entry(si.serviceKey, si.addressType) == None && si.serviceKey !in hintsPopulatedByService
      ensures OnlyHintsChanged(old(si.toCreate), old(si.toUpdate), old(si.untouched), si.toCreate, si.toUpdate, si.untouched, moved)
      ensures NoneHinted(si.Everything()) && forall i :: 0 <= i < |moved| ==> !Unhinted(moved[i].endpoints)
    {
      RemoveHints(si.serviceKey, si.addressType);
      moved := RemoveHintsFromSlices(si);
    }

    // The allocations for the ready endpoints of the slices.
    method AllocateFor(si: SliceInfo) returns (r: AllocationResult)
      requires Valid()
      ensures r.Allocated? <==> Allocatable(cpuRatiosByZone, si.toCreate, si.toUpdate, si.untouched)
      ensures Diagnosed(cpuRatiosByZone, TotalReady(si.toCreate) + TotalReady(si.toUpdate) + TotalReady(si.untouched), r)
      ensures r.Disabled? ==> r.reason != NoZoneSpecified && !CanHint(cpuRatiosByZone, si.toCreate, si.toUpdate, si.untouched)
      ensures r.Allocated? ==>
        && ZonesFor(cpuRatiosByZone, si.toCreate, si.toUpdate, si.untouched, r.zones)
        && NoZone !in r.zones && (forall z :: z in r.zones ==> r.zones[z].desired >= r.zones[z].minimum as real)
        && TotalReady(si.toCreate) + TotalReady(si.toUpdate) + TotalReady(si.untouched) > 0
        && (CanHint(cpuRatiosByZone, si.toCreate, si.toUpdate, si.untouched) <==>
              AllZoned(si.toCreate + (si.toUpdate + Displaced(si.untouched, r.zones))))
    {
      var total := si.GetTotalReadyEndpoints();
      r := GetAllocations(cpuRatiosByZone, total);
      DiagnosedZones(cpuRatiosByZone, total, r);
    }

    // The slices are hinted and the cache has their counts by zone.
    ghost predicate Enabled(si: SliceInfo, zones: map<Zone, Allocation>)
      reads this, si
    {
      && si.serviceKey in hintsPopulatedByService
      && Entry(si.serviceKey, si.addressType).Some?
      && Hinted(si.toCreate + si.toUpdate, si.untouched, Entry(si.serviceKey, si.addressType).value, zones)
    }

    // No slice is hinted and the cache has no entry.
    ghost predicate Cleared(si: SliceInfo)
      reads this, si
    {
      && NoneHinted(si.Everything())
      && Entry(si.serviceKey, si.addressType) == None && si.serviceKey !in hintsPopulatedByService
    }

    // Either every ready endpoint ends up with a hint and the cache has their counts, or no endpoint
    // has a hint and the cache has no entry.
    method AddHints(si: SliceInfo)
      returns (event: Event, ghost moved: seq<EndpointSlice>, ghost zones: map<Zone, Allocation>, ghost x: Shift)
      requires Valid()
      modifies this, si
      ensures Valid() && OthersKept(si.serviceKey, si.addressType)
      ensures OnlyHintsChanged(old(si.toCreate), old(si.toUpdate), old(si.untouched), si.toCreate, si.toUpdate, si.untouched, moved)
      ensures if event.HintsRemoved? then Cleared(si) else Enabled(si, zones)
      ensures !event.HintsRemoved? ==>
        Shifted(si.toCreate + si.toUpdate, si.untouched, Entry(si.serviceKey, si.addressType).value, zones, x)
      ensures !event.HintsRemoved? ==> si.untouched == Retained(old(si.untouched), zones) && moved == Displaced(old(si.untouched), zones)
      ensures TakenUp(old(cpuRatiosByZone), old(si.toCreate), old(si.toUpdate), old(si.untouched), moved)
      ensures !event.HintsRemoved? ==> AllNotReadyKept(old(si.toCreate) + (old(si.toUpdate) + moved), si.toCreate + si.toUpdate)
      ensures !event.HintsRemoved? ==> (NoStaleHints(si.Everything()) <==> NoStaleHints(old(si.Everything())))
      ensures !event.HintsRemoved? ==> ZonesFor(old(cpuRatiosByZone), old(si.toCreate), old(si.toUpdate), old(si.untouched), zones)
      ensures !event.HintsRemoved? ==> (event == NoEvent <==> si.serviceKey in old(hintsPopulatedByService))
      ensures event.HintsRemoved? ==> RemovedFor(old(cpuRatiosByZone), old(si.toCreate), old(si.toUpdate), old(si.untouched), event.reason)
      ensures event.HintsRemoved? <==> !CanHint(old(cpuRatiosByZone), old(si.toCreate), old(si.toUpdate), old(si.untouched))
    {
      var r := AllocateFor(si);
      if r.Disabled? {
        moved := Disable(si);
        event, zones, x := HintsRemoved(r.reason), map[], Shift(map[], map[], Moves(map[], map[], map[]));
        return;
      }
      zones := r.zones;
      ghost var create, update, same := si.toCreate, si.toUpdate, si.untouched;
      var ok, after;
      ghost var displaced;
      ok, after, displaced, x := WriteHints(si, r.zones);
      if !ok {
        ghost var create', update', same' := si.toCreate, si.toUpdate, si.untouched;
        ghost var more := Disable(si);
        OnlyHintsComposed(create, update, same, create', update', same', displaced, si.toCreate, si.toUpdate, si.untouched, more);
        moved := displaced + more;
        event := HintsRemoved(NoZoneSpecified);
        return;
      }
      if |after| == 0 {
        // Hints would be removed here too, but every hint given has been counted.
        EveryHintIsCounted(si.Everything());
        assert false;
      }
      event := if si.serviceKey in hintsPopulatedByService then NoEvent else HintsEnabled;
      SetHints(si.serviceKey, si.addressType, after);
      moved := displaced;
      StaleHintsStay(create, update, same, si.toCreate, si.toUpdate, si.untouched, moved);
    }
  }

  /* A stale hint */

  const EAST := Zone(1)
  const WEST := Zone(2)

  function Sample(name: string, zone: Zone, ready: bool, hints: Option<seq<Zone>>): Endpoint {
    Endpoint(EndpointKey([name], "", "", ""), None, None, Some(zone), Conditions(Some(ready), None, None), hints)
  }

  // A ready endpoint in each of two zones, and one that is no longer ready but was hinted when it was.
  function SampleEndpoints(): seq<Endpoint> {
    [Sample("a", EAST, true, None), Sample("b", WEST, true, None), Sample("c", EAST, false, Some([EAST]))]
  }

  const EVEN: map<Zone, real> := map[EAST := 0.5, WEST := 0.5]

  lemma EvenMinimum()
    ensures MinimumFor(0.5, 2) == 1
  {
    MinimumIsLeast(0.5, 2, 1);
    MinimumIsLeast(0.5, 2, 0);
  }

  lemma EvenIsFeasible()
    ensures Feasible(Some(EVEN), 2)
  {
    EvenMinimum();
    EvenSum(2, 1);
  }

  // Seven endpoints can be shared by two equal zones: three each at least, four at most.
  lemma SevenIsEnough()
    ensures Feasible(Some(EVEN), 7)
    ensures AllocationsFor(EVEN, 7) == map[EAST := Allocation(3, 4, 3.5), WEST := Allocation(3, 4, 3.5)]
  {
    SevenMinimum();
    EvenSum(7, 3);
    assert AllocationsFor(EVEN, 7).Keys == {EAST, WEST};
  }

  lemma SevenMinimum()
    ensures MinimumFor(0.5, 7) == 3
  {
    MinimumIsLeast(0.5, 7, 3);
    MinimumIsLeast(0.5, 7, 2);
  }

  lemma EvenSum(n: nat, least: int)
    requires MinimumFor(0.5, n) == least
    ensures Sum(Minima(EVEN, n)) == 2 * least && |EVEN| == 2
  {
    var m := Minima(EVEN, n);
    SumRemove(m, EAST);
    SumRemove(m - {EAST}, WEST);
    assert (m - {EAST} - {WEST}).Keys == {};
    assert EVEN.Keys == {EAST, WEST};
  }

  lemma SampleReady(s: EndpointSlice)
    requires s.endpoints == SampleEndpoints()
    ensures TotalReady([s]) == 2 && Zoned(s.endpoints)
  {
    var es := s.endpoints;
    assert es[..2] == [es[0], es[1]] && [es[0], es[1]][..1] == [es[0]] && [es[0]][..0] == [];
    assert NumReady([es[0]]) == 1;
    assert NumReady([es[0], es[1]]) == 2;
    assert NumReady(es) == 2;
    assert [s][..0] == [];
  }

  // Its slice can be hinted and has a stale hint, which therefore survives adding hints.
  lemma StaleHintSurvives(s: EndpointSlice)
    requires s.endpoints == SampleEndpoints()
    ensures CanHint(Some(EVEN), [], [s], []) && !NoStaleHints([] + [s] + [])
  {
    SampleReady(s);
    EvenIsFeasible();
    assert [] + ([s] + Displaced([], AllocationsFor(EVEN, 2))) == [s];
    SampleStale(s);
  }

  lemma SampleStale(s: EndpointSlice)
    requires s.endpoints == SampleEndpoints()
    ensures !NoStaleHints([] + [s] + [])
  {
    assert s in [] + [s] + [] && s.endpoints[2] in s.endpoints && !Hints.Fresh(s.endpoints[2]);
  }
}
