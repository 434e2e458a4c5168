/**
 Maps from zones to counts, read with 0 for a missing zone, and their sums.
 */
module ZoneMaps {
  import opened Sequences
  import opened Discovery

  type Counts = map<Zone, int>

  function Get(m: Counts, z: Zone): int {
    if z in m then m[z] else 0
  }

  function Bump(m: Counts, z: Zone, delta: int): Counts {
    m[z := Get(m, z) + delta]
  }

  ghost function Sum(m: Counts): int {
    if m.Keys == {} then 0
    else
      var z :| z in m.Keys;
      m[z] + Sum(m - {z})
  }

  lemma {:induction false} SumRemove(m: Counts, z: Zone)
    requires z in m
    ensures Sum(m) == m[z] + Sum(m - {z})
    decreases m.Keys
  {
    var y :| y in m.Keys && Sum(m) == m[y] + Sum(m - {y});
    if y != z {
      SumRemove(m - {y}, z);
      SumRemove(m - {z}, y);
      MinusCommutes(m, y, z);
    }
  }

  lemma SumBump(m: Counts, z: Zone, delta: int)
    ensures Sum(Bump(m, z, delta)) == Sum(m) + delta
  {
    var n := Bump(m, z, delta);
    SumRemove(n, z);
    assert n - {z} == m - {z};
    if z in m {
      SumRemove(m, z);
    } else {
      assert m - {z} == m;
    }
  }

  lemma {:induction false} SumNonNegative(m: Counts)
    requires forall z :: z in m ==> m[z] >= 0
    ensures Sum(m) >= 0
    decreases m.Keys
  {
    if m.Keys != {} {
      var y :| y in m.Keys && Sum(m) == m[y] + Sum(m - {y});
      SumNonNegative(m - {y});
    }
  }
}
