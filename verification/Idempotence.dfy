/**
 Reconciling again what reconciling produced changes nothing.
 */
module Idempotence {
  import opened Discovery
  import opened SliceLabels
  import opened Keeping
  import opened PortMapping
  import opened GroupReconciler
  import opened DesiredEndpoints
  import opened Groups
  import opened GroupProgress
  import opened Placeholders
  import opened Hints
  import opened HintBalance
  import opened HintedPlans

  lemma OccurrencesAt(ss: seq<EndpointSlice>, j: nat, k: EndpointKey)
    requires j < |ss|
    ensures Occurrences(ss, k) == Occurrences(ss[..j] + ss[j + 1..], k) + CountKey(ss[j].endpoints, k)
  {
    assert ss == ss[..j] + [ss[j]] + ss[j + 1..];
    OccurrencesConcat(ss[..j] + [ss[j]], ss[j + 1..], k);
    OccurrencesConcat(ss[..j], ss[j + 1..], k);
    OccurrencesSnoc(ss[..j], ss[j], k);
  }

  lemma WithoutLast<T>(s: seq<T>, t: seq<T>) returns (j: nat)
    requires multiset(s) == multiset(t) && s != []
    ensures j < |t| && t[j] == s[|s| - 1] && multiset(s[..|s| - 1]) == multiset(t[..j] + t[j + 1..])
  {
    var n := |s| - 1;
    assert s == s[..n] + [s[n]];
    assert s[n] in multiset(t);
    j :| 0 <= j < |t| && t[j] == s[n];
    assert t == t[..j] + [t[j]] + t[j + 1..];
    assert multiset(s[..n]) == multiset(s) - multiset{s[n]};
    assert multiset(t[..j] + t[j + 1..]) == multiset(t) - multiset{t[j]};
  }

  lemma {:induction false} OccurrencesPermuted(ss: seq<EndpointSlice>, ts: seq<EndpointSlice>, k: EndpointKey)
    requires multiset(ss) == multiset(ts)
    ensures Occurrences(ss, k) == Occurrences(ts, k)
  {
    if ss == [] {
      assert |multiset(ts)| == 0;
    } else {
      var j := WithoutLast(ss, ts);
      OccurrencesAt(ts, j, k);
      OccurrencesPermuted(ss[..|ss| - 1], ts[..j] + ts[j + 1..], k);
    }
  }

  // The slices `again` are the slices `ss`, listed in any order, under any names and with any hints.
  ghost predicate Relisted(ss: seq<EndpointSlice>, again: seq<EndpointSlice>) {
    exists ts :: AllAlike(ss, ts) && multiset(ts) == multiset(again)
  }

  lemma SettledRelisted(ss: seq<EndpointSlice>, again: seq<EndpointSlice>, d: Desired, service: Service)
    requires Settled(ss, d, service) && Relisted(ss, again)
    ensures Settled(again, d, service)
  {
    var ts :| AllAlike(ss, ts) && multiset(ts) == multiset(again);
    forall k ensures Occurrences(again, k) == Indicator(k in d) {
      OccurrencesAlike(ss, ts, k);
      OccurrencesPermuted(ts, again, k);
    }
    forall t | t in again ensures MirrorsLabels(t, service) && UpToDate(t.endpoints, d) {
      assert t in multiset(ts);
      var i :| 0 <= i < |ts| && ts[i] == t;
      assert Alike(ss[i], ts[i]) && ss[i] in ss;
      AlikeUpToDate(ss[i], t, d);
    }
  }

  // Whatever plan comes out of reconciling the outcome of an earlier plan again is empty.
  lemma ReconcilingAgain(existing: seq<EndpointSlice>, again: seq<EndpointSlice>, d: Desired, service: Service, managedBy: string,
                         meta: EndpointMeta, max: nat, p: Plan, added: int, removed: int, q: Plan, added': int, removed': int)
    requires Reconciled(existing, d, service, managedBy, meta, max, p.create, p.update, p.delete, added, removed)
    requires Relisted(Outcome(existing, p), again)
    requires Reconciled(again, d, service, managedBy, meta, max, q.create, q.update, q.delete, added', removed')
    ensures q == Plan([], [], []) && added' == 0 && removed' == 0
  {
    SettledRelisted(Outcome(existing, p), again, d, service);
  }

  /* All groups of an address type */

  lemma {:induction false} MembersCount(ss: seq<EndpointSlice>, service: Service, g: PortMapKey, s: EndpointSlice)
    ensures multiset(Members(ss, service, g))[s] == if InGroup(s, service, g) then multiset(ss)[s] else 0
  {
    if ss != [] {
      var n := |ss| - 1;
      MembersCount(ss[..n], service, g, s);
      assert ss == ss[..n] + [ss[n]];
    }
  }

  lemma MembersPermuted(ss: seq<EndpointSlice>, ts: seq<EndpointSlice>, service: Service, g: PortMapKey)
    requires multiset(ss) == multiset(ts)
    ensures multiset(Members(ss, service, g)) == multiset(Members(ts, service, g))
  {
    forall s ensures multiset(Members(ss, service, g))[s] == multiset(Members(ts, service, g))[s] {
      MembersCount(ss, service, g, s);
      MembersCount(ts, service, g, s);
    }
  }

  lemma SettledPermuted(ss: seq<EndpointSlice>, ts: seq<EndpointSlice>, d: Desired, service: Service)
    requires multiset(ss) == multiset(ts) && Settled(ss, d, service)
    ensures Settled(ts, d, service)
  {
    forall k ensures Occurrences(ts, k) == Indicator(k in d) {
      OccurrencesPermuted(ss, ts, k);
    }
    forall t | t in ts ensures MirrorsLabels(t, service) && UpToDate(t.endpoints, d) {
      assert t in multiset(ss);
    }
  }

  lemma PermutedMember(ss: seq<EndpointSlice>, ts: seq<EndpointSlice>, i: nat) returns (j: nat)
    requires multiset(ss) == multiset(ts) && i < |ts|
    ensures j < |ss| && ss[j] == ts[i]
  {
    assert ts[i] in multiset(ss);
    j :| 0 <= j < |ss| && ss[j] == ts[i];
  }

  // Listing stable slices in another order leaves them stable.
  lemma StablePermuted(ss: seq<EndpointSlice>, ts: seq<EndpointSlice>, service: Service, placeholder: EndpointSlice, d: DesiredByPorts)
    requires multiset(ss) == multiset(ts) && Stable(ss, service, placeholder, d)
    ensures Stable(ts, service, placeholder, d)
  {
    assert |ss| == |multiset(ss)| == |multiset(ts)| == |ts|;
    forall g | g in d ensures Settled(Members(ts, service, g), d[g], service) {
      MembersPermuted(ss, ts, service, g);
      SettledPermuted(Members(ss, service, g), Members(ts, service, g), d[g], service);
    }
    if AllDesired(ss, service, d) {
      forall i | 0 <= i < |ts| ensures Owns(service, ts[i]) && PortKey(ts[i].ports) in d {
        var j := PermutedMember(ss, ts, i);
      }
    } else {
      var j := PermutedMember(ss, ts, 0);
    }
  }

  lemma TotalsAt(ss: seq<EndpointSlice>, j: nat, z: Zone)
    requires j < |ss|
    ensures TotalHints(ss, z) == TotalHints(ss[..j] + ss[j + 1..], z) + HintsIn(ss[j].endpoints, z)
    ensures TotalReady(ss) == TotalReady(ss[..j] + ss[j + 1..]) + NumReady(ss[j].endpoints)
  {
    var front, s, back := ss[..j], ss[j], ss[j + 1..];
    assert ss == front + [s] + back && [s][..0] == [];
    TotalHintsConcat(front + [s], back, z);
    TotalHintsConcat(front, back, z);
    TotalHintsSnoc(front, s, z);
    TotalReadyConcat(front + [s], back);
    TotalReadyConcat(front, back);
    TotalReadyConcat(front, [s]);
  }

  lemma {:induction false} TotalsPermuted(ss: seq<EndpointSlice>, ts: seq<EndpointSlice>, z: Zone)
    requires multiset(ss) == multiset(ts)
    ensures TotalHints(ss, z) == TotalHints(ts, z) && TotalReady(ss) == TotalReady(ts)
  {
    if ss == [] {
      assert |multiset(ts)| == 0;
    } else {
      var j := WithoutLast(ss, ts);
      TotalsAt(ts, j, z);
      TotalsPermuted(ss[..|ss| - 1], ts[..j] + ts[j + 1..], z);
    }
  }

  lemma HintedPermuted(ss: seq<EndpointSlice>, ts: seq<EndpointSlice>)
    requires multiset(ss) == multiset(ts) && AllHinted(ss)
    ensures AllHinted(ts)
  {
    forall i | 0 <= i < |ts| ensures FullyHinted(ts[i].endpoints) {
      var j := PermutedMember(ss, ts, i);
    }
  }

  // Whether hints stand does not depend on the order of the slices.
  lemma StandPermuted(cpuRatios: Option<map<Zone, real>>, ss: seq<EndpointSlice>, ts: seq<EndpointSlice>)
    requires multiset(ss) == multiset(ts) && HintsStand(cpuRatios, ss)
    ensures HintsStand(cpuRatios, ts)
  {
    forall z ensures TotalHints(ss, z) == TotalHints(ts, z) && TotalReady(ss) == TotalReady(ts) {
      TotalsPermuted(ss, ts, z);
    }
    assert TotalHints(ss, NoZone) == TotalHints(ts, NoZone);
    if NoneHinted(ss) {
      UnhintedPermuted(ss, ts);
    }
    if AllHinted(ss) {
      HintedPermuted(ss, ts);
    }
  }

  lemma UnhintedPermuted(ss: seq<EndpointSlice>, ts: seq<EndpointSlice>)
    requires multiset(ss) == multiset(ts) && NoneHinted(ss)
    ensures NoneHinted(ts)
  {
    forall i | 0 <= i < |ts| ensures Unhinted(ts[i].endpoints) {
      var j := PermutedMember(ss, ts, i);
    }
  }
}
