/**
 The node blocks a cluster's leader hands out during its term.
 */
module NodeCidrs {
  import opened Sequences
  import opened Cidrs
  import opened CidrAllocation

  lemma FoundValid(network: Cidr, existing: seq<Entry>, bits: nat, cidr: Cidr)
    requires Valid(network) && network.bits <= bits <= 32 && Readings(existing) && Allocated(network, existing, bits, Found(cidr))
    ensures Valid(cidr) && cidr.bits == bits
  {
    var i: nat :| i < Pow2(32 - bits) && TakenBefore(network, existing, bits, i) && cidr == Candidate(network, bits, i)
                  && Readable(cidr) && !Taken(existing, cidr);
    CandidateAligned(network, bits, i);
    Pow2Sum(32 - bits, bits);
    MultipleOf(Pow2(32), Pow2(bits), Size(bits));
    NextMultiple(cidr.base, Pow2(32), Size(bits));
  }

  method RemoveEntry(entries: seq<Entry>, entry: Entry) returns (rest: seq<Entry>)
    ensures entry !in rest && forall e :: e in rest <==> e in entries && e != entry
  {
    rest := [];
    for i := 0 to |entries|
      invariant forall e :: e in rest <==> e in entries[..i] && e != entry
    {
      PrefixStep(entries, i);
      if entries[i] != entry {
        rest := rest + [entries[i]];
      }
    }
    WholePrefix(entries);
  }

  ghost predicate PairwiseDisjoint(cs: seq<Cidr>)
    requires forall i :: 0 <= i < |cs| ==> cs[i].bits <= 32
  {
    forall i, j :: 0 <= i < j < |cs| ==> !Shares(cs[i], cs[j])
  }

  class InnerTunnelController {
    const clusterCIDR: Cidr
    var existingCIDR: seq<Entry>
    // The blocks handed out since the controller became leader.
    ghost var handed: seq<Cidr>

    // No two blocks handed out share an address, and all are remembered.
    ghost predicate Valid()
      reads this
    {
      && Cidrs.Valid(clusterCIDR) && Readings(existingCIDR)
      && (forall i :: 0 <= i < |handed| ==> Cidrs.Valid(handed[i]) && Text(handed[i]) in existingCIDR)
      && PairwiseDisjoint(handed)
    }

    constructor (clusterCIDR: Cidr, existingCIDR: seq<Entry>)
      requires Cidrs.Valid(clusterCIDR) && Readings(existingCIDR)
      ensures Valid() && this.clusterCIDR == clusterCIDR && this.existingCIDR == existingCIDR && handed == []
    {
      this.clusterCIDR, this.existingCIDR, handed := clusterCIDR, existingCIDR, [];
    }

    // Hands out a block that shares no address with any remembered one. It is remembered only if the pod
    // could be annotated with it.
    method SpawnNewCIDRForNRIPod(annotated: bool) returns (r: Outcome, ok: bool)
      requires Valid()
      modifies this
      ensures Valid()
      ensures r.TooSmall? <==> clusterCIDR.bits == 13 || clusterCIDR.bits > 18
      ensures !r.TooSmall? ==> Allocated(clusterCIDR, old(existingCIDR), if clusterCIDR.bits > 13 then 24 else 22, r)
      ensures ok <==> annotated && (r.Found? || r.Garbage?)
      ensures existingCIDR == if !ok then old(existingCIDR) else old(existingCIDR) + [if r.Found? then Text(r.cidr) else Malformed]
      ensures handed == if ok && r.Found? then old(handed) + [r.cidr] else old(handed)
    {
      r := FindClusterAvailable(clusterCIDR, existingCIDR);
      ok := annotated && (r.Found? || r.Garbage?);
      if !ok {
        return;
      }
      if r.Garbage? {
        existingCIDR := existingCIDR + [Malformed];
        return;
      }
      var bits := DivideCluster(clusterCIDR.bits).value;
      FoundValid(clusterCIDR, existingCIDR, bits, r.cidr);
      HandOut(existingCIDR, handed, r.cidr);
      existingCIDR, handed := existingCIDR + [Text(r.cidr)], handed + [r.cidr];
    }

    // A node goes away. Its block is filtered out of a copy that is then dropped, so it stays remembered.
    method RecycleResources(cidr: Cidr)
      requires Valid()
      modifies this
      ensures Valid() && existingCIDR == old(existingCIDR) && handed == old(handed)
    {
      var dropped := RemoveEntry(existingCIDR, Text(cidr));
    }
  }

  lemma HandOut(existing: seq<Entry>, handed: seq<Cidr>, cidr: Cidr)
    requires Readings(existing) && Valid(cidr) && !Taken(existing, cidr)
    requires forall i :: 0 <= i < |handed| ==> Valid(handed[i]) && Text(handed[i]) in existing
    requires PairwiseDisjoint(handed)
    ensures PairwiseDisjoint(handed + [cidr])
    ensures forall i :: 0 <= i < |handed| ==> !Shares(handed[i], cidr)
  {
    forall i | 0 <= i < |handed| ensures !Shares(handed[i], cidr) {
      var k :| 0 <= k < |existing| && existing[k] == Text(handed[i]);
    }
  }
}
