/**
 First-fit allocation of blocks from a network.
 */
module CidrAllocation {
  import opened Sequences
  import opened Discovery
  import opened Cidrs

  // An existing block as read from its text: none if the text is empty.
  datatype Entry = NoText | Text(cidr: Cidr) | Malformed

  // A garbage block is one whose address has no dotted-quad text.
  datatype Outcome = Found(cidr: Cidr) | Exhausted | Garbage | Crash | TooSmall

  ghost predicate Readings(existing: seq<Entry>) {
    forall k :: 0 <= k < |existing| && existing[k].Text? ==> Valid(existing[k].cidr)
  }

  ghost predicate HasMalformed(existing: seq<Entry>) {
    exists k :: 0 <= k < |existing| && existing[k].Malformed?
  }

  ghost predicate HasText(existing: seq<Entry>) {
    exists k :: 0 <= k < |existing| && existing[k].Text?
  }

  // The i-th block of the given prefix length from the network's first address on.
  function Candidate(network: Cidr, bits: nat, i: nat): Cidr
    requires bits <= 32
  {
    Cidr(network.base + i * Size(bits), bits)
  }

  // The address takes four bytes, the first not zero.
  predicate Readable(c: Cidr) {
    Pow2(24) <= c.base < Pow2(32)
  }

  ghost predicate Taken(existing: seq<Entry>, c: Cidr)
    requires c.bits <= 32 && Readings(existing)
  {
    exists k :: 0 <= k < |existing| && existing[k].Text? && Shares(existing[k].cidr, c)
  }

  // All candidates before the i-th are taken.
  ghost predicate TakenBefore(network: Cidr, existing: seq<Entry>, bits: nat, i: nat)
    requires bits <= 32 && Readings(existing)
  {
    forall j: nat :: j < i ==> Readable(Candidate(network, bits, j)) && Taken(existing, Candidate(network, bits, j))
  }

  // The first candidate that is not taken, if it is scanned, and what goes wrong otherwise.
  ghost predicate Allocated(network: Cidr, existing: seq<Entry>, bits: nat, r: Outcome)
    requires bits <= 32 && Readings(existing)
  {
    var n := Pow2(32 - bits);
    match r
    case Found(cidr) =>
      && !HasMalformed(existing)
      && exists i: nat :: i < n && TakenBefore(network, existing, bits, i) && cidr == Candidate(network, bits, i)
           && Readable(cidr) && !Taken(existing, cidr)
    case Exhausted => !HasMalformed(existing) && TakenBefore(network, existing, bits, n)
    case Garbage => !HasMalformed(existing) && !HasText(existing) && !Readable(Candidate(network, bits, 0))
    case Crash =>
      || HasMalformed(existing)
      || (HasText(existing)
          && exists i: nat :: i < n && TakenBefore(network, existing, bits, i) && !Readable(Candidate(network, bits, i)))
    case TooSmall => false
  }

  /* The scan */

  lemma CandidateAligned(network: Cidr, bits: nat, i: nat)
    requires Valid(network) && network.bits <= bits <= 32
    ensures Candidate(network, bits, i).base % Size(bits) == 0
  {
    var s := Size(bits);
    SizeDivides(network.bits, bits);
    FinerMultiple(network.base, Size(network.bits), s, Pow2(bits - network.bits));
    var k := Quotient(network.base, s);
    assert network.base + i * s == s * (k + i);
    MultipleOf(network.base + i * s, k + i, s);
  }

  // The set holds the trimmed existing blocks.
  ghost predicate TrimmedSet(existing: seq<Entry>, bits: nat, trimmed: set<Cidr>)
    requires bits <= 32
  {
    && (forall k :: 0 <= k < |existing| && existing[k].Text? ==> Trimmed(existing[k].cidr, bits) in trimmed)
    && (forall t :: t in trimmed ==> exists k :: 0 <= k < |existing| && existing[k].Text? && Trimmed(existing[k].cidr, bits) == t)
  }

  method TrimExisting(existing: seq<Entry>, bits: nat) returns (ok: bool, trimmed: set<Cidr>)
    requires bits <= 32 && Readings(existing)
    ensures ok <==> !HasMalformed(existing)
    ensures ok ==> TrimmedSet(existing, bits, trimmed)
  {
    trimmed := {};
    for k := 0 to |existing|
      invariant forall j :: 0 <= j < k ==> !existing[j].Malformed?
      invariant TrimmedSet(existing[..k], bits, trimmed)
    {
      PrefixStep(existing, k);
      ghost var before := trimmed;
      if existing[k].Malformed? {
        return false, {};
      }
      if existing[k].Text? {
        trimmed := trimmed + {Trimmed(existing[k].cidr, bits)};
      }
      TrimmedSnoc(existing, k, bits, before, trimmed);
    }
    WholePrefix(existing);
    ok := true;
  }

  lemma TrimmedSnoc(existing: seq<Entry>, k: nat, bits: nat, before: set<Cidr>, trimmed: set<Cidr>)
    requires bits <= 32 && k < |existing| && TrimmedSet(existing[..k], bits, before)
    requires trimmed == if existing[k].Text? then before + {Trimmed(existing[k].cidr, bits)} else before
    ensures TrimmedSet(existing[..k + 1], bits, trimmed)
  {
    var longer := existing[..k + 1];
    forall t | t in trimmed ensures exists j :: 0 <= j < |longer| && longer[j].Text? && Trimmed(longer[j].cidr, bits) == t {
      if t in before {
        var j :| 0 <= j < |existing[..k]| && existing[..k][j].Text? && Trimmed(existing[..k][j].cidr, bits) == t;
        assert longer[j] == existing[j];
      } else {
        assert longer[k] == existing[k];
      }
    }
    forall j | 0 <= j < |longer| && longer[j].Text? ensures Trimmed(longer[j].cidr, bits) in trimmed {
      if j < k {
        assert existing[..k][j] == longer[j];
      }
    }
  }

  lemma TakenIsOverlap(existing: seq<Entry>, trimmed: set<Cidr>, c: Cidr, t: Cidr)
    requires c.bits <= 32 && c.base % Size(c.bits) == 0 && Readings(existing) && TrimmedSet(existing, c.bits, trimmed) && t in trimmed
    ensures t.bits <= 32 && (IsOverlapping(t, c) ==> Taken(existing, c))
  {
    var k :| 0 <= k < |existing| && existing[k].Text? && Trimmed(existing[k].cidr, c.bits) == t;
    assert Valid(existing[k].cidr);
    OverlapIsSharing(existing[k].cidr, c);
  }

  lemma TakenHasOverlap(existing: seq<Entry>, trimmed: set<Cidr>, c: Cidr) returns (t: Cidr)
    requires c.bits <= 32 && c.base % Size(c.bits) == 0 && Readings(existing) && TrimmedSet(existing, c.bits, trimmed) && Taken(existing, c)
    ensures t in trimmed && t.bits <= 32 && IsOverlapping(t, c)
  {
    var k :| 0 <= k < |existing| && existing[k].Text? && Shares(existing[k].cidr, c);
    OverlapIsSharing(existing[k].cidr, c);
    t := Trimmed(existing[k].cidr, c.bits);
  }

  // Whether the candidate overlaps one of the trimmed blocks.
  method OverlapsAny(trimmed: set<Cidr>, c: Cidr, ghost existing: seq<Entry>) returns (overlapping: bool)
    requires c.bits <= 32 && c.base % Size(c.bits) == 0 && Readings(existing) && TrimmedSet(existing, c.bits, trimmed)
    ensures overlapping <==> Taken(existing, c)
  {
    var rest := trimmed;
    while rest != {}
      invariant rest <= trimmed
      invariant forall t :: t in trimmed && t !in rest ==> t.bits <= 32 && !IsOverlapping(t, c)
      decreases rest
    {
      var t :| t in rest;
      TakenIsOverlap(existing, trimmed, c, t);
      if IsOverlapping(t, c) {
        return true;
      }
      rest := rest - {t};
    }
    overlapping := false;
    if Taken(existing, c) {
      ghost var t := TakenHasOverlap(existing, trimmed, c);
      assert false;
    }
  }

  // The first candidate block that overlaps no existing one.
  method FindAvailable(network: Cidr, existing: seq<Entry>, bits: nat) returns (r: Outcome)
    requires Valid(network) && network.bits <= bits <= 32 && Readings(existing)
    ensures Allocated(network, existing, bits, r)
  {
    var ok, trimmed := TrimExisting(existing, bits);
    if !ok {
      return Crash;
    }
    var i: nat, n := 0, Pow2(32 - bits);
    while i <= n - 1
      invariant i <= n && TakenBefore(network, existing, bits, i)
      decreases n - i
    {
      var c := Candidate(network, bits, i);
      if !Readable(c) {
        if trimmed == {} {
          NothingTrimmed(existing, bits, trimmed);
          PastTheFirst(network, existing, bits, i);
          return Garbage;
        }
        SomethingTrimmed(existing, bits, trimmed);
        return Crash;
      }
      CandidateAligned(network, bits, i);
      var overlapping := OverlapsAny(trimmed, c, existing);
      if !overlapping {
        return Found(c);
      }
      i := i + 1;
    }
    r := Exhausted;
  }

  lemma SomethingTrimmed(existing: seq<Entry>, bits: nat, trimmed: set<Cidr>)
    requires bits <= 32 && TrimmedSet(existing, bits, trimmed) && trimmed != {}
    ensures HasText(existing)
  {
    var t :| t in trimmed;
  }

  lemma NothingTrimmed(existing: seq<Entry>, bits: nat, trimmed: set<Cidr>)
    requires bits <= 32 && TrimmedSet(existing, bits, trimmed) && trimmed == {}
    ensures !HasText(existing)
  {
  }

  // Getting past the first candidate takes an existing block.
  lemma PastTheFirst(network: Cidr, existing: seq<Entry>, bits: nat, i: nat)
    requires bits <= 32 && Readings(existing) && TakenBefore(network, existing, bits, i)
    ensures i > 0 ==> HasText(existing)
  {
    if i > 0 {
      assert Taken(existing, Candidate(network, bits, 0));
    }
  }

  /* Where the found block lies */

  predicate Inside(network: Cidr, c: Cidr)
    requires network.bits <= 32 && c.bits <= 32
  {
    network.base <= c.base && c.base + Size(c.bits) <= network.base + Size(network.bits)
  }

  // A block is inside a network exactly if all its addresses are in the network.
  lemma InsideExactly(network: Cidr, c: Cidr)
    requires network.bits <= 32 && c.bits <= 32
    ensures Inside(network, c) <==> forall a :: Contains(c, a) ==> Contains(network, a)
  {
    assert Contains(c, c.base) && Contains(c, c.base + Size(c.bits) - 1);
  }

  // A block is valid exactly if it is aligned and all its addresses are IPv4 addresses.
  lemma ValidExactly(c: Cidr)
    requires c.bits <= 32
    ensures Valid(c) <==> c.base % Size(c.bits) == 0 && forall a :: Contains(c, a) ==> 0 <= a <= 0xFFFF_FFFF
  {
    Sizes();
    assert Contains(c, c.base) && Contains(c, c.base + Size(c.bits) - 1);
  }

  lemma InsideIndex(network: Cidr, bits: nat, i: nat)
    requires network.bits <= bits <= 32
    ensures Inside(network, Candidate(network, bits, i)) <==> i < Pow2(bits - network.bits)
  {
    var s, k := Size(bits), Pow2(bits - network.bits);
    SizeDivides(network.bits, bits);
    assert i * s + s == s * (i + 1);
    if i < k {
      Scaled(s, i + 1, k);
    } else {
      Scaled(s, k, i);
    }
  }

  lemma Scaled(s: int, x: int, y: int)
    requires s >= 1 && x <= y
    ensures s * x <= s * y
  {
    assert s * (y - x) >= 0;
  }

  ghost predicate FreeAt(network: Cidr, existing: seq<Entry>, bits: nat, j: nat)
    requires network.bits <= bits <= 32 && Readings(existing)
  {
    Inside(network, Candidate(network, bits, j)) && !Taken(existing, Candidate(network, bits, j))
  }

  // A scanned block of the network is free.
  ghost predicate FreeInside(network: Cidr, existing: seq<Entry>, bits: nat)
    requires network.bits <= bits <= 32 && Readings(existing)
  {
    exists j: nat :: j < Pow2(32 - bits) && FreeAt(network, existing, bits, j)
  }

  lemma LowerInside(network: Cidr, bits: nat, i: nat, j: nat)
    requires network.bits <= bits <= 32 && i <= j && Inside(network, Candidate(network, bits, j))
    ensures Inside(network, Candidate(network, bits, i))
  {
    InsideIndex(network, bits, i);
    InsideIndex(network, bits, j);
  }

  // The block found lies inside the network exactly if a scanned block of the network is free.
  lemma FoundInside(network: Cidr, existing: seq<Entry>, bits: nat, cidr: Cidr)
    requires network.bits <= bits <= 32 && Readings(existing) && Allocated(network, existing, bits, Found(cidr))
    ensures Inside(network, cidr) <==> FreeInside(network, existing, bits)
  {
    var i: nat :| i < Pow2(32 - bits) && TakenBefore(network, existing, bits, i) && cidr == Candidate(network, bits, i)
                  && Readable(cidr) && !Taken(existing, cidr);
    if Inside(network, cidr) {
      assert FreeAt(network, existing, bits, i);
    }
    if j: nat :| j < Pow2(32 - bits) && FreeAt(network, existing, bits, j) {
      assert !(j < i);
      LowerInside(network, bits, i, j);
    }
  }

  // With readable blocks, a free scanned block of the network is all it takes to find one.
  lemma FreeIsFound(network: Cidr, existing: seq<Entry>, bits: nat, r: Outcome)
    requires Valid(network) && network.bits <= bits <= 32 && Pow2(24) <= network.base
    requires Readings(existing) && !HasMalformed(existing) && Allocated(network, existing, bits, r)
    requires FreeInside(network, existing, bits)
    ensures r.Found?
  {
    var i: nat :| i < Pow2(32 - bits) && FreeAt(network, existing, bits, i);
    InsideIndex(network, bits, i);
    forall j: nat | j <= i ensures Readable(Candidate(network, bits, j)) {
      InsideReadable(network, bits, j);
    }
  }

  // Allocation succeeds inside a network whose first octet is not zero if and only if a scanned block of the
  // network is free.
  lemma InsideIfFree(network: Cidr, existing: seq<Entry>, bits: nat, r: Outcome)
    requires Valid(network) && network.bits <= bits <= 32 && Pow2(24) <= network.base
    requires Readings(existing) && !HasMalformed(existing) && Allocated(network, existing, bits, r)
    ensures r.Found? && Inside(network, r.cidr) <==> FreeInside(network, existing, bits)
  {
    if FreeInside(network, existing, bits) {
      FreeIsFound(network, existing, bits, r);
    }
    if r.Found? {
      FoundInside(network, existing, bits, r.cidr);
    }
  }

  lemma LowerIsEarlier(network: Cidr, bits: nat, j: nat, i: nat)
    requires bits <= 32 && Candidate(network, bits, j).base < Candidate(network, bits, i).base
    ensures j < i
  {
    var s := Size(bits);
    assert s * j == j * s && s * i == i * s;
    LessCancels(s, j, i);
  }

  // No existing block shares an address with the block found, and every lower block scanned shares one.
  lemma FoundIsLowestFree(network: Cidr, existing: seq<Entry>, bits: nat, cidr: Cidr)
    requires network.bits <= bits <= 32 && Readings(existing) && Allocated(network, existing, bits, Found(cidr))
    ensures cidr.bits == bits && !Taken(existing, cidr)
    ensures forall j: nat :: j < Pow2(32 - bits) && Candidate(network, bits, j).base < cidr.base ==> Taken(existing, Candidate(network, bits, j))
  {
    var i: nat :| i < Pow2(32 - bits) && TakenBefore(network, existing, bits, i) && cidr == Candidate(network, bits, i)
                  && Readable(cidr) && !Taken(existing, cidr);
    forall j: nat | Candidate(network, bits, j).base < cidr.base ensures j < i {
      LowerIsEarlier(network, bits, j, i);
    }
  }

  /* Enough room */

  // A block no larger than a candidate shares addresses with one candidate at most.
  lemma SmallHitsOne(network: Cidr, bits: nat, c: Cidr, i: nat, j: nat)
    requires Valid(network) && network.bits <= bits <= 32 && Valid(c) && c.bits >= bits
    requires Shares(c, Candidate(network, bits, i)) && Shares(c, Candidate(network, bits, j))
    ensures i == j
  {
    var s := Size(bits);
    HitBase(network, bits, c, i);
    HitBase(network, bits, c, j);
    assert s * i == i * s && s * j == j * s;
    EqualCancels(s, i, j);
  }

  lemma EqualCancels(s: int, x: int, y: int)
    requires s >= 1 && s * x == s * y
    ensures x == y
  {
    assert s * (x - y) == 0;
  }

  lemma HitBase(network: Cidr, bits: nat, c: Cidr, i: nat)
    requires Valid(network) && network.bits <= bits <= 32 && Valid(c) && c.bits >= bits && Shares(c, Candidate(network, bits, i))
    ensures Candidate(network, bits, i).base == Masked(c.base, bits)
  {
    var n := Candidate(network, bits, i);
    CandidateAligned(network, bits, i);
    if c.bits > bits {
      SmallerShares(c, n);
    } else {
      var a :| Contains(c, a) && Contains(n, a);
      ClearedIs(a, Size(bits), n.base);
      ClearedIs(a, Size(bits), c.base);
    }
  }

  ghost predicate AllSmall(existing: seq<Entry>, bits: nat) {
    forall k :: 0 <= k < |existing| && existing[k].Text? ==> existing[k].cidr.bits >= bits
  }

  // k blocks no larger than a candidate take at most k candidates.
  lemma {:induction false} TakenAtMost(network: Cidr, existing: seq<Entry>, bits: nat, taken: set<nat>)
    requires Valid(network) && network.bits <= bits <= 32 && Readings(existing) && AllSmall(existing, bits)
    requires forall i :: i in taken ==> Taken(existing, Candidate(network, bits, i))
    ensures |taken| <= |existing|
  {
    if taken != {} {
      var n := |existing| - 1;
      var i :| i in taken;
      assert Taken(existing, Candidate(network, bits, i));
      var rest := taken;
      if j :| j in taken && existing[n].Text? && Shares(existing[n].cidr, Candidate(network, bits, j)) {
        rest := taken - {j};
        assert forall j' :: j' in rest && Shares(existing[n].cidr, Candidate(network, bits, j')) ==> j' == j by {
          forall j' | j' in rest && Shares(existing[n].cidr, Candidate(network, bits, j')) ensures j' == j {
            SmallHitsOne(network, bits, existing[n].cidr, j, j');
          }
        }
      }
      forall j | j in rest ensures Taken(existing[..n], Candidate(network, bits, j)) {
        assert Taken(existing, Candidate(network, bits, j));
        var k :| 0 <= k < |existing| && existing[k].Text? && Shares(existing[k].cidr, Candidate(network, bits, j));
        assert k != n;
        assert existing[..n][k] == existing[k];
      }
      TakenAtMost(network, existing[..n], bits, rest);
    }
  }

  function FirstNaturals(n: nat): (s: set<nat>)
    ensures |s| == n && forall i: nat :: i in s <==> i < n
  {
    if n == 0 then {} else FirstNaturals(n - 1) + {n - 1}
  }

  // Fewer blocks than there are scanned candidates in the network leave one of these free.
  lemma SomeFree(network: Cidr, existing: seq<Entry>, bits: nat, n: nat)
    requires Valid(network) && network.bits <= bits <= 32 && Readings(existing) && AllSmall(existing, bits) && |existing| < n
    ensures exists i: nat :: i < n && !Taken(existing, Candidate(network, bits, i))
  {
    if forall i: nat :: i < n ==> Taken(existing, Candidate(network, bits, i)) {
      TakenAtMost(network, existing, bits, FirstNaturals(n));
    }
  }

  lemma InsideReadable(network: Cidr, bits: nat, i: nat)
    requires Valid(network) && network.bits <= bits <= 32 && Pow2(24) <= network.base && i < Pow2(bits - network.bits)
    ensures Readable(Candidate(network, bits, i))
  {
    InsideIndex(network, bits, i);
    Scaled(Size(bits), 0, i);
  }

  // If every existing block is no larger than the blocks allocated and there are fewer of them than blocks
  // in the network and than blocks scanned, allocation succeeds inside the network.
  lemma AllocationSucceeds(network: Cidr, existing: seq<Entry>, bits: nat, r: Outcome)
    requires Valid(network) && network.bits <= bits <= 32 && Pow2(24) <= network.base
    requires Readings(existing) && !HasMalformed(existing) && AllSmall(existing, bits)
    requires |existing| < Pow2(32 - bits) && |existing| < Pow2(bits - network.bits)
    requires Allocated(network, existing, bits, r)
    ensures r.Found? && Inside(network, r.cidr)
  {
    var room := if Pow2(32 - bits) < Pow2(bits - network.bits) then Pow2(32 - bits) else Pow2(bits - network.bits);
    SomeFree(network, existing, bits, room);
    var i: nat :| i < room && !Taken(existing, Candidate(network, bits, i));
    InsideIndex(network, bits, i);
    assert FreeAt(network, existing, bits, i);
    InsideIfFree(network, existing, bits, r);
  }

  /* Dividing networks */

  function DivideTunnel(bits: nat): Option<nat> {
    if 13 <= bits <= 16 then Some(bits + 2)
    else if 9 <= bits <= 12 then Some(bits + 4)
    else if bits <= 8 then Some(bits + 4)
    else None
  }

  function DivideCluster(bits: nat): Option<nat> {
    if 13 < bits <= 18 then Some(24) else if bits <= 12 then Some(22) else None
  }

  method FindTunnelAvailable(network: Cidr, existing: seq<Entry>) returns (r: Outcome)
    requires Valid(network) && Readings(existing)
    ensures r.TooSmall? <==> network.bits > 16
    ensures !r.TooSmall? ==> Allocated(network, existing, network.bits + (if network.bits >= 13 then 2 else 4), r)
    ensures r.Found? ==> r.cidr.bits == network.bits + (if network.bits >= 13 then 2 else 4)
  {
    var bits := DivideTunnel(network.bits);
    if bits.None? {
      return TooSmall;
    }
    r := FindAvailable(network, existing, bits.value);
  }

  method FindClusterAvailable(network: Cidr, existing: seq<Entry>) returns (r: Outcome)
    requires Valid(network) && Readings(existing)
    ensures r.TooSmall? <==> network.bits == 13 || network.bits > 18
    ensures !r.TooSmall? ==> Allocated(network, existing, if network.bits > 13 then 24 else 22, r)
    ensures r.Found? ==> r.cidr.bits == if network.bits > 13 then 24 else 22
  {
    var bits := DivideCluster(network.bits);
    if bits.None? {
      return TooSmall;
    }
    r := FindAvailable(network, existing, bits.value);
  }

  // A tunnel network has room for 4 clusters from length 13 on and for 16 below.
  lemma ClustersInTunnel(network: Cidr, i: nat)
    requires Valid(network) && network.bits <= 16
    ensures Inside(network, Candidate(network, DivideTunnel(network.bits).value, i)) <==> i < if network.bits >= 13 then 4 else 16
  {
    InsideIndex(network, DivideTunnel(network.bits).value, i);
    assert Pow2(2) == 4 && Pow2(4) == 16;
  }

  // Node blocks have 256 addresses from length 14 on and 1024 up to 12.
  lemma NodeBlockSize(bits: nat)
    ensures DivideCluster(bits).None? <==> bits == 13 || bits > 18
    ensures DivideCluster(bits).Some? ==> Size(DivideCluster(bits).value) == if bits > 13 then 256 else 1024
  {
    assert Pow2(8) == 256 && Pow2(10) == 4 * Pow2(8);
  }

  // The first octet of a readable address is not zero.
  lemma ReadableExactly(c: Cidr)
    ensures Readable(c) <==> 1 * 0x100_0000 <= c.base < 256 * 0x100_0000
  {
    Sizes();
  }

  // A cluster network cut out of a tunnel network can be divided for nodes, except that of a /9 tunnel.
  lemma ClusterOfTunnel(bits: nat)
    requires DivideTunnel(bits).Some?
    ensures DivideCluster(DivideTunnel(bits).value).Some? <==> bits != 9
  {
  }

  lemma {:induction false} Pow2Monotone(m: nat, n: nat)
    requires m <= n
    ensures Pow2(m) <= Pow2(n) && (m < n ==> Pow2(m) < Pow2(n))
  {
    if m < n {
      Pow2Monotone(m, n - 1);
    }
  }

  // The scan reaches every cluster block of a tunnel network; it reaches every node block of a cluster network
  // only from /16 on, or for a /12.
  lemma ScanReach(bits: nat)
    requires bits <= 32
    ensures DivideTunnel(bits).Some? ==> var n := DivideTunnel(bits).value; Pow2(n - bits) <= Pow2(32 - n)
    ensures DivideCluster(bits).Some? ==> var n := DivideCluster(bits).value;
      Pow2(n - bits) <= Pow2(32 - n) <==> bits >= 16 || bits == 12
  {
    if DivideTunnel(bits).Some? {
      var n := DivideTunnel(bits).value;
      Pow2Monotone(n - bits, 32 - n);
    }
    if DivideCluster(bits).Some? {
      var n := DivideCluster(bits).value;
      if n - bits <= 32 - n {
        Pow2Monotone(n - bits, 32 - n);
      } else {
        Pow2Monotone(32 - n, n - bits);
      }
    }
  }

  // Where the scan ends within the network, it gives up exactly if all blocks it looks at are taken.
  lemma GivesUpIfTaken(network: Cidr, existing: seq<Entry>, bits: nat, r: Outcome)
    requires Valid(network) && network.bits <= bits <= 32 && Pow2(24) <= network.base && Pow2(32 - bits) <= Pow2(bits - network.bits)
    requires Readings(existing) && !HasMalformed(existing) && Allocated(network, existing, bits, r)
    ensures r == Exhausted <==> forall j: nat :: j < Pow2(32 - bits) ==> Taken(existing, Candidate(network, bits, j))
  {
    forall j: nat | j < Pow2(32 - bits) ensures Readable(Candidate(network, bits, j)) {
      InsideReadable(network, bits, j);
    }
  }

  lemma CandidateValid(network: Cidr, bits: nat, i: nat)
    requires Valid(network) && network.bits <= bits <= 32 && i < Pow2(bits - network.bits)
    ensures Valid(Candidate(network, bits, i))
  {
    CandidateAligned(network, bits, i);
    InsideIndex(network, bits, i);
    Scaled(Size(bits), 0, i);
  }

  // And where it ends before the network does, that leaves the next block unused: with exactly the scanned blocks taken,
  // allocation fails although the block after them lies in the network and is free.
  lemma GivesUpEarly(network: Cidr, existing: seq<Entry>, bits: nat, r: Outcome)
    requires Valid(network) && network.bits <= bits <= 32 && Pow2(24) <= network.base && Pow2(32 - bits) < Pow2(bits - network.bits)
    requires |existing| == Pow2(32 - bits) && forall k: nat :: k < |existing| ==> existing[k] == Text(Candidate(network, bits, k))
    requires Readings(existing) && Allocated(network, existing, bits, r)
    ensures r == Exhausted && FreeAt(network, existing, bits, Pow2(32 - bits))
  {
    var n := Pow2(32 - bits);
    forall j: nat | j < n ensures Taken(existing, Candidate(network, bits, j)) {
      assert Contains(existing[j].cidr, existing[j].cidr.base);
    }
    GivesUpIfTaken(network, existing, bits, r);
    InsideIndex(network, bits, n);
    forall k: nat | k < |existing| ensures !Shares(existing[k].cidr, Candidate(network, bits, n)) {
      CandidateValid(network, bits, k);
      if Shares(existing[k].cidr, Candidate(network, bits, n)) {
        assert Contains(existing[k].cidr, existing[k].cidr.base);
        SmallHitsOne(network, bits, existing[k].cidr, k, n);
      }
    }
  }

  /* A full network */

  const TEN := Cidr(0x0A00_0000, 16)

  lemma Sizes()
    ensures Pow2(14) == 0x4000 && Pow2(16) == 0x1_0000 && Pow2(24) == 0x100_0000 && Pow2(32) == 0x1_0000_0000
  {
    assert Pow2(8) == 0x100;
    Pow2Sum(6, 8);
    Pow2Sum(8, 8);
    Pow2Sum(16, 8);
    Pow2Sum(16, 16);
  }

  // The four /18 blocks of 10.0.0.0/16 are taken: the block handed out next is 10.1.0.0/18, outside the network.
  lemma FullNetworkIsLeft(existing: seq<Entry>, r: Outcome)
    requires Readings(existing) && |existing| == 4 && forall k: nat :: k < 4 ==> existing[k] == Text(Candidate(TEN, 18, k))
    requires Allocated(TEN, existing, 18, r)
    ensures r == Found(Cidr(0x0A01_0000, 18)) && !Inside(TEN, r.cidr)
  {
    Sizes();
    FullNetwork(existing);
    InsideIndex(TEN, 18, 4);
  }

  lemma FullNetwork(existing: seq<Entry>)
    requires Readings(existing) && |existing| == 4 && forall k: nat :: k < 4 ==> existing[k] == Text(Candidate(TEN, 18, k))
    ensures forall j: nat :: j <= 4 ==> Readable(Candidate(TEN, 18, j)) && (Taken(existing, Candidate(TEN, 18, j)) <==> j < 4)
  {
    Sizes();
    forall j: nat | j < 4 ensures Taken(existing, Candidate(TEN, 18, j)) {
      assert Contains(existing[j].cidr, existing[j].cidr.base);
    }
    forall k: nat | k < 4 ensures !Shares(existing[k].cidr, Candidate(TEN, 18, 4)) {
    }
  }
}
