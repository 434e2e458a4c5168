/**
 Carrying out the redistribution plan on the slices, and removing all hints.
 */
module HintMoves {
  import opened Sequences
  import opened Discovery
  import opened ZoneMaps
  import opened Hints

  /* The ledger of planned and made moves */

  function Take(m: Counts, z: Zone): Counts
    requires z in m
  {
    if m[z] == 1 then m - {z} else m[z := m[z] - 1]
  }

  lemma TakeCounts(m: Counts, z: Zone)
    requires z in m
    ensures Sum(Take(m, z)) == Sum(m) - 1
    ensures forall y :: Get(Take(m, z), y) == Get(m, y) - (if y == z then 1 else 0)
  {
    if m[z] == 1 {
      SumRemove(m, z);
    } else {
      SumBump(m, z, -1);
    }
  }

  ghost predicate Positive(m: Counts) {
    forall z :: z in m ==> m[z] > 0
  }

  // Of `plan`, `rest` has not been carried out yet.
  function Done(plan: Counts, rest: Counts, z: Zone): int {
    Get(plan, z) - Get(rest, z)
  }

  // `changes` is the effect of the moves made so far: what each zone received minus what it gave.
  ghost predicate Ledger(giving0: Counts, giving: Counts, receiving0: Counts, receiving: Counts, changes: Counts) {
    && Positive(giving) && Positive(receiving)
    && Sum(giving0) - Sum(giving) == Sum(receiving0) - Sum(receiving)
    && (forall z :: Done(giving0, giving, z) >= 0 && Done(receiving0, receiving, z) >= 0)
    && (forall z :: Get(changes, z) == Done(receiving0, receiving, z) - Done(giving0, giving, z))
  }

  lemma LedgerMove(giving0: Counts, giving: Counts, receiving0: Counts, receiving: Counts, changes: Counts, giver: Zone, receiver: Zone)
    requires Ledger(giving0, giving, receiving0, receiving, changes)
    requires giver in giving && receiver in receiving
    ensures Ledger(giving0, Take(giving, giver), receiving0, Take(receiving, receiver), Bump(Bump(changes, receiver, 1), giver, -1))
  {
    TakeCounts(giving, giver);
    TakeCounts(receiving, receiver);
    var giving', receiving' := Take(giving, giver), Take(receiving, receiver);
    var changes' := Bump(Bump(changes, receiver, 1), giver, -1);
    forall z
      ensures Done(giving0, giving', z) >= 0 && Done(receiving0, receiving', z) >= 0
      ensures Get(changes', z) == Done(receiving0, receiving', z) - Done(giving0, giving', z)
    {
      assert Get(changes, z) == Done(receiving0, receiving, z) - Done(giving0, giving, z);
    }
  }

  /* Moving hints */

  // Every ready endpoint with a zone is hinted for that zone alone.
  predicate OwnHints(es: seq<Endpoint>) {
    forall i :: 0 <= i < |es| && Ready(es[i]) && HasZone(es[i]) ==> es[i].hints == Some([es[i].zone.value])
  }

  // The state of the moves: the plan's rest and the changes made.
  datatype Moves = Moves(giving: Counts, receiving: Counts, changes: Counts)

  ghost predicate MovesOk(m0: Moves, m: Moves) {
    && m0.changes == map[]
    && Ledger(m0.giving, m.giving, m0.receiving, m.receiving, m.changes)
  }

  lemma SingleHintCount(e: Endpoint, z: Zone)
    requires Ready(e) && e.hints.Some? && |e.hints.value| == 1
    ensures EndpointHints(e, z) == if e.hints.value[0] == z then 1 else 0
  {
    var zones := e.hints.value;
    assert zones[..0] == [] && CountZone(zones[..0], z) == 0;
  }

  // What happens to one endpoint, while there is something left to give and to receive: it may be
  // redirected; the ledger accounts for it; and it is redirected if its zone still gives.
  ghost predicate EndpointStep(e: Endpoint, m0: Moves, m: Moves, f: Endpoint, m': Moves) {
    && MovesOk(m0, m') && m'.giving.Keys <= m.giving.Keys
    && f == e.(hints := f.hints) && (f == e || (f.hints.Some? && f.hints.value != [])) && (!Ready(e) ==> f == e)
    && (forall z :: EndpointHints(f, z) - EndpointHints(e, z) == Get(m'.changes, z) - Get(m.changes, z))
    && (forall z :: z in m.giving ==>
          Done(m0.giving, m'.giving, z) - Done(m0.giving, m.giving, z) == (if Ready(e) && e.zone == Some(z) then 1 else 0))
  }

  method MoveEndpoint(e: Endpoint, m0: Moves, m: Moves) returns (f: Endpoint, m': Moves)
    requires Ready(e) && HasZone(e) ==> e.hints == Some([e.zone.value])
    requires MovesOk(m0, m) && |m.receiving| > 0 && NoZone !in m.giving
    ensures EndpointStep(e, m0, m, f, m')
  {
    f, m' := e, m;
    if Ready(e) && HasZone(e) {
      var giver := e.zone.value;
      if giver in m.giving && m.giving[giver] > 0 {
        assert m.receiving.Keys != {};
        var receiver :| receiver in m.receiving.Keys;
        LedgerMove(m0.giving, m.giving, m0.receiving, m.receiving, m.changes, giver, receiver);
        TakeCounts(m.giving, giver);
        f := e.(hints := Some([receiver]));
        m' := Moves(Take(m.giving, giver), Take(m.receiving, receiver), Bump(Bump(m.changes, receiver, 1), giver, -1));
        forall z ensures EndpointHints(f, z) - EndpointHints(e, z) == Get(m'.changes, z) - Get(m.changes, z) {
          SingleHintCount(e, z);
          SingleHintCount(f, z);
        }
      }
    }
  }

  // fs is es with some hints of ready endpoints replaced, none taken away, and the hints by zone changed as the
  // ledger says.
  ghost predicate Redirected(es: seq<Endpoint>, m: Moves, fs: seq<Endpoint>, m': Moves) {
    && |es| == |fs|
    && (forall i :: 0 <= i < |es| ==> fs[i] == es[i].(hints := fs[i].hints))
    && (forall i :: 0 <= i < |es| ==> fs[i] == es[i] || (fs[i].hints.Some? && fs[i].hints.value != []))
    && NotReadyKept(es, fs)
    && (forall z :: HintsIn(fs, z) - HintsIn(es, z) == Get(m'.changes, z) - Get(m.changes, z))
  }

  // Every endpoint of a zone that still wants to give has been moved.
  ghost predicate GaveAll(es: seq<Endpoint>, m0: Moves, m: Moves, m': Moves) {
    forall z :: z in m'.giving ==> z in m.giving && Done(m0.giving, m'.giving, z) - Done(m0.giving, m.giving, z) == ReadyIn(es, z)
  }

  lemma RedirectedSnoc(es: seq<Endpoint>, m: Moves, fs: seq<Endpoint>, m': Moves, e: Endpoint, f: Endpoint, m'': Moves)
    requires Redirected(es, m, fs, m')
    requires f == e.(hints := f.hints) && (f == e || (f.hints.Some? && f.hints.value != [])) && (!Ready(e) ==> f == e)
    requires forall z :: EndpointHints(f, z) - EndpointHints(e, z) == Get(m''.changes, z) - Get(m'.changes, z)
    ensures Redirected(es + [e], m, fs + [f], m'')
  {
    forall z ensures HintsIn(fs + [f], z) - HintsIn(es + [e], z) == Get(m''.changes, z) - Get(m.changes, z) {
      HintsSnoc(es, e, z);
      HintsSnoc(fs, f, z);
    }
  }

  // The state of the scan after the endpoints of es.
  ghost predicate Scanned(es: seq<Endpoint>, m0: Moves, m: Moves, fs: seq<Endpoint>, m': Moves) {
    && MovesOk(m0, m') && m'.giving.Keys <= m.giving.Keys
    && Redirected(es, m, fs, m') && GaveAll(es, m0, m, m')
  }

  lemma ScannedSnoc(es: seq<Endpoint>, m0: Moves, m: Moves, fs: seq<Endpoint>, m': Moves, e: Endpoint, f: Endpoint, m'': Moves)
    requires Scanned(es, m0, m, fs, m') && EndpointStep(e, m0, m', f, m'')
    ensures Scanned(es + [e], m0, m, fs + [f], m'')
  {
    RedirectedSnoc(es, m, fs, m', e, f, m'');
    forall z | z in m''.giving
      ensures z in m.giving && Done(m0.giving, m''.giving, z) - Done(m0.giving, m.giving, z) == ReadyIn(es + [e], z)
    {
      HintsSnoc(es, e, z);
    }
  }

  predicate Finished(m: Moves) {
    |m.giving| == 0 || |m.receiving| == 0
  }

  lemma RedirectedRest(es: seq<Endpoint>, n: nat, m: Moves, fs: seq<Endpoint>, m': Moves)
    requires n <= |es| && Redirected(es[..n], m, fs, m')
    ensures Redirected(es, m, fs + es[n..], m')
    decreases |es| - n
  {
    if n == |es| {
      assert es[..n] == es && fs + es[n..] == fs;
    } else {
      RedirectedSnoc(es[..n], m, fs, m', es[n], es[n], m');
      PrefixStep(es, n);
      RedirectedRest(es, n + 1, m, fs + [es[n]], m');
      assert fs + [es[n]] + es[n + 1..] == fs + es[n..];
    }
  }

  // Works through the endpoints of one slice; stops as soon as nothing is left to give or to receive.
  method RedistributeEndpoints(es: seq<Endpoint>, m0: Moves, m: Moves) returns (fs: seq<Endpoint>, m': Moves, stopped: bool)
    requires OwnHints(es) && MovesOk(m0, m) && NoZone !in m.giving
    ensures MovesOk(m0, m') && m'.giving.Keys <= m.giving.Keys && Redirected(es, m, fs, m')
    ensures if stopped then Finished(m') else Scanned(es, m0, m, fs, m')
  {
    fs, m', stopped := [], m, false;
    while |fs| < |es|
      invariant |fs| <= |es| && Scanned(es[..|fs|], m0, m, fs, m')
    {
      var e := es[|fs|];
      if Ready(e) && (|m'.giving| == 0 || |m'.receiving| == 0) {
        RedirectedRest(es, |fs|, m, fs, m');
        fs, stopped := fs + es[|fs|..], true;
        return;
      }
      var f, next := e, m';
      if Ready(e) {
        f, next := MoveEndpoint(e, m0, m');
      }
      ScannedSnoc(es[..|fs|], m0, m, fs, m', e, f, next);
      PrefixStep(es, |fs|);
      fs, m' := fs + [f], next;
    }
    WholePrefix(es);
  }

  /* All slices */

  ghost predicate SlicesRedirected(ss: seq<EndpointSlice>, ts: seq<EndpointSlice>, m: Moves) {
    && AllSameButHints(ss, ts) && AllNotReadyKept(ss, ts)
    && (forall i :: 0 <= i < |ss| && FullyHinted(ss[i].endpoints) ==> FullyHinted(ts[i].endpoints))
    && (forall z :: TotalHints(ts, z) - TotalHints(ss, z) == Get(m.changes, z))
  }

  ghost predicate SlicesGaveAll(ss: seq<EndpointSlice>, m0: Moves, m: Moves) {
    forall z :: z in m.giving ==> Done(m0.giving, m.giving, z) == TotalReadyIn(ss, z)
  }

  lemma SlicesRedirectedSnoc(ss: seq<EndpointSlice>, ts: seq<EndpointSlice>, m: Moves, s: EndpointSlice, fs: seq<Endpoint>, m': Moves)
    requires SlicesRedirected(ss, ts, m) && Redirected(s.endpoints, m, fs, m')
    ensures SlicesRedirected(ss + [s], ts + [s.(endpoints := fs)], m')
  {
    var t := s.(endpoints := fs);
    forall z ensures TotalHints(ts + [t], z) - TotalHints(ss + [s], z) == Get(m'.changes, z) {
      TotalHintsSnoc(ss, s, z);
      TotalHintsSnoc(ts, t, z);
    }
    assert SameButHints(s, t);
    assert FullyHinted(s.endpoints) ==> FullyHinted(t.endpoints);
  }

  // The state of the scan after the slices of ss.
  ghost predicate SlicesScanned(ss: seq<EndpointSlice>, m0: Moves, ts: seq<EndpointSlice>, m: Moves) {
    && MovesOk(m0, m) && m.giving.Keys <= m0.giving.Keys
    && SlicesRedirected(ss, ts, m) && SlicesGaveAll(ss, m0, m)
  }

  lemma SlicesScannedSnoc(ss: seq<EndpointSlice>, m0: Moves, ts: seq<EndpointSlice>, m: Moves, s: EndpointSlice, fs: seq<Endpoint>, m': Moves)
    requires SlicesScanned(ss, m0, ts, m) && Scanned(s.endpoints, m0, m, fs, m')
    ensures SlicesScanned(ss + [s], m0, ts + [s.(endpoints := fs)], m')
  {
    SlicesRedirectedSnoc(ss, ts, m, s, fs, m');
    forall z | z in m'.giving ensures Done(m0.giving, m'.giving, z) == TotalReadyIn(ss + [s], z) {
      TotalHintsSnoc(ss, s, z);
    }
  }

  lemma SlicesStopped(ss: seq<EndpointSlice>, ts: seq<EndpointSlice>, m: Moves, fs: seq<Endpoint>, m': Moves)
    requires |ts| < |ss| && SlicesRedirected(ss[..|ts|], ts, m)
    requires Redirected(ss[|ts|].endpoints, m, fs, m')
    ensures SlicesRedirected(ss, ts + [ss[|ts|].(endpoints := fs)] + ss[|ts| + 1..], m')
  {
    var n := |ts|;
    SlicesRedirectedSnoc(ss[..n], ts, m, ss[n], fs, m');
    PrefixStep(ss, n);
    SlicesRedirectedRest(ss, n + 1, ts + [ss[n].(endpoints := fs)], m');
  }

  lemma {:induction false} SlicesRedirectedRest(ss: seq<EndpointSlice>, n: nat, ts: seq<EndpointSlice>, m: Moves)
    requires n <= |ss| && SlicesRedirected(ss[..n], ts, m)
    ensures SlicesRedirected(ss, ts + ss[n..], m)
    decreases |ss| - n
  {
    if n == |ss| {
      WholePrefix(ss);
      assert ts + ss[n..] == ts;
    } else {
      forall z ensures HintsIn(ss[n].endpoints, z) - HintsIn(ss[n].endpoints, z) == Get(m.changes, z) - Get(m.changes, z) {
      }
      assert Redirected(ss[n].endpoints, m, ss[n].endpoints, m);
      SlicesRedirectedSnoc(ss[..n], ts, m, ss[n], ss[n].endpoints, m);
      PrefixStep(ss, n);
      SlicesRedirectedRest(ss, n + 1, ts + [ss[n]], m);
      assert ts + [ss[n]] + ss[n + 1..] == ts + ss[n..];
    }
  }

  // One more slice; the slices after it are kept if there is nothing more to move.
  method RedistributeNext(ss: seq<EndpointSlice>, m0: Moves, ts: seq<EndpointSlice>, m: Moves)
    returns (ts': seq<EndpointSlice>, m': Moves, stopped: bool)
    requires forall i :: 0 <= i < |ss| ==> OwnHints(ss[i].endpoints)
    requires NoZone !in m0.giving && |ts| < |ss| && SlicesScanned(ss[..|ts|], m0, ts, m)
    ensures stopped ==> SlicesRedirected(ss, ts', m') && MovesOk(m0, m') && Finished(m')
    ensures !stopped ==> |ts'| == |ts| + 1 && SlicesScanned(ss[..|ts'|], m0, ts', m')
  {
    var s := ss[|ts|];
    var fs;
    fs, m', stopped := RedistributeEndpoints(s.endpoints, m0, m);
    if stopped {
      SlicesStopped(ss, ts, m, fs, m');
      ts' := ts + [s.(endpoints := fs)] + ss[|ts| + 1..];
    } else {
      SlicesScannedSnoc(ss[..|ts|], m0, ts, m, s, fs, m');
      PrefixStep(ss, |ts|);
      ts' := ts + [s.(endpoints := fs)];
    }
  }

  method RedistributeHints(ss: seq<EndpointSlice>, giving: Counts, receiving: Counts)
    returns (ts: seq<EndpointSlice>, changes: Counts, ghost rest: Moves)
    requires forall i :: 0 <= i < |ss| ==> OwnHints(ss[i].endpoints)
    requires Positive(giving) && Positive(receiving) && NoZone !in giving
    ensures AllSameButHints(ss, ts) && AllNotReadyKept(ss, ts) && forall z :: TotalHints(ts, z) - TotalHints(ss, z) == Get(changes, z)
    ensures SlicesRedirected(ss, ts, rest) && changes == rest.changes
    ensures Ledger(giving, rest.giving, receiving, rest.receiving, changes)
    ensures Finished(rest) || SlicesGaveAll(ss, Moves(giving, receiving, map[]), rest)
  {
    var m0 := Moves(giving, receiving, map[]);
    var m := m0;
    ts := [];
    while |ts| < |ss|
      invariant |ts| <= |ss| && SlicesScanned(ss[..|ts|], m0, ts, m)
    {
      var ts', next, stopped := RedistributeNext(ss, m0, ts, m);
      ts, m := ts', next;
      if stopped {
        changes, rest := m.changes, m;
        return;
      }
    }
    WholePrefix(ss);
    changes, rest := m.changes, m;
  }

  /* Removing hints */

  method StripAll(ss: seq<EndpointSlice>) returns (ts: seq<EndpointSlice>)
    ensures AllSameButHints(ss, ts) && NoneHinted(ts)
  {
    ts := [];
    for i := 0 to |ss|
      invariant |ts| == i && NoneHinted(ts)
      invariant forall j :: 0 <= j < i ==> SameButHints(ss[j], ts[j])
    {
      var t := StripSlice(ss[i]);
      ts := ts + [t];
    }
  }

  method StripSlice(s: EndpointSlice) returns (t: EndpointSlice)
    ensures SameButHints(s, t) && Unhinted(t.endpoints)
  {
    var es := s.endpoints;
    for i := 0 to |es|
      invariant |es| == |s.endpoints|
      invariant forall j :: 0 <= j < i ==> es[j] == s.endpoints[j].(hints := None)
      invariant forall j :: i <= j < |es| ==> es[j] == s.endpoints[j]
    {
      es := es[i := es[i].(hints := None)];
    }
    t := s.(endpoints := es);
  }

  // Splits the unchanged slices into those without any hint and those that must be updated to lose theirs.
  method SplitHinted(us: seq<EndpointSlice>) returns (same: seq<EndpointSlice>, moved: seq<EndpointSlice>)
    ensures Splits(us, same, moved)
    ensures NoneHinted(same) && forall i :: 0 <= i < |moved| ==> !Unhinted(moved[i].endpoints)
  {
    same, moved := [], [];
    for i := 0 to |us|
      invariant Splits(us[..i], same, moved)
      invariant NoneHinted(same) && forall j :: 0 <= j < |moved| ==> !Unhinted(moved[j].endpoints)
    {
      PrefixStep(us, i);
      SplitsSnoc(us[..i], same, moved, us[i]);
      var changed := false;
      for j := 0 to |us[i].endpoints|
        invariant changed <==> !Unhinted(us[i].endpoints[..j])
      {
        if us[i].endpoints[j].hints.Some? {
          changed := true;
        }
      }
      WholePrefix(us[i].endpoints);
      if changed {
        moved := moved + [us[i]];
      } else {
        same := same + [us[i]];
      }
    }
    WholePrefix(us);
  }
}
