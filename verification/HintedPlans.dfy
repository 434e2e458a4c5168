/**
 Why writing hints, and naming slices, leaves a plan's outcome as it is.
 */
module HintedPlans {
  import opened Sequences
  import opened Discovery
  import opened SliceLabels
  import opened Keeping
  import opened PortMapping
  import opened DesiredEndpoints
  import opened Groups
  import opened GroupProgress
  import opened Placeholders
  import opened Hints

  // The two slices differ at most in their name and in hints.
  predicate Alike(s: EndpointSlice, t: EndpointSlice) {
    SameButHints(s.(name := t.name), t)
  }

  predicate AllAlike(ss: seq<EndpointSlice>, ts: seq<EndpointSlice>) {
    |ss| == |ts| && forall i :: 0 <= i < |ss| ==> Alike(ss[i], ts[i])
  }

  // The slices differ at most in their names.
  predicate AllRenamed(ss: seq<EndpointSlice>, ts: seq<EndpointSlice>) {
    |ss| == |ts| && forall i :: 0 <= i < |ss| ==> ts[i] == ss[i].(name := ts[i].name)
  }

  lemma RenamedIsAlike(ss: seq<EndpointSlice>, ts: seq<EndpointSlice>)
    requires AllRenamed(ss, ts)
    ensures AllAlike(ss, ts)
  {
  }

  lemma SameIsAlike(ss: seq<EndpointSlice>, ts: seq<EndpointSlice>)
    requires AllSameButHints(ss, ts)
    ensures AllAlike(ss, ts)
  {
    forall i | 0 <= i < |ss| ensures Alike(ss[i], ts[i]) {
      assert SameButHints(ss[i], ts[i]);
    }
  }

  lemma {:induction false} AlikeMembers(ss: seq<EndpointSlice>, ts: seq<EndpointSlice>, service: Service, g: PortMapKey)
    requires AllAlike(ss, ts)
    ensures AllAlike(Members(ss, service, g), Members(ts, service, g))
  {
    if ss != [] {
      var n := |ss| - 1;
      AlikeMembers(ss[..n], ts[..n], service, g);
      assert Alike(ss[n], ts[n]);
      assert InGroup(ss[n], service, g) <==> InGroup(ts[n], service, g);
    }
  }

  lemma {:induction false} CountKeyAlike(es: seq<Endpoint>, fs: seq<Endpoint>, k: EndpointKey)
    requires |es| == |fs| && forall i :: 0 <= i < |es| ==> fs[i] == es[i].(hints := fs[i].hints)
    ensures CountKey(es, k) == CountKey(fs, k)
  {
    if es != [] {
      CountKeyAlike(es[..|es| - 1], fs[..|fs| - 1], k);
    }
  }

  lemma {:induction false} OccurrencesAlike(ss: seq<EndpointSlice>, ts: seq<EndpointSlice>, k: EndpointKey)
    requires AllAlike(ss, ts)
    ensures Occurrences(ss, k) == Occurrences(ts, k)
  {
    if ss != [] {
      var n := |ss| - 1;
      OccurrencesAlike(ss[..n], ts[..n], k);
      assert Alike(ss[n], ts[n]);
      CountKeyAlike(ss[n].endpoints, ts[n].endpoints, k);
    }
  }

  lemma AlikeUpToDate(s: EndpointSlice, t: EndpointSlice, d: Desired)
    requires Alike(s, t) && UpToDate(s.endpoints, d)
    ensures UpToDate(t.endpoints, d)
  {
    forall e | e in t.endpoints ensures e.key in d && EqualBeyondHash(d[e.key], e) {
      var j :| 0 <= j < |t.endpoints| && t.endpoints[j] == e;
      assert s.endpoints[j] in s.endpoints;
    }
  }

  // Neither names nor hints matter to which endpoints stand where.
  lemma AlikeSettled(ss: seq<EndpointSlice>, ts: seq<EndpointSlice>, d: Desired)
    requires AllAlike(ss, ts) && EndpointsSettled(ss, d)
    ensures EndpointsSettled(ts, d)
  {
    forall k ensures Occurrences(ts, k) == Indicator(k in d) {
      OccurrencesAlike(ss, ts, k);
    }
    forall i | 0 <= i < |ts| ensures UpToDate(ts[i].endpoints, d) {
      assert Alike(ss[i], ts[i]) && UpToDate(ss[i].endpoints, d);
      AlikeUpToDate(ss[i], ts[i], d);
    }
  }

  lemma AlikeSettledGroup(ss: seq<EndpointSlice>, ts: seq<EndpointSlice>, service: Service, g: PortMapKey, d: Desired)
    requires AllAlike(ss, ts) && EndpointsSettled(Members(ss, service, g), d)
    ensures EndpointsSettled(Members(ts, service, g), d)
  {
    AlikeMembers(ss, ts, service, g);
    AlikeSettled(Members(ss, service, g), Members(ts, service, g), d);
  }

  lemma AlikeOwned(ss: seq<EndpointSlice>, ts: seq<EndpointSlice>, service: Service)
    requires AllAlike(ss, ts)
    ensures OwnedSurvivor(ss, service) <==> OwnedSurvivor(ts, service)
  {
    forall i | 0 <= i < |ss| ensures Owns(service, ss[i]) <==> Owns(service, ts[i]) {
      assert Alike(ss[i], ts[i]);
    }
  }

  lemma AlikeFullySettled(ss: seq<EndpointSlice>, ts: seq<EndpointSlice>, d: Desired, service: Service)
    requires AllAlike(ss, ts) && Settled(ss, d, service)
    ensures Settled(ts, d, service)
  {
    forall k ensures Occurrences(ts, k) == Indicator(k in d) {
      OccurrencesAlike(ss, ts, k);
    }
    forall t | t in ts ensures MirrorsLabels(t, service) && UpToDate(t.endpoints, d) {
      var i :| 0 <= i < |ts| && ts[i] == t;
      assert Alike(ss[i], ts[i]) && ss[i] in ss;
      AlikeUpToDate(ss[i], t, d);
    }
  }

  lemma AlikeAt(s: EndpointSlice, t: EndpointSlice, service: Service, placeholder: EndpointSlice)
    requires Alike(s, t)
    ensures Owns(service, s) == Owns(service, t) && PortKey(s.ports) == PortKey(t.ports)
    ensures placeholder.endpoints == [] ==> (PlaceholderEqual(s, placeholder) <==> PlaceholderEqual(t, placeholder))
  {
  }

  // Nor do they matter to whether anything has to change.
  lemma AlikeStable(ss: seq<EndpointSlice>, ts: seq<EndpointSlice>, service: Service, placeholder: EndpointSlice, d: DesiredByPorts)
    requires AllAlike(ss, ts) && placeholder.endpoints == [] && Stable(ss, service, placeholder, d)
    ensures Stable(ts, service, placeholder, d)
  {
    forall g | g in d ensures Settled(Members(ts, service, g), d[g], service) {
      AlikeMembers(ss, ts, service, g);
      AlikeFullySettled(Members(ss, service, g), Members(ts, service, g), d[g], service);
    }
    forall i | 0 <= i < |ss|
      ensures Owns(service, ss[i]) == Owns(service, ts[i]) && PortKey(ss[i].ports) == PortKey(ts[i].ports)
      ensures PlaceholderEqual(ss[i], placeholder) <==> PlaceholderEqual(ts[i], placeholder)
    {
      assert Alike(ss[i], ts[i]);
      AlikeAt(ss[i], ts[i], service, placeholder);
    }
  }

  /* The slices that are neither updated nor deleted */

  function Unnamed(ss: seq<EndpointSlice>, names: set<Name>): seq<EndpointSlice> {
    if ss == [] then []
    else
      var front, s := Unnamed(ss[..|ss| - 1], names), ss[|ss| - 1];
      if s.name in names then front else front + [s]
  }

  lemma {:induction false} UnnamedIn(ss: seq<EndpointSlice>, names: set<Name>)
    ensures forall s :: s in Unnamed(ss, names) <==> s in ss && s.name !in names
    ensures DistinctNames(ss) ==> DistinctNames(Unnamed(ss, names))
  {
    if ss != [] {
      var n := |ss| - 1;
      UnnamedIn(ss[..n], names);
      assert ss == ss[..n] + [ss[n]];
      if DistinctNames(ss) && ss[n].name !in names {
        forall i | 0 <= i < |Unnamed(ss[..n], names)| ensures Unnamed(ss[..n], names)[i].name != ss[n].name {
          assert Unnamed(ss[..n], names)[i] in ss[..n];
        }
      }
    }
  }

  method UnchangedSlices(existing: seq<EndpointSlice>, update: seq<EndpointSlice>, delete: seq<EndpointSlice>)
    returns (same: seq<EndpointSlice>)
    ensures same == Unnamed(existing, Names(update) + Names(delete))
  {
    var changed := Names(update) + Names(delete);
    same := [];
    for i := 0 to |existing|
      invariant same == Unnamed(existing[..i], changed)
    {
      PrefixStep(existing, i);
      if existing[i].name !in changed {
        same := same + [existing[i]];
      }
    }
    WholePrefix(existing);
  }

  /* Hints */

  // The hints pass touched only plan p's creates and updates and unchanged slices.
  ghost predicate HintsWritten(existing: seq<EndpointSlice>, p: Plan, q: Plan, moved: seq<EndpointSlice>) {
    && q.delete == p.delete
    && exists same :: OnlyHintsChanged(p.create, p.update, Unnamed(existing, Names(p.update) + Names(p.delete)), q.create, q.update, same, moved)
  }

  lemma MovedTwice(us: seq<EndpointSlice>, kept: seq<EndpointSlice>, moved: seq<EndpointSlice>, i: nat, j: nat)
    requires Splits(us, kept, moved) && DistinctNames(us) && i < j < |moved|
    ensures moved[i].name != moved[j].name
  {
    assert moved[i] in multiset(us) && moved[j] in multiset(us);
    if moved[i] == moved[j] {
      assert moved == moved[..j] + moved[j..];
      assert moved[i] in moved[..j] && moved[i] in moved[j..];
      assert multiset(moved)[moved[i]] >= 2;
      DistinctOnce(us, moved[i]);
      assert false;
    }
  }

  lemma {:induction false} DistinctOnce(us: seq<EndpointSlice>, s: EndpointSlice)
    requires DistinctNames(us)
    ensures multiset(us)[s] <= 1
  {
    if us != [] {
      var n := |us| - 1;
      DistinctOnce(us[..n], s);
      assert us == us[..n] + [us[n]];
      if s == us[n] {
        assert s !in us[..n];
      }
    }
  }

  // The unchanged slices that were moved have names of their own.
  lemma MovedDistinct(us: seq<EndpointSlice>, kept: seq<EndpointSlice>, moved: seq<EndpointSlice>)
    requires Splits(us, kept, moved) && DistinctNames(us)
    ensures DistinctNames(moved) && forall i :: 0 <= i < |moved| ==> moved[i] in us
  {
    forall i, j | 0 <= i < j < |moved| ensures moved[i].name != moved[j].name {
      MovedTwice(us, kept, moved, i, j);
    }
    forall i | 0 <= i < |moved| ensures moved[i] in us {
      assert moved[i] in multiset(us);
    }
  }

  lemma SameNames(ss: seq<EndpointSlice>, ts: seq<EndpointSlice>)
    requires AllSameButHints(ss, ts)
    ensures Names(ss) == Names(ts) && (DistinctNames(ss) ==> DistinctNames(ts))
  {
    forall i | 0 <= i < |ss| ensures ss[i].name == ts[i].name {
      assert SameButHints(ss[i], ts[i]);
    }
    forall n | n in Names(ss) ensures n in Names(ts) {
      var i := NameIndex(ss, n);
    }
    forall n | n in Names(ts) ensures n in Names(ss) {
      var i := NameIndex(ts, n);
    }
  }

  // What the hints pass moved are existing slices that the plan leaves alone.
  lemma MovedUnmentioned(existing: seq<EndpointSlice>, p: Plan, q: Plan, moved: seq<EndpointSlice>)
    requires DistinctNames(existing) && HintsWritten(existing, p, q, moved)
    ensures DistinctNames(moved) && AllSameButHints(p.update + moved, q.update) && AllSameButHints(p.create, q.create)
    ensures forall i :: 0 <= i < |moved| ==> moved[i] in existing && !Mentions(p, moved[i])
  {
    var names := Names(p.update) + Names(p.delete);
    var us := Unnamed(existing, names);
    UnnamedIn(existing, names);
    var same :| OnlyHintsChanged(p.create, p.update, us, q.create, q.update, same, moved);
    MovedDistinct(us, same, moved);
  }

  lemma HintedNames(existing: seq<EndpointSlice>, p: Plan, q: Plan, moved: seq<EndpointSlice>)
    requires DistinctNames(existing) && Consistent(existing, p) && HintsWritten(existing, p, q, moved)
    ensures DistinctNames(q.update) && Names(q.update) <= Names(existing) && Names(q.update) !! Names(q.delete)
  {
    MovedUnmentioned(existing, p, q, moved);
    forall n | n in Names(moved) ensures n !in Names(p.update) && n !in Names(p.delete) && n in Names(existing) {
      var i := NameIndex(moved, n);
      assert moved[i] in existing;
    }
    DistinctJoined(p.update, moved);
    NamesConcat(p.update, moved);
    SameNames(p.update + moved, q.update);
  }

  // Each surviving slice is written with the same endpoints as before the hints pass.
  lemma ResolveHinted(existing: seq<EndpointSlice>, p: Plan, q: Plan, moved: seq<EndpointSlice>, l: nat)
    requires DistinctNames(existing) && Consistent(existing, p) && HintsWritten(existing, p, q, moved) && l < |existing|
    ensures SameButHints(Resolve(p.update, existing[l]), Resolve(q.update, existing[l]))
  {
    var s := existing[l];
    MovedUnmentioned(existing, p, q, moved);
    HintedNames(existing, p, q, moved);
    FindEnumerated(q.update, s.name);
    FindEnumerated(p.update, s.name);
    SameNames(p.update + moved, q.update);
    NamesConcat(p.update, moved);
    if s.name in Names(p.update) {
      var i := NameIndex(p.update, s.name);
      assert SameButHints((p.update + moved)[i], q.update[i]);
    } else if s.name in Names(moved) {
      var j := NameIndex(moved, s.name);
      assert SameButHints((p.update + moved)[|p.update| + j], q.update[|p.update| + j]);
      var i :| 0 <= i < |existing| && existing[i] == moved[j];
      assert i == l;
    }
  }

  lemma {:induction false} AppliedHinted(ss: seq<EndpointSlice>, update: seq<EndpointSlice>, update': seq<EndpointSlice>, delete: seq<EndpointSlice>)
    requires forall i :: 0 <= i < |ss| ==> SameButHints(Resolve(update, ss[i]), Resolve(update', ss[i]))
    ensures AllSameButHints(Applied(ss, update, delete), Applied(ss, update', delete))
  {
    if ss != [] {
      var n := |ss| - 1;
      AppliedHinted(ss[..n], update, update', delete);
      assert SameButHints(Resolve(update, ss[n]), Resolve(update', ss[n]));
    }
  }

  lemma HintedOutcome(existing: seq<EndpointSlice>, p: Plan, q: Plan, moved: seq<EndpointSlice>)
    requires DistinctNames(existing) && Consistent(existing, p) && HintsWritten(existing, p, q, moved)
    ensures AllSameButHints(Outcome(existing, p), Outcome(existing, q))
  {
    forall i | 0 <= i < |existing| ensures SameButHints(Resolve(p.update, existing[i]), Resolve(q.update, existing[i])) {
      ResolveHinted(existing, p, q, moved, i);
    }
    AppliedHinted(existing, p.update, q.update, p.delete);
    MovedUnmentioned(existing, p, q, moved);
    AllSameButHintsConcat(Applied(existing, p.update, p.delete), p.create, Applied(existing, q.update, p.delete), q.create);
  }

  lemma HintedConsistent(existing: seq<EndpointSlice>, p: Plan, q: Plan, moved: seq<EndpointSlice>)
    requires DistinctNames(existing) && Consistent(existing, p) && HintsWritten(existing, p, q, moved)
    ensures Consistent(existing, q)
  {
    HintedNames(existing, p, q, moved);
    forall i | 0 <= i < |existing| && existing[i].name !in Names(q.delete)
      ensures SameIdentity(existing[i], Resolve(q.update, existing[i]))
    {
      ResolveHinted(existing, p, q, moved, i);
      assert SameIdentity(existing[i], Resolve(p.update, existing[i]));
    }
  }

  // A plan stays a plan when hints are written.
  lemma HintedPlanned(existing: seq<EndpointSlice>, service: Service, addressType: AddressType, d: DesiredByPorts, p: Plan, q: Plan,
                      moved: seq<EndpointSlice>)
    requires DistinctNames(existing) && Planned(existing, service, addressType, d, p) && HintsWritten(existing, p, q, moved)
    ensures Planned(existing, service, addressType, d, q) && AllAlike(Outcome(existing, p), Outcome(existing, q))
  {
    HintedConsistent(existing, p, q, moved);
    HintedOutcome(existing, p, q, moved);
    SameIsAlike(Outcome(existing, p), Outcome(existing, q));
    MovedUnmentioned(existing, p, q, moved);
    forall i | 0 <= i < |q.create|
      ensures Owns(service, q.create[i]) && q.create[i].name == Unset && q.create[i].addressType == addressType
    {
      assert SameButHints(p.create[i], q.create[i]);
    }
    forall g ensures EndpointsSettled(Members(Outcome(existing, q), service, g), Want(d, g)) {
      AlikeSettledGroup(Outcome(existing, p), Outcome(existing, q), service, g, Want(d, g));
    }
  }

  /* Without hints */

  // A slice that no list names after the hints pass was left alone by it.
  lemma UnnamedStays(existing: seq<EndpointSlice>, p: Plan, q: Plan, same: seq<EndpointSlice>, moved: seq<EndpointSlice>, i: nat)
    requires OnlyHintsChanged(p.create, p.update, Unnamed(existing, Names(p.update) + Names(p.delete)), q.create, q.update, same, moved)
    requires i < |existing| && existing[i].name !in Names(q.update) && existing[i].name !in Names(p.delete)
    ensures existing[i] in same
  {
    var names := Names(p.update) + Names(p.delete);
    SameNames(p.update + moved, q.update);
    NamesConcat(p.update, moved);
    UnnamedIn(existing, names);
    assert existing[i] in multiset(Unnamed(existing, names));
    assert existing[i] !in moved;
  }

  // Once every list is free of hints, so is the outcome.
  lemma StrippedOutcome(existing: seq<EndpointSlice>, p: Plan, q: Plan, same: seq<EndpointSlice>, moved: seq<EndpointSlice>)
    requires OnlyHintsChanged(p.create, p.update, Unnamed(existing, Names(p.update) + Names(p.delete)), q.create, q.update, same, moved)
    requires q.delete == p.delete && NoneHinted(q.create) && NoneHinted(q.update) && NoneHinted(same)
    ensures NoneHinted(Outcome(existing, q))
  {
    var applied := Applied(existing, q.update, q.delete);
    forall j | 0 <= j < |applied| ensures Unhinted(applied[j].endpoints) {
      assert applied[j] in applied;
      var i := AppliedMember(existing, q.update, q.delete, applied[j]);
      FindNone(q.update, existing[i].name);
      if existing[i].name !in Names(q.update) {
        UnnamedStays(existing, p, q, same, moved, i);
      }
    }
  }

  lemma HintedBranded(existing: seq<EndpointSlice>, p: Plan, q: Plan, moved: seq<EndpointSlice>, blank: EndpointSlice)
    requires HintsWritten(existing, p, q, moved) && Branded(p.create, blank)
    ensures Branded(q.create, blank)
  {
    forall i | 0 <= i < |q.create|
      ensures q.create[i].namespace == blank.namespace && q.create[i].labels == blank.labels && q.create[i].owners == blank.owners
    {
      assert SameButHints(p.create[i], q.create[i]);
    }
  }

  lemma {:induction false} UnnamedAll(ss: seq<EndpointSlice>)
    ensures Unnamed(ss, {}) == ss
  {
    if ss != [] {
      UnnamedAll(ss[..|ss| - 1]);
    }
  }

  // Where nothing else is to be written, the hints pass writes something exactly if it takes up a slice.
  lemma OnlyTakenUp(existing: seq<EndpointSlice>, q: Plan, same: seq<EndpointSlice>, moved: seq<EndpointSlice>)
    requires OnlyHintsChanged([], [], existing, q.create, q.update, same, moved) && q.delete == []
    ensures q == Plan([], [], []) <==> moved == []
  {
  }
}
