/**
 Slices grouped by port mapping: what a service's group holds, and why reconciling one group
 leaves the others as they are.
 */
module Groups {
  import opened Discovery
  import opened Keeping
  import opened PortMapping

  predicate InGroup(s: EndpointSlice, service: Service, g: PortMapKey) {
    Owns(service, s) && PortKey(s.ports) == g
  }

  // The slices of ss that the service owns and that have port mapping g.
  function Members(ss: seq<EndpointSlice>, service: Service, g: PortMapKey): seq<EndpointSlice> {
    if ss == [] then []
    else
      var front, s := Members(ss[..|ss| - 1], service, g), ss[|ss| - 1];
      if InGroup(s, service, g) then front + [s] else front
  }

  function Unowned(ss: seq<EndpointSlice>, service: Service): seq<EndpointSlice> {
    if ss == [] then []
    else
      var front, s := Unowned(ss[..|ss| - 1], service), ss[|ss| - 1];
      if Owns(service, s) then front else front + [s]
  }

  // Every desired endpoint stands once among the slices, in an up-to-date version, and no other.
  ghost predicate EndpointsSettled(ss: seq<EndpointSlice>, d: Desired) {
    && (forall k :: Occurrences(ss, k) == Indicator(k in d))
    && (forall i :: 0 <= i < |ss| ==> UpToDate(ss[i].endpoints, d))
  }

  lemma {:induction false} MembersConcat(ss: seq<EndpointSlice>, ts: seq<EndpointSlice>, service: Service, g: PortMapKey)
    ensures Members(ss + ts, service, g) == Members(ss, service, g) + Members(ts, service, g)
  {
    if ts == [] {
      assert ss + ts == ss;
    } else {
      var n := |ts| - 1;
      assert (ss + ts)[..|ss + ts| - 1] == ss + ts[..n];
      MembersConcat(ss, ts[..n], service, g);
    }
  }

  lemma {:induction false} MembersIn(ss: seq<EndpointSlice>, service: Service, g: PortMapKey, i: nat)
    requires i < |Members(ss, service, g)|
    ensures Members(ss, service, g)[i] in ss && InGroup(Members(ss, service, g)[i], service, g)
  {
    var n := |ss| - 1;
    if i < |Members(ss[..n], service, g)| {
      MembersIn(ss[..n], service, g, i);
    }
  }

  // A group whose slices all belong elsewhere is empty; one whose slices all belong here is everything.
  lemma {:induction false} MembersAll(ss: seq<EndpointSlice>, service: Service, g: PortMapKey)
    ensures (forall i :: 0 <= i < |ss| ==> InGroup(ss[i], service, g)) ==> Members(ss, service, g) == ss
    ensures (forall i :: 0 <= i < |ss| ==> !InGroup(ss[i], service, g)) ==> Members(ss, service, g) == []
  {
    if ss != [] {
      MembersAll(ss[..|ss| - 1], service, g);
    }
  }

  lemma {:induction false} MembersDistinct(ss: seq<EndpointSlice>, service: Service, g: PortMapKey)
    requires DistinctNames(ss)
    ensures DistinctNames(Members(ss, service, g))
  {
    if ss != [] {
      var n := |ss| - 1;
      MembersDistinct(ss[..n], service, g);
      forall i | 0 <= i < |Members(ss[..n], service, g)| ensures Members(ss[..n], service, g)[i].name != ss[n].name {
        MembersIn(ss[..n], service, g, i);
      }
    }
  }

  lemma {:induction false} UnownedIn(ss: seq<EndpointSlice>, service: Service)
    ensures forall s :: s in Unowned(ss, service) <==> s in ss && !Owns(service, s)
    ensures DistinctNames(ss) ==> DistinctNames(Unowned(ss, service))
  {
    if ss != [] {
      var n := |ss| - 1;
      UnownedIn(ss[..n], service);
      assert ss == ss[..n] + [ss[n]];
      if DistinctNames(ss) && !Owns(service, ss[n]) {
        forall i | 0 <= i < |Unowned(ss[..n], service)| ensures Unowned(ss[..n], service)[i].name != ss[n].name {
          assert Unowned(ss[..n], service)[i] in ss[..n];
        }
      }
    }
  }

  lemma {:induction false} UnownedNone(ss: seq<EndpointSlice>, service: Service)
    requires forall i :: 0 <= i < |ss| ==> Owns(service, ss[i])
    ensures Unowned(ss, service) == []
  {
    if ss != [] {
      UnownedNone(ss[..|ss| - 1], service);
    }
  }

  /* Applying lists group by group */

  // Where s is concerned, the two pairs of lists say the same.
  ghost predicate SameFor(s: EndpointSlice, update: seq<EndpointSlice>, delete: seq<EndpointSlice>,
                          update': seq<EndpointSlice>, delete': seq<EndpointSlice>) {
    && (s.name in Names(delete) <==> s.name in Names(delete'))
    && FindByName(update, s.name) == FindByName(update', s.name)
  }

  lemma {:induction false} AppliedSame(ss: seq<EndpointSlice>, update: seq<EndpointSlice>, delete: seq<EndpointSlice>,
                                       update': seq<EndpointSlice>, delete': seq<EndpointSlice>)
    requires forall i :: 0 <= i < |ss| ==> SameFor(ss[i], update, delete, update', delete')
    ensures Applied(ss, update, delete) == Applied(ss, update', delete')
  {
    if ss != [] {
      AppliedSame(ss[..|ss| - 1], update, delete, update', delete');
      assert SameFor(ss[|ss| - 1], update, delete, update', delete');
    }
  }

  // Updates keep the group of a slice.
  ghost predicate KeepsGroups(ss: seq<EndpointSlice>, update: seq<EndpointSlice>, delete: seq<EndpointSlice>) {
    forall i :: 0 <= i < |ss| && ss[i].name !in Names(delete) ==> SameIdentity(ss[i], Resolve(update, ss[i]))
  }

  lemma {:induction false} MembersApplied(ss: seq<EndpointSlice>, update: seq<EndpointSlice>, delete: seq<EndpointSlice>,
                                          service: Service, g: PortMapKey)
    requires KeepsGroups(ss, update, delete)
    ensures Members(Applied(ss, update, delete), service, g) == Applied(Members(ss, service, g), update, delete)
  {
    if ss != [] {
      var n := |ss| - 1;
      MembersApplied(ss[..n], update, delete, service, g);
      var front := Applied(ss[..n], update, delete);
      if ss[n].name !in Names(delete) {
        assert SameIdentity(ss[n], Resolve(update, ss[n]));
        var t := Resolve(update, ss[n]);
        assert (front + [t])[..|front|] == front;
        assert InGroup(t, service, g) <==> InGroup(ss[n], service, g);
      } else {
        assert front + [] == front;
      }
      if InGroup(ss[n], service, g) {
        var ms := Members(ss[..n], service, g);
        assert (ms + [ss[n]])[..|ms|] == ms;
      }
    }
  }

  lemma {:induction false} FindAppended(update: seq<EndpointSlice>, more: seq<EndpointSlice>, name: Name)
    ensures FindByName(update + more, name) == if FindByName(more, name).Some? then FindByName(more, name) else FindByName(update, name)
  {
    if more == [] {
      assert update + more == update;
    } else {
      var n := |more| - 1;
      assert (update + more)[..|update + more| - 1] == update + more[..n];
      FindAppended(update, more[..n], name);
    }
  }

  lemma {:induction false} FindNone(ss: seq<EndpointSlice>, name: Name)
    ensures FindByName(ss, name).None? <==> name !in Names(ss)
    ensures FindByName(ss, name).Some? ==> FindByName(ss, name).value in ss && FindByName(ss, name).value.name == name
  {
    if ss != [] {
      var n := |ss| - 1;
      FindNone(ss[..n], name);
      assert ss == ss[..n] + [ss[n]];
    }
  }

  lemma NamesConcat(ss: seq<EndpointSlice>, ts: seq<EndpointSlice>)
    ensures Names(ss + ts) == Names(ss) + Names(ts)
  {
    forall n | n in Names(ts) ensures n in Names(ss + ts) {
      var i := NameIndex(ts, n);
      assert (ss + ts)[|ss| + i].name == n;
    }
    forall n | n in Names(ss) ensures n in Names(ss + ts) {
      var i := NameIndex(ss, n);
      assert (ss + ts)[i].name == n;
    }
  }

  // Appending lists that do not name s changes nothing for s.
  lemma AppendedElsewhere(s: EndpointSlice, update: seq<EndpointSlice>, delete: seq<EndpointSlice>,
                          update': seq<EndpointSlice>, delete': seq<EndpointSlice>)
    requires s.name !in Names(update') && s.name !in Names(delete')
    ensures SameFor(s, update + update', delete + delete', update, delete)
  {
    FindAppended(update, update', s.name);
    FindNone(update', s.name);
    NamesConcat(delete, delete');
  }

  // Appending lists to ones that do not name s leaves what the appended lists say.
  lemma AppendedHere(s: EndpointSlice, update: seq<EndpointSlice>, delete: seq<EndpointSlice>,
                     update': seq<EndpointSlice>, delete': seq<EndpointSlice>)
    requires s.name !in Names(update) && s.name !in Names(delete)
    ensures SameFor(s, update + update', delete + delete', update', delete')
  {
    FindAppended(update, update', s.name);
    FindNone(update, s.name);
    NamesConcat(delete, delete');
  }
}
