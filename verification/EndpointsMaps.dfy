/**
 The proxy's endpoints map, kept up to date by the changes checked out of the cache.
 */
module EndpointsMaps {
  import opened Sequences
  import opened EndpointGroups
  import opened EndpointSliceCache
  import PE = ProxyEndpoints

  function AppliedAt(ts: Trackers, k: NamespacedName): SlicesByName {
    TrackerOf(ts, k).applied
  }

  // m is the union of the endpoints maps of all services.
  ghost predicate Agrees(c: Config, ts: Trackers, m: EndpointsByPort) {
    forall spn :: PortAgrees(c, ts, m, spn)
  }

  ghost predicate PortAgrees(c: Config, ts: Trackers, m: EndpointsByPort, spn: ServicePortName) {
    && (spn in m ==> exists k :: HasPort(c, AppliedAt(ts, k), spn))
    && (forall k :: HasPort(c, AppliedAt(ts, k), spn) ==> spn in m && PE.ListOf(Yielded(c, AppliedAt(ts, k), spn), m[spn]))
  }

  /* One change */

  function Exchanged(m: EndpointsByPort, change: Change): EndpointsByPort {
    (m - change.previous.Keys) + change.current
  }

  // No other service has a port of the slices.
  ghost predicate Alone(c: Config, ts: Trackers, k: NamespacedName, slices: SlicesByName) {
    forall k', spn :: k' != k && HasPort(c, AppliedAt(ts, k'), spn) ==> !HasPort(c, slices, spn)
  }

  lemma ExchangedPort(c: Config, ts: Trackers, ts': Trackers, m: EndpointsByPort, k: NamespacedName, change: Change, spn: ServicePortName)
    requires PortAgrees(c, ts, m, spn)
    requires forall k' :: k' != k ==> AppliedAt(ts', k') == AppliedAt(ts, k')
    requires ChangeFor(c, AppliedAt(ts, k), AppliedAt(ts', k), change)
    requires Alone(c, ts, k, AppliedAt(ts, k)) && Alone(c, ts, k, AppliedAt(ts', k))
    ensures PortAgrees(c, ts', Exchanged(m, change), spn)
  {
    var m' := Exchanged(m, change);
    assert PortListed(c, AppliedAt(ts, k), spn, change.previous);
    assert PortListed(c, AppliedAt(ts', k), spn, change.current);
    if spn in change.current {
      assert HasPort(c, AppliedAt(ts', k), spn);
    } else if spn in m' {
      var k' :| HasPort(c, AppliedAt(ts, k'), spn);
      assert HasPort(c, AppliedAt(ts', k'), spn);
    }
  }

  lemma ExchangedAgrees(c: Config, ts: Trackers, ts': Trackers, m: EndpointsByPort, k: NamespacedName, change: Change)
    requires Agrees(c, ts, m)
    requires forall k' :: k' != k ==> AppliedAt(ts', k') == AppliedAt(ts, k')
    requires ChangeFor(c, AppliedAt(ts, k), AppliedAt(ts', k), change)
    requires Alone(c, ts, k, AppliedAt(ts, k)) && Alone(c, ts, k, AppliedAt(ts', k))
    ensures Agrees(c, ts', Exchanged(m, change))
  {
    forall spn ensures PortAgrees(c, ts', Exchanged(m, change), spn) {
      ExchangedPort(c, ts, ts', m, k, change, spn);
    }
  }

  /* All changes, in any order */

  ghost predicate Enumerates(order: seq<NamespacedName>, keys: set<NamespacedName>) {
    NoDuplicates(order) && forall k :: k in order <==> k in keys
  }

  ghost predicate AllIn(order: seq<NamespacedName>, changes: Changes) {
    forall i :: 0 <= i < |order| ==> order[i] in changes
  }

  ghost function Folded(m: EndpointsByPort, changes: Changes, order: seq<NamespacedName>): EndpointsByPort
    requires AllIn(order, changes)
  {
    if order == [] then m else Exchanged(Folded(m, changes, order[..|order| - 1]), changes[order[|order| - 1]])
  }

  // The trackers with the changes of `order` applied.
  ghost function Mixed(was: Trackers, now: Trackers, order: seq<NamespacedName>): Trackers {
    if order == [] then was
    else var k := order[|order| - 1]; Mixed(was, now, order[..|order| - 1])[k := TrackerOf(now, k)]
  }

  lemma {:induction false} MixedAt(was: Trackers, now: Trackers, order: seq<NamespacedName>, k: NamespacedName)
    ensures AppliedAt(Mixed(was, now, order), k) == AppliedAt(if k in order then now else was, k)
  {
    if order != [] {
      var n := |order| - 1;
      MixedAt(was, now, order[..n], k);
      assert order == order[..n] + [order[n]];
    }
  }

  // Before or after, a port belongs to one service only.
  ghost predicate Apart(c: Config, was: Trackers, now: Trackers) {
    forall k, k', spn :: k != k' && PortBeforeOrAfter(c, was, now, k, spn) ==> !PortBeforeOrAfter(c, was, now, k', spn)
  }

  ghost predicate PortBeforeOrAfter(c: Config, was: Trackers, now: Trackers, k: NamespacedName, spn: ServicePortName) {
    HasPort(c, AppliedAt(was, k), spn) || HasPort(c, AppliedAt(now, k), spn)
  }

  lemma MixedAlone(c: Config, was: Trackers, now: Trackers, order: seq<NamespacedName>, k: NamespacedName)
    requires Apart(c, was, now)
    ensures Alone(c, Mixed(was, now, order), k, AppliedAt(was, k)) && Alone(c, Mixed(was, now, order), k, AppliedAt(now, k))
  {
    forall k', spn | k' != k && HasPort(c, AppliedAt(Mixed(was, now, order), k'), spn)
      ensures !HasPort(c, AppliedAt(was, k), spn) && !HasPort(c, AppliedAt(now, k), spn)
    {
      MixedAt(was, now, order, k');
      assert PortBeforeOrAfter(c, was, now, k', spn);
      assert !PortBeforeOrAfter(c, was, now, k, spn);
    }
  }

  lemma {:induction false} FoldedAgrees(c: Config, was: Trackers, now: Trackers, m: EndpointsByPort, changes: Changes, order: seq<NamespacedName>)
    requires Agrees(c, was, m) && CheckedOut(c, was, now, changes) && Apart(c, was, now)
    requires NoDuplicates(order) && AllIn(order, changes)
    ensures Agrees(c, Mixed(was, now, order), Folded(m, changes, order))
  {
    if order != [] {
      var n := |order| - 1;
      var k := order[n];
      var ts, ts' := Mixed(was, now, order[..n]), Mixed(was, now, order);
      FoldedAgrees(c, was, now, m, changes, order[..n]);
      MixedAlone(c, was, now, order[..n], k);
      MixedAt(was, now, order[..n], k);
      assert ServiceSettled(c, was, now, changes, k);
      ExchangedAgrees(c, ts, ts', Folded(m, changes, order[..n]), k, changes[k]);
    }
  }

  // After an update the map is again the union of what the services have.
  lemma UpdateAgrees(c: Config, was: Trackers, now: Trackers, m: EndpointsByPort, changes: Changes, order: seq<NamespacedName>)
    requires Agrees(c, was, m) && CheckedOut(c, was, now, changes) && Apart(c, was, now)
    requires Enumerates(order, changes.Keys) && AllIn(order, changes)
    ensures Agrees(c, now, Folded(m, changes, order))
  {
    FoldedAgrees(c, was, now, m, changes, order);
    var mixed, m' := Mixed(was, now, order), Folded(m, changes, order);
    forall k ensures AppliedAt(mixed, k) == AppliedAt(now, k) {
      MixedAt(was, now, order, k);
      if k in was {
        assert ServiceSettled(c, was, now, changes, k);
      }
    }
    forall spn ensures PortAgrees(c, now, m', spn) {
      assert PortAgrees(c, mixed, m', spn);
      if spn in m' {
        var k :| HasPort(c, AppliedAt(mixed, k), spn);
        assert HasPort(c, AppliedAt(now, k), spn);
      }
    }
  }

  class EndpointsMap {
    var m: EndpointsByPort

    constructor ()
      ensures m == map[]
    {
      m := map[];
    }

    method Merge(other: EndpointsByPort)
      modifies this
      ensures m == old(m) + other
    {
      ghost var done: EndpointsByPort := map[];
      var rest := other.Keys;
      while rest != {}
        invariant Remaining(other, done, rest) && m == old(m) + done
        decreases rest
      {
        var spn :| spn in rest;
        RemainingStep(other, done, rest, spn);
        m, rest, done := m[spn := other[spn]], rest - {spn}, done[spn := other[spn]];
      }
      RemainingNone(other, done);
    }

    method Unmerge(other: EndpointsByPort)
      modifies this
      ensures m == old(m) - other.Keys
    {
      var rest := other.Keys;
      while rest != {}
        invariant rest <= other.Keys && m == old(m) - (other.Keys - rest)
        decreases rest
      {
        var spn :| spn in rest;
        m, rest := m - {spn}, rest - {spn};
      }
      assert other.Keys - rest == other.Keys;
    }

    // Carries the pending changes over to the map, service by service.
    method Update(cache: Cache) returns (updated: set<NamespacedName>, ghost changes: Changes, ghost order: seq<NamespacedName>)
      requires cache.Valid()
      modifies this, cache
      ensures cache.Valid() && CheckedOut(cache.config, old(cache.trackers), cache.trackers, changes)
      ensures Enumerates(order, changes.Keys) && AllIn(order, changes) && m == Folded(old(m), changes, order)
      ensures updated == changes.Keys
    {
      var checkedOut := cache.CheckoutChanges();
      changes := checkedOut;
      var list := UnsortedList(checkedOut.Keys);
      order := list;
      updated := {};
      assert AllIn(order, changes);
      ghost var now := cache.trackers;
      for i := 0 to |list|
        invariant cache.trackers == now
        invariant cache.Valid()
        invariant AllIn(list[..i], changes) && m == Folded(old(m), changes, list[..i])
        invariant updated == set k | k in list[..i]
      {
        PrefixStep(list, i);
        updated := updated + {list[i]};
        Unmerge(checkedOut[list[i]].previous);
        Merge(checkedOut[list[i]].current);
      }
      WholePrefix(list);
    }
  }
}
