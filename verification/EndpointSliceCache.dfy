/**
 The cache of endpoint slices: what has been applied to the proxy, and what has been delivered
 since and is still pending.
 */
module EndpointSliceCache {
  import opened Discovery
  import opened EndpointGroups

  datatype Tracker = Tracker(applied: SlicesByName, pending: SlicesByName)

  type Trackers = map<NamespacedName, Tracker>

  // A slice as delivered: its namespace and name, the service label it is cached under, and what the
  // cache keeps of it.
  datatype Delivery = Delivery(namespace: Label, name: Label, serviceLabel: Option<Label>, info: SliceInfo)

  datatype CacheKey = CacheKey(service: NamespacedName, slice: Label)

  function CacheKeys(d: Delivery): Option<CacheKey> {
    if d.serviceLabel.None? || d.serviceLabel.value == Blank then None
    else if d.namespace == Blank || d.name == Blank then None
    else Some(CacheKey(NamespacedName(d.namespace, d.serviceLabel.value), d.name))
  }

  // A delivery without a service label, or with a blank among the three names, is filed nowhere; any other under its
  // namespace and service label, and there under its own name.
  lemma FiledByNames(d: Delivery, d': Delivery)
    ensures CacheKeys(d).None? <==> d.serviceLabel.None? || d.serviceLabel.value == Blank || d.namespace == Blank || d.name == Blank
    ensures CacheKeys(d).Some? && CacheKeys(d').Some? ==>
      && (CacheKeys(d) == CacheKeys(d') <==> d.namespace == d'.namespace && d.serviceLabel == d'.serviceLabel && d.name == d'.name)
      && (CacheKeys(d).value.service == CacheKeys(d').value.service <==>
            d.namespace == d'.namespace && d.serviceLabel == d'.serviceLabel)
  {
  }

  /* What the cache shows */

  function Meaning(info: SliceInfo): Option<SliceInfo> {
    if info.remove then None else Some(info)
  }

  // Applied overlaid with pending.
  function View(t: Tracker, slice: Label): Option<SliceInfo> {
    if slice in t.pending then Meaning(t.pending[slice])
    else if slice in t.applied then Some(t.applied[slice])
    else None
  }

  function TrackerOf(ts: Trackers, service: NamespacedName): Tracker {
    if service in ts then ts[service] else Tracker(map[], map[])
  }

  function ViewOf(ts: Trackers, key: CacheKey): Option<SliceInfo> {
    View(TrackerOf(ts, key.service), key.slice)
  }

  ghost predicate NoRemovals(slices: SlicesByName) {
    forall n :: n in slices ==> !slices[n].remove
  }

  // Applied never holds a removal.
  ghost predicate AppliedLive(ts: Trackers) {
    forall k :: k in ts ==> NoRemovals(ts[k].applied)
  }

  // The key's view is what was delivered, and nothing else changed.
  ghost predicate Delivered(was: Trackers, now: Trackers, key: CacheKey, info: SliceInfo) {
    && ViewOf(now, key) == Meaning(info)
    && (forall key' :: key' != key ==> ViewOf(now, key') == ViewOf(was, key'))
    && (forall k :: TrackerOf(now, k).applied == TrackerOf(was, k).applied)
    && (forall k, n :: n in TrackerOf(now, k).pending ==>
          Pends(TrackerOf(was, k), n, TrackerOf(now, k).pending[n]) || (CacheKey(k, n) == key && TrackerOf(now, k).pending[n] == info))
  }

  ghost predicate Pends(t: Tracker, n: Label, info: SliceInfo) {
    n in t.pending && t.pending[n] == info
  }

  // Whether the slice has to be set as the new pending value.
  predicate InfoChanged(t: Tracker, slice: Label, info: SliceInfo) {
    if slice in t.pending then info != t.pending[slice]
    else if slice in t.applied then info != t.applied[slice]
    else !info.remove
  }

  function SetPending(t: Tracker, slice: Label, info: SliceInfo): Tracker {
    if InfoChanged(t, slice, info) then t.(pending := t.pending[slice := info]) else t
  }

  // Leaving out an unchanged slice does not matter to the view.
  lemma SetPendingView(t: Tracker, slice: Label, info: SliceInfo, slice': Label)
    requires NoRemovals(t.applied)
    ensures View(SetPending(t, slice, info), slice') == if slice' == slice then Meaning(info) else View(t, slice')
    ensures !InfoChanged(t, slice, info) ==> View(t, slice) == Meaning(info)
  {
  }

  // With nothing pending for the slice, it is judged changed exactly if the view changes; a pending one, exactly if it is not
  // the same again.
  lemma ChangeIsSeen(t: Tracker, slice: Label, info: SliceInfo)
    requires NoRemovals(t.applied)
    ensures slice !in t.pending ==> (InfoChanged(t, slice, info) <==> (if info.remove then None else Some(info)) != View(t, slice))
    ensures slice in t.pending ==> (InfoChanged(t, slice, info) <==> info != t.pending[slice])
  {
  }

  lemma SetPendingDelivered(was: Trackers, key: CacheKey, info: SliceInfo)
    requires AppliedLive(was)
    ensures var now := was[key.service := SetPending(TrackerOf(was, key.service), key.slice, info)];
      AppliedLive(now) && Delivered(was, now, key, info)
  {
    var t := TrackerOf(was, key.service);
    var now := was[key.service := SetPending(t, key.slice, info)];
    SetPendingView(t, key.slice, info, key.slice);
    forall key' | key' != key ensures ViewOf(now, key') == ViewOf(was, key') {
      SetPendingView(t, key.slice, info, key'.slice);
    }
  }

  /* Checking out pending changes */

  // `applied` is what t shows.
  ghost predicate Overlaid(t: Tracker, applied: SlicesByName) {
    forall n :: View(Tracker(applied, map[]), n) == View(t, n)
  }

  lemma ApplyOne(t: Tracker, n: Label, applied: SlicesByName, pending: SlicesByName)
    requires n in pending && NoRemovals(applied) && forall n' :: View(Tracker(applied, pending), n') == View(t, n')
    ensures var applied' := if pending[n].remove then applied - {n} else applied[n := pending[n]];
      && NoRemovals(applied')
      && forall n' :: View(Tracker(applied', pending - {n}), n') == View(t, n')
  {
    var applied' := if pending[n].remove then applied - {n} else applied[n := pending[n]];
    forall n' ensures View(Tracker(applied', pending - {n}), n') == View(t, n') {
      assert View(Tracker(applied, pending), n') == View(t, n');
    }
  }

  method ApplyPending(t: Tracker) returns (applied: SlicesByName)
    requires NoRemovals(t.applied)
    ensures Overlaid(t, applied) && NoRemovals(applied)
  {
    applied := t.applied;
    var pending := t.pending;
    while |pending| > 0
      invariant NoRemovals(applied) && forall n :: View(Tracker(applied, pending), n) == View(t, n)
      decreases |pending|
    {
      var n :| n in pending;
      ApplyOne(t, n, applied, pending);
      if pending[n].remove {
        applied := applied - {n};
      } else {
        applied := applied[n := pending[n]];
      }
      pending := pending - {n};
    }
    assert pending == map[];
  }

  datatype Change = Change(previous: EndpointsByPort, current: EndpointsByPort)

  type Changes = map<NamespacedName, Change>

  // The tracker after its pending slices have been applied.
  ghost predicate Settled(was: Tracker, now: Tracker) {
    now.pending == map[] && Overlaid(was, now.applied) && (was.pending == map[] ==> now == was)
  }

  // One change for each service with something pending, from the endpoints before to the endpoints after.
  ghost predicate CheckedOut(c: Config, was: Trackers, now: Trackers, changes: Changes) {
    && now.Keys == was.Keys && changes.Keys <= was.Keys
    && (forall k :: k in was ==> ServiceSettled(c, was, now, changes, k))
  }

  ghost predicate ServiceSettled(c: Config, was: Trackers, now: Trackers, changes: Changes, k: NamespacedName)
    requires k in was && k in now
  {
    && (k in changes <==> was[k].pending != map[]) && Settled(was[k], now[k])
    && (k in changes ==> ChangeFor(c, was[k].applied, now[k].applied, changes[k]))
  }

  ghost predicate ChangeFor(c: Config, was: SlicesByName, now: SlicesByName, change: Change) {
    IsEndpointsMap(c, was, change.previous) && IsEndpointsMap(c, now, change.current)
  }

  // The services in `rest` are still to be checked out.
  ghost predicate CheckingOut(c: Config, was: Trackers, now: Trackers, changes: Changes, rest: set<NamespacedName>) {
    && now.Keys == was.Keys && changes.Keys <= was.Keys && rest <= was.Keys && AppliedLive(now)
    && (forall k :: k in was && k !in rest ==> ServiceSettled(c, was, now, changes, k))
    && (forall k :: k in rest ==> now[k] == was[k] && k !in changes)
  }

  lemma CheckOutNothing(c: Config, was: Trackers, now: Trackers, changes: Changes, rest: set<NamespacedName>, k: NamespacedName)
    requires CheckingOut(c, was, now, changes, rest) && k in rest && |was[k].pending| == 0
    ensures CheckingOut(c, was, now, changes, rest - {k})
  {
    assert was[k].pending == map[];
    forall n ensures View(Tracker(now[k].applied, map[]), n) == View(was[k], n) {
    }
  }

  lemma CheckOutOne(c: Config, was: Trackers, now: Trackers, changes: Changes, rest: set<NamespacedName>, k: NamespacedName,
                    applied: SlicesByName, change: Change)
    requires CheckingOut(c, was, now, changes, rest) && k in rest && |was[k].pending| > 0
    requires Overlaid(was[k], applied) && NoRemovals(applied) && ChangeFor(c, was[k].applied, applied, change)
    ensures CheckingOut(c, was, now[k := Tracker(applied, map[])], changes[k := change], rest - {k})
  {
    var now', changes' := now[k := Tracker(applied, map[])], changes[k := change];
    assert ServiceSettled(c, was, now', changes', k);
    forall k' | k' in was && k' !in rest ensures ServiceSettled(c, was, now', changes', k') {
      assert ServiceSettled(c, was, now, changes, k');
    }
  }

  // Checking out leaves every view as it was.
  lemma CheckedOutView(c: Config, was: Trackers, now: Trackers, changes: Changes, key: CacheKey)
    requires CheckedOut(c, was, now, changes)
    ensures ViewOf(now, key) == ViewOf(was, key)
  {
    if key.service in was {
      assert ServiceSettled(c, was, now, changes, key.service);
      assert View(Tracker(now[key.service].applied, map[]), key.slice) == View(was[key.service], key.slice);
    }
  }

  class Cache {
    const config: Config
    var trackers: Trackers

    ghost predicate Valid()
      reads this
    {
      AppliedLive(trackers)
    }

    constructor (config: Config)
      ensures Valid() && this.config == config && trackers == map[]
    {
      this.config := config;
      trackers := map[];
    }

    // Takes a delivered slice. Returns whether anything is pending because of it; if not, the view has
    // not changed.
    method UpdatePending(d: Delivery) returns (changed: bool)
      requires Valid()
      modifies this
      ensures Valid()
      ensures if d.serviceLabel.None? || Blank in {d.serviceLabel.value, d.namespace, d.name} then !changed && trackers == old(trackers)
              else Delivered(old(trackers), trackers, CacheKey(NamespacedName(d.namespace, d.serviceLabel.value), d.name), d.info)
      ensures !changed ==> forall key :: ViewOf(trackers, key) == ViewOf(old(trackers), key)
      ensures d.serviceLabel.Some? && Blank !in {d.serviceLabel.value, d.namespace, d.name} ==>
        (changed <==> InfoChanged(TrackerOf(old(trackers), NamespacedName(d.namespace, d.serviceLabel.value)), d.name, d.info))
    {
      var keys := CacheKeys(d);
      if keys.None? {
        return false;
      }
      var key := keys.value;
      SetPendingDelivered(trackers, key, d.info);
      if key.service !in trackers {
        trackers := trackers[key.service := Tracker(map[], map[])];
      }
      var t := trackers[key.service];
      SetPendingView(t, key.slice, d.info, key.slice);
      changed := InfoChanged(t, key.slice, d.info);
      if changed {
        t := t.(pending := t.pending[key.slice := d.info]);
      }
      trackers := trackers[key.service := t];
      assert trackers == old(trackers)[key.service := SetPending(TrackerOf(old(trackers), key.service), key.slice, d.info)];
      if !changed {
        forall k ensures ViewOf(trackers, k) == ViewOf(old(trackers), k) {
        }
      }
    }

    // Applies what is pending and returns, for each service concerned, its endpoints before and after.
    method CheckoutChanges() returns (changes: Changes)
      requires Valid()
      modifies this
      ensures Valid() && CheckedOut(config, old(trackers), trackers, changes)
    {
      ghost var was := trackers;
      changes := map[];
      var rest := trackers.Keys;
      while rest != {}
        invariant CheckingOut(config, was, trackers, changes, rest)
        decreases rest
      {
        var k :| k in rest;
        var t := trackers[k];
        if |t.pending| == 0 {
          CheckOutNothing(config, was, trackers, changes, rest, k);
          rest := rest - {k};
          continue;
        }
        var previous := GetEndpointsMap(config, t.applied);
        var applied := ApplyPending(t);
        var current := GetEndpointsMap(config, applied);
        CheckOutOne(config, was, trackers, changes, rest, k, applied, Change(previous, current));
        trackers, changes, rest := trackers[k := Tracker(applied, map[])], changes[k := Change(previous, current)], rest - {k};
      }
    }
  }
}
