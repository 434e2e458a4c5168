/**
 Runs of the proxy: slices are delivered, and from time to time the endpoints map is updated.
 */
module EndpointRuns {
  import opened Discovery
  import opened EndpointGroups
  import opened EndpointSliceCache
  import opened EndpointsMaps

  datatype State = State(trackers: Trackers, m: EndpointsByPort)

  datatype Event = Deliver(d: Delivery) | Sync

  // What one event may do; a sync may take the changes in any order and compute any lists for duplicates.
  ghost predicate Step(c: Config, s: State, e: Event, s': State) {
    match e
    case Deliver(d) =>
      && s'.m == s.m && AppliedLive(s'.trackers)
      && (if CacheKeys(d).None? then s'.trackers == s.trackers else Delivered(s.trackers, s'.trackers, CacheKeys(d).value, d.info))
    case Sync => AppliedLive(s'.trackers) && exists changes, order :: Syncs(c, s, s', changes, order)
  }

  ghost predicate Syncs(c: Config, s: State, s': State, changes: Changes, order: seq<NamespacedName>) {
    && CheckedOut(c, s.trackers, s'.trackers, changes)
    && Enumerates(order, changes.Keys) && AllIn(order, changes) && s'.m == Folded(s.m, changes, order)
  }

  ghost predicate IsRun(c: Config, states: seq<State>, events: seq<Event>) {
    && |states| == |events| + 1 && states[0] == State(map[], map[])
    && forall i :: 0 <= i < |events| ==> Step(c, states[i], events[i], states[i + 1])
  }

  lemma RunPrefix(c: Config, states: seq<State>, events: seq<Event>)
    requires IsRun(c, states, events) && events != []
    ensures IsRun(c, states[..|events|], events[..|events| - 1])
    ensures Step(c, states[|events| - 1], events[|events| - 1], states[|events|])
  {
    var n := |events| - 1;
    assert Step(c, states[n], events[n], states[n + 1]);
    forall i | 0 <= i < n ensures Step(c, states[..n + 1][i], events[..n][i], states[..n + 1][i + 1]) {
      assert Step(c, states[i], events[i], states[i + 1]);
    }
  }

  /* The view is the latest delivery */

  // The event delivers the slice of this name, in this namespace, with this service label.
  predicate DeliversSlice(e: Event, namespace: Label, service: Label, slice: Label) {
    e.Deliver? && e.d.namespace == namespace && e.d.serviceLabel == Some(service) && e.d.name == slice
  }

  // The slice as last delivered, unless that was a removal.
  function Latest(events: seq<Event>, namespace: Label, service: Label, slice: Label): Option<SliceInfo> {
    if events == [] then None
    else
      var e := events[|events| - 1];
      if DeliversSlice(e, namespace, service, slice) then if e.d.info.remove then None else Some(e.d.info)
      else Latest(events[..|events| - 1], namespace, service, slice)
  }

  // After any run, applied overlaid with pending is the latest slice delivered under each namespace, service label and
  // name, none of them blank; and applied holds no removal.
  lemma {:induction false} ViewIsLatest(c: Config, states: seq<State>, events: seq<Event>, namespace: Label, service: Label, slice: Label)
    requires IsRun(c, states, events)
    ensures ViewOf(states[|events|].trackers, CacheKey(NamespacedName(namespace, service), slice)) ==
      if Blank in {namespace, service, slice} then None else Latest(events, namespace, service, slice)
    ensures AppliedLive(states[|events|].trackers)
  {
    var key := CacheKey(NamespacedName(namespace, service), slice);
    if events != [] {
      var n := |events| - 1;
      RunPrefix(c, states, events);
      ViewIsLatest(c, states[..n + 1], events[..n], namespace, service, slice);
      var s, s' := states[n], states[n + 1];
      if events[n].Sync? {
        var changes, order :| Syncs(c, s, s', changes, order);
        CheckedOutView(c, s.trackers, s'.trackers, changes, key);
      }
    }
  }

  /* The map agrees with recomputation if no two services share a port */

  ghost predicate WasDelivered(events: seq<Event>, key: CacheKey, info: SliceInfo) {
    exists i :: 0 <= i < |events| && events[i].Deliver? && CacheKeys(events[i].d) == Some(key) && events[i].d.info == info
  }

  ghost predicate InfoHasPort(c: Config, info: SliceInfo, spn: ServicePortName) {
    exists x :: Yields(c, info, spn, x)
  }

  // No two slices delivered under different services have a service port in common.
  ghost predicate Separate(c: Config, events: seq<Event>) {
    forall key, key', info, info', spn | WasDelivered(events, key, info) && WasDelivered(events, key', info') && key.service != key'.service ::
      InfoHasPort(c, info, spn) && !info.remove ==> !InfoHasPort(c, info', spn) || info'.remove
  }

  ghost predicate Sourced(events: seq<Event>, ts: Trackers) {
    && (forall k, n :: n in AppliedAt(ts, k) ==> WasDelivered(events, CacheKey(k, n), AppliedAt(ts, k)[n]))
    && (forall k, n :: n in TrackerOf(ts, k).pending ==> WasDelivered(events, CacheKey(k, n), TrackerOf(ts, k).pending[n]))
  }

  lemma StillDelivered(events: seq<Event>, key: CacheKey, info: SliceInfo)
    requires events != [] && WasDelivered(events[..|events| - 1], key, info)
    ensures WasDelivered(events, key, info)
  {
    var front := events[..|events| - 1];
    var i :| 0 <= i < |front| && front[i].Deliver? && CacheKeys(front[i].d) == Some(key) && front[i].d.info == info;
    assert events[i] == front[i];
  }

  lemma SourcedLonger(events: seq<Event>, ts: Trackers)
    requires events != [] && Sourced(events[..|events| - 1], ts)
    ensures Sourced(events, ts)
  {
    forall k, n | n in AppliedAt(ts, k) ensures WasDelivered(events, CacheKey(k, n), AppliedAt(ts, k)[n]) {
      StillDelivered(events, CacheKey(k, n), AppliedAt(ts, k)[n]);
    }
    forall k, n | n in TrackerOf(ts, k).pending ensures WasDelivered(events, CacheKey(k, n), TrackerOf(ts, k).pending[n]) {
      StillDelivered(events, CacheKey(k, n), TrackerOf(ts, k).pending[n]);
    }
  }

  lemma SourcedDelivered(events: seq<Event>, ts: Trackers, ts': Trackers, key: CacheKey, info: SliceInfo)
    requires Sourced(events, ts) && Delivered(ts, ts', key, info) && WasDelivered(events, key, info)
    ensures Sourced(events, ts')
  {
    forall k, n | n in AppliedAt(ts', k) ensures WasDelivered(events, CacheKey(k, n), AppliedAt(ts', k)[n]) {
      assert TrackerOf(ts', k).applied == TrackerOf(ts, k).applied;
    }
    forall k, n | n in TrackerOf(ts', k).pending ensures WasDelivered(events, CacheKey(k, n), TrackerOf(ts', k).pending[n]) {
      assert Pends(TrackerOf(ts, k), n, TrackerOf(ts', k).pending[n]) || (CacheKey(k, n) == key && TrackerOf(ts', k).pending[n] == info);
    }
  }

  lemma NothingPending(c: Config, ts: Trackers, ts': Trackers, changes: Changes)
    requires CheckedOut(c, ts, ts', changes)
    ensures forall k :: TrackerOf(ts', k).pending == map[]
  {
    forall k ensures TrackerOf(ts', k).pending == map[] {
      if k in ts {
        assert ServiceSettled(c, ts, ts', changes, k);
      }
    }
  }

  lemma SourcedCheckedOut(c: Config, events: seq<Event>, ts: Trackers, ts': Trackers, changes: Changes)
    requires Sourced(events, ts) && CheckedOut(c, ts, ts', changes)
    ensures Sourced(events, ts')
  {
    forall k, n | n in AppliedAt(ts', k) ensures WasDelivered(events, CacheKey(k, n), AppliedAt(ts', k)[n]) {
      assert ServiceSettled(c, ts, ts', changes, k);
      assert View(Tracker(ts'[k].applied, map[]), n) == View(ts[k], n);
      assert n in ts[k].pending || n in ts[k].applied;
      assert n in TrackerOf(ts, k).pending || n in AppliedAt(ts, k);
    }
    NothingPending(c, ts, ts', changes);
  }

  lemma {:induction false} RunSourced(c: Config, states: seq<State>, events: seq<Event>)
    requires IsRun(c, states, events)
    ensures Sourced(events, states[|events|].trackers)
  {
    if events != [] {
      var n := |events| - 1;
      var s, e, s' := states[n], events[n], states[n + 1];
      RunPrefix(c, states, events);
      RunSourced(c, states[..n + 1], events[..n]);
      SourcedLonger(events, s.trackers);
      match e
      case Deliver(d) =>
        if CacheKeys(d).Some? {
          assert WasDelivered(events, CacheKeys(d).value, d.info);
          SourcedDelivered(events, s.trackers, s'.trackers, CacheKeys(d).value, d.info);
        }
      case Sync =>
        var changes, order :| Syncs(c, s, s', changes, order);
        SourcedCheckedOut(c, events, s.trackers, s'.trackers, changes);
    }
  }

  // A port a service has comes from a slice delivered for it.
  lemma PortSource(c: Config, events: seq<Event>, ts: Trackers, k: NamespacedName, spn: ServicePortName) returns (key: CacheKey, info: SliceInfo)
    requires Sourced(events, ts) && AppliedLive(ts) && HasPort(c, AppliedAt(ts, k), spn)
    ensures key.service == k && WasDelivered(events, key, info) && InfoHasPort(c, info, spn) && !info.remove
  {
    var slices := AppliedAt(ts, k);
    var x :| x in Yielded(c, slices, spn);
    assert AnyYields(c, slices, spn, x);
    var n :| n in slices && Yields(c, slices[n], spn, x);
    key, info := CacheKey(k, n), slices[n];
    assert k in ts && NoRemovals(ts[k].applied);
  }

  lemma SeparateApart(c: Config, events: seq<Event>, was: Trackers, now: Trackers)
    requires Separate(c, events) && Sourced(events, was) && Sourced(events, now) && AppliedLive(was) && AppliedLive(now)
    ensures Apart(c, was, now)
  {
    forall k, k', spn | k != k' && PortBeforeOrAfter(c, was, now, k, spn) ensures !PortBeforeOrAfter(c, was, now, k', spn) {
      var key, info := PortSource(c, events, if HasPort(c, AppliedAt(was, k), spn) then was else now, k, spn);
      if PortBeforeOrAfter(c, was, now, k', spn) {
        var key', info' := PortSource(c, events, if HasPort(c, AppliedAt(was, k'), spn) then was else now, k', spn);
        assert false;
      }
    }
  }

  lemma SeparatePrefix(c: Config, events: seq<Event>)
    requires Separate(c, events) && events != []
    ensures Separate(c, events[..|events| - 1])
  {
    var front := events[..|events| - 1];
    forall key, key', info, info', spn | WasDelivered(front, key, info) && WasDelivered(front, key', info') && key.service != key'.service
      ensures InfoHasPort(c, info, spn) && !info.remove ==> !InfoHasPort(c, info', spn) || info'.remove
    {
      StillDelivered(events, key, info);
      StillDelivered(events, key', info');
    }
  }

  lemma NothingAgrees(c: Config)
    ensures Agrees(c, map[], map[])
  {
    forall spn ensures PortAgrees(c, map[], map[], spn) {
    }
  }

  lemma DeliveredAgrees(c: Config, ts: Trackers, ts': Trackers, m: EndpointsByPort)
    requires Agrees(c, ts, m) && forall k :: AppliedAt(ts', k) == AppliedAt(ts, k)
    ensures Agrees(c, ts', m)
  {
    forall spn ensures PortAgrees(c, ts', m, spn) {
      assert PortAgrees(c, ts, m, spn);
      if spn in m {
        var k :| HasPort(c, AppliedAt(ts, k), spn);
        assert HasPort(c, AppliedAt(ts', k), spn);
      }
    }
  }

  lemma StepAgrees(c: Config, s: State, e: Event, s': State, events: seq<Event>)
    requires Step(c, s, e, s') && Agrees(c, s.trackers, s.m) && Separate(c, events)
    requires Sourced(events, s.trackers) && Sourced(events, s'.trackers) && AppliedLive(s.trackers)
    ensures Agrees(c, s'.trackers, s'.m)
  {
    match e
    case Deliver(d) =>
      forall k ensures AppliedAt(s'.trackers, k) == AppliedAt(s.trackers, k) {
        if CacheKeys(d).Some? {
          assert TrackerOf(s'.trackers, k).applied == TrackerOf(s.trackers, k).applied;
        }
      }
      DeliveredAgrees(c, s.trackers, s'.trackers, s.m);
    case Sync =>
      var changes, order :| Syncs(c, s, s', changes, order);
      SeparateApart(c, events, s.trackers, s'.trackers);
      UpdateAgrees(c, s.trackers, s'.trackers, s.m, changes, order);
  }

  // If no two services share a port, the map is the union of the services' endpoints maps after every
  // event of every run.
  lemma {:induction false} IncrementalIsRecomputed(c: Config, states: seq<State>, events: seq<Event>)
    requires IsRun(c, states, events) && Separate(c, events)
    ensures Agrees(c, states[|events|].trackers, states[|events|].m)
  {
    if events == [] {
      NothingAgrees(c);
    } else {
      var n := |events| - 1;
      RunPrefix(c, states, events);
      SeparatePrefix(c, events);
      IncrementalIsRecomputed(c, states[..n + 1], events[..n]);
      RunSourced(c, states, events);
      RunSourced(c, states[..n + 1], events[..n]);
      SourcedLonger(events, states[n].trackers);
      ViewIsLatest(c, states[..n + 1], events[..n], Blank, Blank, Blank);
      StepAgrees(c, states[n], events[n], states[n + 1], events);
    }
  }

  /* Two services that share a port */

  // With nothing pending, a slice is applied exactly if it is in view.
  lemma AppliedIsView(ts: Trackers, key: CacheKey)
    requires TrackerOf(ts, key.service).pending == map[]
    ensures key.slice in AppliedAt(ts, key.service) <==> ViewOf(ts, key).Some?
    ensures ViewOf(ts, key).Some? ==> AppliedAt(ts, key.service)[key.slice] == ViewOf(ts, key).value
  {
  }

  lemma AppliedHasPort(c: Config, slices: SlicesByName, n: Label, spn: ServicePortName)
    requires n in slices && InfoHasPort(c, slices[n], spn)
    ensures HasPort(c, slices, spn)
  {
    var x :| Yields(c, slices[n], spn, x);
    assert AnyYields(c, slices, spn, x);
    assert x in Yielded(c, slices, spn);
  }

  lemma SingleOrder(order: seq<NamespacedName>, k: NamespacedName)
    requires Enumerates(order, {k})
    ensures order == [k]
  {
    assert |order| > 1 ==> order[0] != order[1];
    assert k in order;
    forall i | 0 <= i < |order| ensures order[i] == k {
      assert order[i] in order;
    }
  }

  lemma FoldedOne(m: EndpointsByPort, changes: Changes, k: NamespacedName)
    requires k in changes
    ensures AllIn([k], changes) && Folded(m, changes, [k]) == Exchanged(m, changes[k])
  {
    assert [k][..0] == [];
  }

  // The service of the removed slice has no other slice: it ends up without ports.
  lemma RemovalEmpties(c: Config, s3: State, s4: State, s5: State, key: CacheKey, removal: SliceInfo, changes: Changes)
    requires forall slice :: ViewOf(s3.trackers, CacheKey(key.service, slice)).Some? <==> slice == key.slice
    requires removal.remove && Delivered(s3.trackers, s4.trackers, key, removal) && CheckedOut(c, s4.trackers, s5.trackers, changes)
    ensures AppliedAt(s5.trackers, key.service) == map[]
  {
    NothingPending(c, s4.trackers, s5.trackers, changes);
    forall slice ensures slice !in AppliedAt(s5.trackers, key.service) {
      CheckedOutView(c, s4.trackers, s5.trackers, changes, CacheKey(key.service, slice));
      AppliedIsView(s5.trackers, CacheKey(key.service, slice));
      assert ViewOf(s3.trackers, CacheKey(key.service, slice)).Some? <==> slice == key.slice;
    }
  }

  lemma ExchangedDrops(c: Config, m: EndpointsByPort, was: SlicesByName, now: SlicesByName, change: Change, spn: ServicePortName)
    requires ChangeFor(c, was, now, change) && HasPort(c, was, spn) && now == map[]
    ensures spn !in Exchanged(m, change)
  {
    assert PortListed(c, was, spn, change.previous);
    assert PortListed(c, now, spn, change.current);
  }

  // Slices have been applied; the only one of a service is removed and synced. Its port is gone from
  // the map, whoever else has it.
  lemma RemovalDropsPort(c: Config, s3: State, s4: State, s5: State, key: CacheKey, removal: SliceInfo, spn: ServicePortName,
                         changes: Changes, order: seq<NamespacedName>)
    requires forall k :: TrackerOf(s3.trackers, k).pending == map[]
    requires forall slice :: ViewOf(s3.trackers, CacheKey(key.service, slice)).Some? <==> slice == key.slice
    requires ViewOf(s3.trackers, key).Some? && InfoHasPort(c, ViewOf(s3.trackers, key).value, spn)
    requires removal.remove && Delivered(s3.trackers, s4.trackers, key, removal) && Syncs(c, s4, s5, changes, order)
    ensures spn !in s5.m
  {
    var k := key.service;
    AppliedIsView(s3.trackers, key);
    assert AppliedAt(s4.trackers, k) == AppliedAt(s3.trackers, k);
    AppliedHasPort(c, AppliedAt(s4.trackers, k), key.slice, spn);
    OnlyChange(c, s3, s4, s5, key, removal, changes);
    SingleOrder(order, k);
    FoldedOne(s4.m, changes, k);
    RemovalEmpties(c, s3, s4, s5, key, removal, changes);
    assert ServiceSettled(c, s4.trackers, s5.trackers, changes, k);
    ExchangedDrops(c, s4.m, AppliedAt(s4.trackers, k), AppliedAt(s5.trackers, k), changes[k], spn);
  }

  // The removal is the only thing pending.
  lemma OnlyChange(c: Config, s3: State, s4: State, s5: State, key: CacheKey, removal: SliceInfo, changes: Changes)
    requires forall k :: TrackerOf(s3.trackers, k).pending == map[]
    requires key.slice in AppliedAt(s3.trackers, key.service) && removal.remove
    requires Delivered(s3.trackers, s4.trackers, key, removal) && CheckedOut(c, s4.trackers, s5.trackers, changes)
    ensures changes.Keys == {key.service}
  {
    assert AppliedAt(s4.trackers, key.service) == AppliedAt(s3.trackers, key.service);
    assert key.slice in TrackerOf(s4.trackers, key.service).pending;
    forall k ensures k in changes <==> k == key.service {
      if k in s4.trackers {
        assert ServiceSettled(c, s4.trackers, s5.trackers, changes, k);
      }
      if TrackerOf(s4.trackers, k).pending != map[] {
        var n :| n in TrackerOf(s4.trackers, k).pending;
        assert Pends(TrackerOf(s3.trackers, k), n, TrackerOf(s4.trackers, k).pending[n]) || CacheKey(k, n) == key;
      }
    }
  }

  ghost predicate TwoInView(ts: Trackers, key: CacheKey, info: SliceInfo, key': CacheKey, info': SliceInfo) {
    && (forall k :: TrackerOf(ts, k).pending == map[])
    && forall k :: ViewOf(ts, k) == if k == key then Meaning(info) else if k == key' then Meaning(info') else None
  }

  lemma TwoInViewAt(ts: Trackers, key: CacheKey, info: SliceInfo, key': CacheKey, info': SliceInfo)
    requires key.service != key'.service && TwoInView(ts, key, info, key', info') && !info.remove && !info'.remove
    ensures forall k :: TrackerOf(ts, k).pending == map[]
    ensures forall slice :: ViewOf(ts, CacheKey(key.service, slice)).Some? <==> slice == key.slice
    ensures ViewOf(ts, key) == Some(info) && ViewOf(ts, key') == Some(info')
  {
    forall slice ensures ViewOf(ts, CacheKey(key.service, slice)).Some? <==> slice == key.slice {
      assert CacheKey(key.service, slice) != key';
    }
  }

  // Two deliveries and a sync: exactly these two slices are in view, and nothing is pending.
  lemma BothApplied(c: Config, s0: State, s1: State, s2: State, s3: State, key: CacheKey, info: SliceInfo, key': CacheKey, info': SliceInfo,
                    changes: Changes)
    requires s0.trackers == map[] && key != key'
    requires Delivered(s0.trackers, s1.trackers, key, info) && Delivered(s1.trackers, s2.trackers, key', info')
    requires CheckedOut(c, s2.trackers, s3.trackers, changes)
    ensures TwoInView(s3.trackers, key, info, key', info')
  {
    NothingPending(c, s2.trackers, s3.trackers, changes);
    forall k ensures ViewOf(s3.trackers, k) == if k == key then Meaning(info) else if k == key' then Meaning(info') else None {
      CheckedOutView(c, s2.trackers, s3.trackers, changes, k);
      assert ViewOf(s0.trackers, k) == None;
    }
  }

  // The other service still has the port.
  lemma OtherKeepsPort(c: Config, s3: State, s4: State, s5: State, key: CacheKey, removal: SliceInfo, key': CacheKey, spn: ServicePortName,
                       changes: Changes)
    requires key != key' && Delivered(s3.trackers, s4.trackers, key, removal) && CheckedOut(c, s4.trackers, s5.trackers, changes)
    requires ViewOf(s3.trackers, key').Some? && InfoHasPort(c, ViewOf(s3.trackers, key').value, spn)
    ensures HasPort(c, AppliedAt(s5.trackers, key'.service), spn)
  {
    NothingPending(c, s4.trackers, s5.trackers, changes);
    CheckedOutView(c, s4.trackers, s5.trackers, changes, key');
    AppliedIsView(s5.trackers, key');
    AppliedHasPort(c, AppliedAt(s5.trackers, key'.service), key'.slice, spn);
  }

  lemma CollisionAfter(c: Config, s3: State, s4: State, s5: State, key: CacheKey, info: SliceInfo, key': CacheKey, info': SliceInfo,
                       removal: SliceInfo, spn: ServicePortName)
    requires key.service != key'.service && TwoInView(s3.trackers, key, info, key', info')
    requires InfoHasPort(c, info, spn) && InfoHasPort(c, info', spn) && !info.remove && !info'.remove
    requires removal.remove && Delivered(s3.trackers, s4.trackers, key, removal) && Step(c, s4, Sync, s5)
    ensures spn !in s5.m && HasPort(c, AppliedAt(s5.trackers, key'.service), spn)
  {
    var changes, order :| Syncs(c, s4, s5, changes, order);
    TwoInViewAt(s3.trackers, key, info, key', info');
    RemovalDropsPort(c, s3, s4, s5, key, removal, spn, changes, order);
    OtherKeepsPort(c, s3, s4, s5, key, removal, key', spn, changes);
  }

  ghost predicate TwoServices(d: Delivery, d': Delivery) {
    && CacheKeys(d).Some? && CacheKeys(d').Some? && (d.namespace != d'.namespace || d.serviceLabel != d'.serviceLabel)
  }

  // Conversely, if slices of two services share a port, some run goes wrong: deliver both, sync, remove
  // one and sync again. Whatever order the changes are taken in, the port is then missing from the map
  // although the other service still has it.
  lemma CollisionLosesPort(c: Config, d: Delivery, d': Delivery, gone: Delivery, states: seq<State>, spn: ServicePortName)
    requires TwoServices(d, d')
    requires InfoHasPort(c, d.info, spn) && InfoHasPort(c, d'.info, spn) && !d.info.remove && !d'.info.remove
    requires gone.namespace == d.namespace && gone.serviceLabel == d.serviceLabel && gone.name == d.name && gone.info.remove
    requires IsRun(c, states, [Deliver(d), Deliver(d'), Sync, Deliver(gone), Sync])
    ensures spn !in states[5].m && HasPort(c, AppliedAt(states[5].trackers, NamespacedName(d'.namespace, d'.serviceLabel.value)), spn)
    ensures !Agrees(c, states[5].trackers, states[5].m)
  {
    var events := [Deliver(d), Deliver(d'), Sync, Deliver(gone), Sync];
    assert Step(c, states[0], events[0], states[1]) && Step(c, states[1], events[1], states[2]);
    assert Step(c, states[2], events[2], states[3]) && Step(c, states[3], events[3], states[4]);
    assert Step(c, states[4], events[4], states[5]);
    var key, key' := CacheKeys(d).value, CacheKeys(d').value;
    var changes, order :| Syncs(c, states[2], states[3], changes, order);
    BothApplied(c, states[0], states[1], states[2], states[3], key, d.info, key', d'.info, changes);
    CollisionAfter(c, states[3], states[4], states[5], key, d.info, key', d'.info, gone.info, spn);
    assert !PortAgrees(c, states[5].trackers, states[5].m, spn);
  }
}
