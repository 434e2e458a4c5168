/**
 The proxy's service ports, kept up to date by accumulated changes of service imports.
 */
module ServiceImports {
  import opened Sequences
  import opened Discovery
  import opened EndpointGroups

  datatype ImportPort = ImportPort(port: int, protocol: Protocol)

  // An import with its addresses, as text, and its ports.
  datatype ServiceImport = ServiceImport(name: NamespacedName, ips: seq<Label>, ports: seq<ImportPort>)

  datatype ServicePort = ServicePort(clusterIP: Label, port: int, protocol: Protocol)

  type PortMap = map<ServicePortName, ServicePort>

  function Lookup(m: PortMap, spn: ServicePortName): Option<ServicePort> {
    if spn in m then Some(m[spn]) else None
  }

  /* The ports of an import */

  predicate HasClusterIP(si: ServiceImport) {
    si.ips != [] && si.ips[0] != Blank
  }

  // The service port an import, if there is one, has under a name.
  function PortOf(si: Option<ServiceImport>, spn: ServicePortName): Option<ServicePort> {
    if si.Some? && HasClusterIP(si.value) && spn.service == si.value.name
       && spn.port < |si.value.ports| && spn.protocol == si.value.ports[spn.port].protocol
    then Some(ServicePort(si.value.ips[0], si.value.ports[spn.port].port, spn.protocol))
    else None
  }

  function PortsUpTo(si: ServiceImport, n: nat): PortMap
    requires HasClusterIP(si) && n <= |si.ports|
  {
    if n == 0 then map[]
    else
      var p := si.ports[n - 1];
      PortsUpTo(si, n - 1)[ServicePortName(si.name, n - 1, p.protocol) := ServicePort(si.ips[0], p.port, p.protocol)]
  }

  // Nil where there is no import or no cluster address.
  function ToServiceMap(si: Option<ServiceImport>): Option<PortMap> {
    if si.None? || !HasClusterIP(si.value) then None else Some(PortsUpTo(si.value, |si.value.ports|))
  }

  function OrNone(m: Option<PortMap>): PortMap {
    if m.Some? then m.value else map[]
  }

  lemma {:induction false} PortsUpToLookup(si: ServiceImport, n: nat, spn: ServicePortName)
    requires HasClusterIP(si) && n <= |si.ports|
    ensures Lookup(PortsUpTo(si, n), spn) == if spn.port < n then PortOf(Some(si), spn) else None
  {
    if n > 0 {
      PortsUpToLookup(si, n - 1, spn);
    }
  }

  // The map of an import holds its ports and nothing else.
  lemma ToServiceMapLookup(si: Option<ServiceImport>, spn: ServicePortName)
    ensures Lookup(OrNone(ToServiceMap(si)), spn) == PortOf(si, spn)
  {
    if si.Some? && HasClusterIP(si.value) {
      PortsUpToLookup(si.value, |si.value.ports|, spn);
    }
  }

  method ServiceImportToServiceMap(si: Option<ServiceImport>) returns (m: Option<PortMap>)
    ensures m == ToServiceMap(si)
  {
    if si.None? {
      return None;
    }
    var imp := si.value;
    if |imp.ips| == 0 || imp.ips[0] == Blank {
      return None;
    }
    var ports: PortMap := map[];
    for i := 0 to |imp.ports|
      invariant ports == PortsUpTo(imp, i)
    {
      var p := imp.ports[i];
      ports := ports[ServicePortName(imp.name, i, p.protocol) := ServicePort(imp.ips[0], p.port, p.protocol)];
    }
    m := Some(ports);
  }

  /* Accumulated changes */

  datatype Change = Change(previous: Option<PortMap>, current: Option<PortMap>)

  type Items = map<NamespacedName, Change>

  // The changes after the import `name` went from `previous` to `current`: the first previous is kept,
  // and a change back to it is no change.
  function NextItems(items: Items, name: NamespacedName, previous: Option<ServiceImport>, current: Option<ServiceImport>): Items {
    var before := if name in items then items[name].previous else ToServiceMap(previous);
    var after := ToServiceMap(current);
    if before == after then items - {name} else items[name := Change(before, after)]
  }

  ghost predicate OfService(m: Option<PortMap>, name: NamespacedName) {
    forall spn :: spn in OrNone(m) ==> spn.service == name
  }

  // Every change is about ports of its own service.
  ghost predicate Keyed(items: Items) {
    forall nn :: nn in items ==> OfService(items[nn].previous, nn) && OfService(items[nn].current, nn)
  }

  lemma ToServiceMapKeyed(si: Option<ServiceImport>, name: NamespacedName)
    requires si.Some? ==> si.value.name == name
    ensures OfService(ToServiceMap(si), name)
  {
    forall spn | spn in OrNone(ToServiceMap(si)) ensures spn.service == name {
      ToServiceMapLookup(si, spn);
    }
  }

  lemma NextItemsKeyed(items: Items, name: NamespacedName, previous: Option<ServiceImport>, current: Option<ServiceImport>)
    requires Keyed(items) && (previous.Some? ==> previous.value.name == name) && (current.Some? ==> current.value.name == name)
    ensures Keyed(NextItems(items, name, previous, current))
  {
    ToServiceMapKeyed(previous, name);
    ToServiceMapKeyed(current, name);
  }

  class ServiceImportChangeTracker {
    var items: Items

    constructor ()
      ensures items == map[]
    {
      items := map[];
    }

    // Returns whether any change is pending.
    method Update(previous: Option<ServiceImport>, current: Option<ServiceImport>) returns (pending: bool)
      requires Keyed(items)
      requires previous.Some? && current.Some? ==> previous.value.name == current.value.name
      modifies this
      ensures Keyed(items)
      ensures previous.None? && current.None? ==> items == old(items) && !pending
      ensures !(previous.None? && current.None?) ==>
        && (pending <==> |items| > 0)
        && items == NextItems(old(items), if current.Some? then current.value.name else previous.value.name, previous, current)
    {
      if previous.None? && current.None? {
        return false;
      }
      var name := if current.Some? then current.value.name else previous.value.name;
      NextItemsKeyed(items, name, previous, current);
      var change;
      if name in items {
        change := items[name];
      } else {
        var before := ServiceImportToServiceMap(previous);
        change := Change(before, None);
      }
      var after := ServiceImportToServiceMap(current);
      change := change.(current := after);
      if change.previous == change.current {
        items := items - {name};
      } else {
        items := items[name := change];
      }
      pending := |items| > 0;
    }
  }

  /* Applying the changes */

  // What applying one change makes of the port spn: the current port if there is one, none if there was
  // a previous one, and what was there otherwise.
  function Exchanged(was: PortMap, previous: PortMap, current: PortMap, spn: ServicePortName): Option<ServicePort> {
    if spn in current then Some(current[spn]) else if spn in previous then None else Lookup(was, spn)
  }

  // `now` is `was` with the changes of all services but those in `rest` applied.
  ghost predicate AppliedBut(was: PortMap, items: Items, rest: set<NamespacedName>, now: PortMap) {
    forall spn :: Lookup(now, spn) ==
      if spn.service in items && spn.service !in rest
      then Exchanged(was, OrNone(items[spn.service].previous), OrNone(items[spn.service].current), spn)
      else Lookup(was, spn)
  }

  // The cluster addresses of the UDP ports that are in `was` and no longer in `now`.
  ghost predicate AreDropped(was: PortMap, now: PortMap, ips: set<Label>) {
    && (forall spn :: spn in was && spn !in now && was[spn].protocol == UDP ==> was[spn].clusterIP in ips)
    && (forall ip :: ip in ips ==> exists spn :: spn in was && spn !in now && was[spn].protocol == UDP && was[spn].clusterIP == ip)
  }

  lemma AppliedOne(was: PortMap, items: Items, rest: set<NamespacedName>, now: PortMap, now': PortMap, nn: NamespacedName)
    requires AppliedBut(was, items, rest, now) && nn in rest && nn in items && Keyed(items)
    requires forall spn :: Lookup(now', spn) == Exchanged(now, OrNone(items[nn].previous), OrNone(items[nn].current), spn)
    ensures AppliedBut(was, items, rest - {nn}, now')
  {
    forall spn
      ensures Lookup(now', spn) ==
        if spn.service in items && spn.service !in rest - {nn}
        then Exchanged(was, OrNone(items[spn.service].previous), OrNone(items[spn.service].current), spn)
        else Lookup(was, spn)
    {
      assert Lookup(now', spn) == Exchanged(now, OrNone(items[nn].previous), OrNone(items[nn].current), spn);
    }
  }

  // Once a service's change is applied its ports stay as they are, so the dropped addresses add up.
  lemma DroppedAddUp(was: PortMap, items: Items, rest: set<NamespacedName>, now: PortMap, now': PortMap, nn: NamespacedName,
                     ips: set<Label>, more: set<Label>)
    requires AppliedBut(was, items, rest, now) && nn in rest && nn in items && Keyed(items)
    requires forall spn :: Lookup(now', spn) == Exchanged(now, OrNone(items[nn].previous), OrNone(items[nn].current), spn)
    requires AreDropped(was, now, ips) && AreDropped(now, now', more)
    ensures AreDropped(was, now', ips + more)
  {
    forall spn | spn in was && spn !in now' && was[spn].protocol == UDP ensures was[spn].clusterIP in ips + more {
      assert Lookup(now', spn) == Exchanged(now, OrNone(items[nn].previous), OrNone(items[nn].current), spn);
      if spn in now {
        assert Lookup(now, spn) == Lookup(was, spn);
      }
    }
    forall ip | ip in ips + more ensures exists spn :: spn in was && spn !in now' && was[spn].protocol == UDP && was[spn].clusterIP == ip {
      if ip in ips {
        var spn :| spn in was && spn !in now && was[spn].protocol == UDP && was[spn].clusterIP == ip;
        assert Lookup(now, spn) != Lookup(was, spn);
        assert Lookup(now', spn) == Exchanged(now, OrNone(items[nn].previous), OrNone(items[nn].current), spn);
        assert spn !in now';
      } else {
        var spn :| spn in now && spn !in now' && now[spn].protocol == UDP && now[spn].clusterIP == ip;
        assert Lookup(now', spn) == Exchanged(now, OrNone(items[nn].previous), OrNone(items[nn].current), spn);
        assert spn.service == nn;
        assert Lookup(now, spn) == Lookup(was, spn);
      }
    }
  }

  // The ports of m that are not in `other`.
  method Filter(m: PortMap, other: PortMap) returns (r: PortMap)
    ensures r == m - other.Keys
  {
    r := m;
    var rest := m.Keys;
    while rest != {}
      invariant rest <= m.Keys && r == m - (other.Keys * (m.Keys - rest))
      decreases rest
    {
      var spn :| spn in rest;
      if spn in other {
        r := r - {spn};
      }
      rest := rest - {spn};
    }
  }

  class ServicePortMap {
    var m: PortMap

    constructor ()
      ensures m == map[]
    {
      m := map[];
    }

    method Merge(other: PortMap)
      modifies this
      ensures m == old(m) + other
    {
      ghost var done: PortMap := map[];
      var rest := other.Keys;
      while rest != {}
        invariant Remaining(other, done, rest) && m == old(m) + done
        decreases rest
      {
        var spn :| spn in rest;
        RemainingStep(other, done, rest, spn);
        m, rest, done := m[spn := other[spn]], rest - {spn}, done[spn := other[spn]];
      }
      RemainingNone(other, done);
    }

    // Deletes the ports of `other` and reports the cluster addresses of the UDP ones among them.
    method Unmerge(other: PortMap) returns (ips: set<Label>)
      modifies this
      ensures m == old(m) - other.Keys && AreDropped(old(m), m, ips)
    {
      ips := {};
      var rest := other.Keys;
      while rest != {}
        invariant rest <= other.Keys && m == old(m) - (other.Keys - rest) && AreDropped(old(m), m, ips)
        decreases rest
      {
        var spn :| spn in rest;
        DropOne(old(m), m, spn, ips);
        if spn in m {
          if m[spn].protocol == UDP {
            ips := ips + {m[spn].clusterIP};
          }
          m := m - {spn};
        } else {
          assert m - {spn} == m;
        }
        rest := rest - {spn};
      }
      assert other.Keys - rest == other.Keys;
    }

    // Applies all pending changes and clears them.
    method Update(tracker: ServiceImportChangeTracker) returns (updated: set<NamespacedName>, deletedUDP: set<Label>)
      requires Keyed(tracker.items)
      modifies this, tracker
      ensures tracker.items == map[] && updated == old(tracker.items).Keys
      ensures AppliedBut(old(m), old(tracker.items), {}, m)
      ensures AreDropped(old(m), m, deletedUDP)
    {
      updated, deletedUDP := {}, {};
      var items := tracker.items;
      var rest := items.Keys;
      while rest != {}
        invariant tracker.items == items && rest <= items.Keys && updated == items.Keys - rest
        invariant AppliedBut(old(m), items, rest, m) && AreDropped(old(m), m, deletedUDP)
        decreases rest
      {
        var nn :| nn in rest;
        ghost var before := m;
        var ips := ApplyChange(items[nn]);
        DroppedAddUp(old(m), items, rest, before, m, nn, deletedUDP, ips);
        AppliedOne(old(m), items, rest, before, m, nn);
        updated, deletedUDP, rest := updated + {nn}, deletedUDP + ips, rest - {nn};
      }
      tracker.items := map[];
    }

    // Merges the current ports, then deletes the previous ones that are not current.
    method ApplyChange(change: Change) returns (ips: set<Label>)
      modifies this
      ensures forall spn :: Lookup(m, spn) == Exchanged(old(m), OrNone(change.previous), OrNone(change.current), spn)
      ensures AreDropped(old(m), m, ips)
    {
      Merge(OrNone(change.current));
      ghost var merged := m;
      var previous := Filter(OrNone(change.previous), OrNone(change.current));
      ips := Unmerge(previous);
      DropMerged(old(m), OrNone(change.previous), OrNone(change.current), merged, m, ips);
    }
  }

  // One more port deleted.
  lemma DropOne(was: PortMap, before: PortMap, spn: ServicePortName, ips: set<Label>)
    requires (forall s :: s in before ==> s in was && before[s] == was[s]) && AreDropped(was, before, ips)
    ensures AreDropped(was, before - {spn}, if spn in before && before[spn].protocol == UDP then ips + {before[spn].clusterIP} else ips)
  {
    var ips' := if spn in before && before[spn].protocol == UDP then ips + {before[spn].clusterIP} else ips;
    var now := before - {spn};
    forall ip | ip in ips' ensures exists s :: s in was && s !in now && was[s].protocol == UDP && was[s].clusterIP == ip {
      if ip in ips {
        var s :| s in was && s !in before && was[s].protocol == UDP && was[s].clusterIP == ip;
        assert s !in now;
      } else {
        assert spn in was && spn !in now;
      }
    }
  }

  lemma DropMerged(was: PortMap, previous: PortMap, current: PortMap, merged: PortMap, now: PortMap, ips: set<Label>)
    requires merged == was + current && now == merged - (previous - current.Keys).Keys && AreDropped(merged, now, ips)
    ensures forall spn :: Lookup(now, spn) == Exchanged(was, previous, current, spn)
    ensures AreDropped(was, now, ips)
  {
    forall ip | ip in ips ensures exists spn :: spn in was && spn !in now && was[spn].protocol == UDP && was[spn].clusterIP == ip {
      var spn :| spn in merged && spn !in now && merged[spn].protocol == UDP && merged[spn].clusterIP == ip;
      assert spn !in current;
    }
  }

  /* Runs */

  // `live` are the imports there are, as told by the events so far.
  datatype State = State(live: map<NamespacedName, ServiceImport>, items: Items, m: PortMap)

  // An import appears, changes or disappears; or the ports are updated.
  datatype Event = Import(name: NamespacedName, current: Option<ServiceImport>) | Sync

  function LiveAt(live: map<NamespacedName, ServiceImport>, name: NamespacedName): Option<ServiceImport> {
    if name in live then Some(live[name]) else None
  }

  // Each event's previous import is the last one told under the name.
  ghost predicate Step(s: State, e: Event, s': State) {
    match e
    case Import(name, current) =>
      && (current.Some? ==> current.value.name == name) && s'.m == s.m
      && s'.live == (if current.Some? then s.live[name := current.value] else s.live - {name})
      && s'.items == (if LiveAt(s.live, name).None? && current.None? then s.items else NextItems(s.items, name, LiveAt(s.live, name), current))
    case Sync => s'.live == s.live && s'.items == map[] && AppliedBut(s.m, s.items, {}, s'.m)
  }

  ghost predicate IsRun(states: seq<State>, events: seq<Event>) {
    && |states| == |events| + 1 && states[0] == State(map[], map[], map[])
    && forall i :: 0 <= i < |events| ==> Step(states[i], events[i], states[i + 1])
  }

  // A pending change leads from what the map has to what the import has; without one the two are the same.
  ghost predicate Accumulated(s: State, name: NamespacedName) {
    && (name in s.live ==> s.live[name].name == name)
    && (name in s.items ==> s.items[name].current == ToServiceMap(LiveAt(s.live, name)) && OfService(s.items[name].previous, name))
    && forall spn: ServicePortName :: spn.service == name ==>
         Lookup(s.m, spn) == if name in s.items then Lookup(OrNone(s.items[name].previous), spn) else PortOf(LiveAt(s.live, name), spn)
  }

  lemma ImportKeeps(s: State, e: Event, s': State, name: NamespacedName)
    requires e.Import? && Step(s, e, s') && Accumulated(s, name)
    ensures Accumulated(s', name)
  {
    if e.name == name {
      var previous := LiveAt(s.live, name);
      ToServiceMapKeyed(previous, name);
      forall spn: ServicePortName | spn.service == name
        ensures Lookup(s'.m, spn) == if name in s'.items then Lookup(OrNone(s'.items[name].previous), spn) else PortOf(LiveAt(s'.live, name), spn)
      {
        ToServiceMapLookup(previous, spn);
        ToServiceMapLookup(e.current, spn);
      }
    }
  }

  lemma SyncKeeps(s: State, s': State, name: NamespacedName)
    requires Step(s, Sync, s') && Accumulated(s, name)
    ensures Accumulated(s', name)
  {
    forall spn: ServicePortName | spn.service == name ensures Lookup(s'.m, spn) == PortOf(LiveAt(s.live, name), spn) {
      ToServiceMapLookup(LiveAt(s.live, name), spn);
      assert Lookup(s'.m, spn) ==
        if name in s.items then Exchanged(s.m, OrNone(s.items[name].previous), OrNone(s.items[name].current), spn) else Lookup(s.m, spn);
    }
  }

  lemma {:induction false} RunAccumulates(states: seq<State>, events: seq<Event>, name: NamespacedName)
    requires IsRun(states, events)
    ensures Accumulated(states[|events|], name)
  {
    if events != [] {
      var n := |events| - 1;
      forall i | 0 <= i < n ensures Step(states[..n + 1][i], events[..n][i], states[..n + 1][i + 1]) {
        assert Step(states[i], events[i], states[i + 1]);
      }
      RunAccumulates(states[..n + 1], events[..n], name);
      assert Step(states[n], events[n], states[n + 1]);
      if events[n].Sync? {
        SyncKeeps(states[n], states[n + 1], name);
      } else {
        ImportKeeps(states[n], events[n], states[n + 1], name);
      }
    }
  }

  // After a sync, in every run, the map holds the ports of the live imports and nothing else.
  lemma IncrementalIsRecomputed(states: seq<State>, events: seq<Event>, spn: ServicePortName)
    requires IsRun(states, events) && events != [] && events[|events| - 1] == Sync
    ensures Lookup(states[|events|].m, spn) == PortOf(LiveAt(states[|events|].live, spn.service), spn)
  {
    RunAccumulates(states, events, spn.service);
    assert Step(states[|events| - 1], events[|events| - 1], states[|events|]);
  }

  // Told by the imports: each port of each live import with an address is there under the import's name, its position and
  // its protocol, with the import's first address; and every port there is such a port.
  lemma PortsOfImports(states: seq<State>, events: seq<Event>, name: NamespacedName, i: nat)
    requires IsRun(states, events) && events != [] && events[|events| - 1] == Sync
    requires var live := states[|events|].live;
      name in live && live[name].ips != [] && live[name].ips[0] != Blank && i < |live[name].ports|
    ensures var s, p := states[|events|], states[|events|].live[name].ports[i];
      Lookup(s.m, ServicePortName(name, i, p.protocol)) == Some(ServicePort(s.live[name].ips[0], p.port, p.protocol))
  {
    var s := states[|events|];
    RunAccumulates(states, events, name);
    IncrementalIsRecomputed(states, events, ServicePortName(name, i, s.live[name].ports[i].protocol));
  }

  lemma PortHasImport(states: seq<State>, events: seq<Event>, spn: ServicePortName)
    requires IsRun(states, events) && events != [] && events[|events| - 1] == Sync && spn in states[|events|].m
    ensures var live := states[|events|].live;
      && spn.service in live && live[spn.service].ips != [] && live[spn.service].ips[0] != Blank
      && spn.port < |live[spn.service].ports| && live[spn.service].ports[spn.port].protocol == spn.protocol
  {
    IncrementalIsRecomputed(states, events, spn);
  }

  /* Reported addresses that are still in use */

  ghost predicate InUse(m: PortMap, ip: Label) {
    exists spn :: spn in m && m[spn].clusterIP == ip
  }

  // Some live import has the address as its cluster address and has a port.
  ghost predicate Served(live: map<NamespacedName, ServiceImport>, ip: Label) {
    exists name :: name in live && HasClusterIP(live[name]) && live[name].ips[0] == ip && live[name].ports != []
  }

  lemma ServedIsInUse(states: seq<State>, events: seq<Event>, name: NamespacedName)
    requires IsRun(states, events) && events != [] && events[|events| - 1] == Sync
    requires var live := states[|events|].live; name in live && HasClusterIP(live[name]) && live[name].ports != []
    ensures InUse(states[|events|].m, states[|events|].live[name].ips[0])
  {
    var s := states[|events|];
    RunAccumulates(states, events, name);
    var spn := ServicePortName(name, 0, s.live[name].ports[0].protocol);
    IncrementalIsRecomputed(states, events, spn);
    assert spn in s.m;
  }

  // After a sync, in every run, an address is still in the map exactly if a live import with a port has it. This
  // goes for the addresses the sync reported as deleted, too.
  lemma StillInUse(states: seq<State>, events: seq<Event>, ip: Label)
    requires IsRun(states, events) && events != [] && events[|events| - 1] == Sync
    ensures InUse(states[|events|].m, ip) <==> Served(states[|events|].live, ip)
  {
    var s := states[|events|];
    if spn :| spn in s.m && s.m[spn].clusterIP == ip {
      IncrementalIsRecomputed(states, events, spn);
      assert spn.service in s.live && s.live[spn.service].ips[0] == ip;
    }
    if name :| name in s.live && HasClusterIP(s.live[name]) && s.live[name].ips[0] == ip && s.live[name].ports != [] {
      ServedIsInUse(states, events, name);
    }
  }

  // An import with a TCP and a UDP port loses the UDP port: its address is reported although it is still in use.
  lemma ReportedButInUse(states: seq<State>, name: NamespacedName, ip: Label, ips: set<Label>)
    requires ip != Blank
    requires var tcp, udp := ImportPort(80, TCP), ImportPort(53, UDP);
      IsRun(states, [Import(name, Some(ServiceImport(name, [ip], [tcp, udp]))), Sync, Import(name, Some(ServiceImport(name, [ip], [tcp]))), Sync])
    requires AreDropped(states[3].m, states[4].m, ips)
    ensures ip in ips && InUse(states[4].m, ip)
  {
    var tcp, udp := ImportPort(80, TCP), ImportPort(53, UDP);
    var both, less := ServiceImport(name, [ip], [tcp, udp]), ServiceImport(name, [ip], [tcp]);
    var events := [Import(name, Some(both)), Sync, Import(name, Some(less)), Sync];
    assert Step(states[0], events[0], states[1]) && Step(states[1], events[1], states[2]);
    assert Step(states[2], events[2], states[3]) && Step(states[3], events[3], states[4]);
    assert IsRun(states[..3], events[..2]) by {
      forall i | 0 <= i < 2 ensures Step(states[..3][i], events[..2][i], states[..3][i + 1]) {
        assert Step(states[i], events[i], states[i + 1]);
      }
    }
    var dns := ServicePortName(name, 1, UDP);
    IncrementalIsRecomputed(states[..3], events[..2], dns);
    IncrementalIsRecomputed(states, events, dns);
    assert dns in states[3].m && dns !in states[4].m;
    assert states[4].live[name] == less;
    ServedIsInUse(states, events, name);
  }
}
