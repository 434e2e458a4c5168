/**
 From the slices last delivered to the real servers in the kernel.
 */
module Routing {
  import opened Discovery
  import opened EndpointGroups
  import opened EndpointSliceCache
  import opened EndpointsMaps
  import opened GracefulTermination
  import PE = ProxyEndpoints
  import ER = EndpointRuns
  import SR = SyncRuns
  import opened Categories

  // The slice last delivered under these names, none of them blank, was no removal and yields x.
  ghost predicate LatestSliceYields(c: Config, events: seq<ER.Event>, namespace: Label, service: Label, slice: Label,
                                    spn: ServicePortName, x: PE.Endpoint) {
    && Blank !in {namespace, service, slice} && ER.Latest(events, namespace, service, slice).Some?
    && Yields(c, ER.Latest(events, namespace, service, slice).value, spn, x)
  }

  // What the slices last delivered yield for a service port.
  ghost predicate LatestYields(c: Config, events: seq<ER.Event>, spn: ServicePortName, x: PE.Endpoint) {
    exists namespace, service, slice :: LatestSliceYields(c, events, namespace, service, slice, spn, x)
  }

  ghost function LatestEndpoints(c: Config, events: seq<ER.Event>, spn: ServicePortName): iset<PE.Endpoint> {
    iset x | LatestYields(c, events, spn, x)
  }

  // After a sync the applied slices are the latest ones.
  lemma AppliedIsLatest(c: Config, states: seq<ER.State>, events: seq<ER.Event>, namespace: Label, service: Label, slice: Label)
    requires ER.IsRun(c, states, events) && events != [] && events[|events| - 1].Sync?
    ensures var slices := AppliedAt(states[|events|].trackers, NamespacedName(namespace, service));
      && (slice in slices <==> Blank !in {namespace, service, slice} && ER.Latest(events, namespace, service, slice).Some?)
      && (slice in slices ==> slices[slice] == ER.Latest(events, namespace, service, slice).value)
  {
    var n := |events| - 1;
    ER.ViewIsLatest(c, states, events, namespace, service, slice);
    ER.RunPrefix(c, states, events);
    var changes, order :| ER.Syncs(c, states[n], states[n + 1], changes, order);
    ER.NothingPending(c, states[n].trackers, states[n + 1].trackers, changes);
    ER.AppliedIsView(states[n + 1].trackers, CacheKey(NamespacedName(namespace, service), slice));
  }

  // So what they yield is what some service's applied slices yield.
  lemma LatestIsApplied(c: Config, states: seq<ER.State>, events: seq<ER.Event>, spn: ServicePortName, x: PE.Endpoint)
    requires ER.IsRun(c, states, events) && events != [] && events[|events| - 1].Sync?
    ensures LatestYields(c, events, spn, x) <==> exists k :: x in Yielded(c, AppliedAt(states[|events|].trackers, k), spn)
  {
    var ts := states[|events|].trackers;
    if namespace, service, slice :| LatestSliceYields(c, events, namespace, service, slice, spn, x) {
      var k := NamespacedName(namespace, service);
      AppliedIsLatest(c, states, events, namespace, service, slice);
      assert AnyYields(c, AppliedAt(ts, k), spn, x);
      assert x in Yielded(c, AppliedAt(ts, k), spn);
    }
    if k :| x in Yielded(c, AppliedAt(ts, k), spn) {
      var n :| n in AppliedAt(ts, k) && Yields(c, AppliedAt(ts, k)[n], spn, x);
      AppliedIsLatest(c, states, events, k.namespace, k.name, n);
      assert LatestSliceYields(c, events, k.namespace, k.name, n, spn, x);
    }
  }

  // If no two services share a port, a sync leaves in the map exactly the ports of the slices last delivered, each with
  // the list of its endpoints.
  lemma MapIsLatest(c: Config, states: seq<ER.State>, events: seq<ER.Event>, spn: ServicePortName)
    requires ER.IsRun(c, states, events) && ER.Separate(c, events) && events != [] && events[|events| - 1].Sync?
    ensures spn in states[|events|].m <==> exists x :: LatestYields(c, events, spn, x)
    ensures spn in states[|events|].m ==> PE.ListOf(LatestEndpoints(c, events, spn), states[|events|].m[spn])
  {
    var s := states[|events|];
    ER.IncrementalIsRecomputed(c, states, events);
    assert PortAgrees(c, s.trackers, s.m, spn);
    if spn in s.m {
      var k :| HasPort(c, AppliedAt(s.trackers, k), spn);
      LatestFromService(c, states, events, spn, k);
    } else if x :| LatestYields(c, events, spn, x) {
      LatestIsApplied(c, states, events, spn, x);
      NoService(c, states, events, spn);
    }
  }

  // The service that has the port yields all its endpoints.
  lemma LatestFromService(c: Config, states: seq<ER.State>, events: seq<ER.Event>, spn: ServicePortName, k: NamespacedName)
    requires ER.IsRun(c, states, events) && ER.Separate(c, events) && events != [] && events[|events| - 1].Sync?
    requires HasPort(c, AppliedAt(states[|events|].trackers, k), spn)
    ensures LatestEndpoints(c, events, spn) == Yielded(c, AppliedAt(states[|events|].trackers, k), spn)
    ensures exists x :: LatestYields(c, events, spn, x)
  {
    var all := Yielded(c, AppliedAt(states[|events|].trackers, k), spn);
    OnlyService(c, states, events, spn, k);
    forall x ensures x in LatestEndpoints(c, events, spn) <==> x in all {
      LatestIsApplied(c, states, events, spn, x);
    }
    var x :| x in all;
    assert x in LatestEndpoints(c, events, spn);
  }

  lemma OnlyService(c: Config, states: seq<ER.State>, events: seq<ER.Event>, spn: ServicePortName, k: NamespacedName)
    requires ER.IsRun(c, states, events) && ER.Separate(c, events) && HasPort(c, AppliedAt(states[|events|].trackers, k), spn)
    ensures forall k', x :: x in Yielded(c, AppliedAt(states[|events|].trackers, k'), spn) ==> k' == k
  {
    var ts := states[|events|].trackers;
    ER.RunSourced(c, states, events);
    ER.ViewIsLatest(c, states, events, Blank, Blank, Blank);
    ER.SeparateApart(c, events, ts, ts);
    forall k', x | x in Yielded(c, AppliedAt(ts, k'), spn) ensures k' == k {
      assert HasPort(c, AppliedAt(ts, k'), spn);
      assert PortBeforeOrAfter(c, ts, ts, k, spn) && PortBeforeOrAfter(c, ts, ts, k', spn);
    }
  }

  lemma NoService(c: Config, states: seq<ER.State>, events: seq<ER.Event>, spn: ServicePortName)
    requires |states| == |events| + 1
    requires Agrees(c, states[|events|].trackers, states[|events|].m) && spn !in states[|events|].m
    ensures forall k, x :: x !in Yielded(c, AppliedAt(states[|events|].trackers, k), spn)
  {
    var s := states[|events|];
    assert PortAgrees(c, s.trackers, s.m, spn);
    forall k, x ensures x !in Yielded(c, AppliedAt(s.trackers, k), spn) {
      assert x in Yielded(c, AppliedAt(s.trackers, k), spn) ==> HasPort(c, AppliedAt(s.trackers, k), spn);
    }
  }

  /* Told by the deliveries */

  // Event i delivers a slice whose names are not blank, no later event delivers it again, and it is no removal.
  ghost predicate LastDelivery(events: seq<ER.Event>, i: nat) {
    && i < |events| && events[i].Deliver? && !events[i].d.info.remove
    && var d := events[i].d;
    && d.serviceLabel.Some? && Blank !in {d.namespace, d.serviceLabel.value, d.name}
    && forall k :: i < k < |events| && events[k].Deliver? ==>
         events[k].d.namespace != d.namespace || events[k].d.serviceLabel != d.serviceLabel || events[k].d.name != d.name
  }

  lemma {:induction false} LatestAt(events: seq<ER.Event>, i: nat)
    requires LastDelivery(events, i)
    ensures var d := events[i].d; ER.Latest(events, d.namespace, d.serviceLabel.value, d.name) == Some(d.info)
  {
    var n := |events| - 1;
    if i < n {
      assert events[..n][i] == events[i];
      LatestAt(events[..n], i);
    }
  }

  lemma {:induction false} LatestHasEvent(events: seq<ER.Event>, namespace: Label, service: Label, slice: Label) returns (i: nat)
    requires ER.Latest(events, namespace, service, slice).Some? && Blank !in {namespace, service, slice}
    ensures LastDelivery(events, i) && events[i].d.info == ER.Latest(events, namespace, service, slice).value
    ensures events[i].d.namespace == namespace && events[i].d.serviceLabel == Some(service) && events[i].d.name == slice
  {
    var n := |events| - 1;
    if ER.DeliversSlice(events[n], namespace, service, slice) {
      i := n;
    } else {
      i := LatestHasEvent(events[..n], namespace, service, slice);
      assert events[i] == events[..n][i];
    }
  }

  ghost predicate ListedAs(c: Config, e: EndpointInfo, port: int, list: seq<PE.Endpoint>)
    requires e.addresses != []
  {
    exists l :: 0 <= l < |list| && list[l].text == JoinHostPort(e.addresses[0].text, Itoa(port))
                && (c.hostname != "" && e.nodeName == Some(c.hostname) ==> list[l].isLocal)
  }

  // Every usable endpoint of every slice last delivered is listed under each port of the slice that has a name and a
  // number, by address and port, and as local if it is on this node.
  lemma DeliveryIsListed(c: Config, states: seq<ER.State>, events: seq<ER.Event>, i: nat, p: nat, j: nat)
    requires ER.IsRun(c, states, events) && ER.Separate(c, events) && events != [] && events[|events| - 1].Sync?
    requires LastDelivery(events, i)
    requires var info := events[i].d.info;
      && p < |info.ports| && info.ports[p].name.Some? && info.ports[p].port.Some? && info.ports[p].port.value != 0
      && j < |info.endpoints| && info.endpoints[j].addresses != [] && info.endpoints[j].addresses[0].ipv6 == c.ipv6
    ensures var info, m := events[i].d.info, states[|events|].m;
      var spn, e := ServicePortName(info.service, p, info.ports[p].protocol), info.endpoints[j];
      spn in m && ListedAs(c, e, info.ports[p].port.value, m[spn])
  {
    var d := events[i].d;
    var spn := ServicePortName(d.info.service, p, d.info.ports[p].protocol);
    var x := MakeEndpoint(c, d.info.endpoints[j], d.info.ports[p].port.value);
    LatestAt(events, i);
    assert Makes(c, d.info.endpoints, d.info.ports[p].port.value, x);
    assert LatestSliceYields(c, events, d.namespace, d.serviceLabel.value, d.name, spn, x);
    assert LatestYields(c, events, spn, x);
    MapIsLatest(c, states, events, spn);
    assert x in LatestEndpoints(c, events, spn);
    assert PE.Listed(states[|events|].m[spn], x);
  }

  // x is what the endpoint e and a port number make.
  ghost predicate Describes(c: Config, e: EndpointInfo, port: int, x: PE.Endpoint) {
    && e.addresses != [] && e.addresses[0].ipv6 == c.ipv6 && x.text == JoinHostPort(e.addresses[0].text, Itoa(port))
    && x.ready == e.ready && x.serving == e.serving && x.terminating == e.terminating && x.zoneHints == e.zoneHints
    && (x.isLocal <==> c.hostname != "" && e.nodeName == Some(c.hostname))
    && (e.nodeName.Some? ==> x.nodeName == e.nodeName.value) && (e.zone.Some? ==> x.zone == e.zone.value)
  }

  lemma MadeAsDescribed(c: Config, e: EndpointInfo, port: int)
    requires Usable(c, e)
    ensures Describes(c, e, port, MakeEndpoint(c, e, port))
  {
  }

  // Every listed endpoint was delivered: it is as ready, serving, terminating, hinted and local as some endpoint of a
  // slice last delivered, for the slice's port of that position, name and protocol.
  lemma ListedWasDelivered(c: Config, states: seq<ER.State>, events: seq<ER.Event>, spn: ServicePortName, l: nat) returns (i: nat, j: nat)
    requires ER.IsRun(c, states, events) && ER.Separate(c, events) && events != [] && events[|events| - 1].Sync?
    requires spn in states[|events|].m && l < |states[|events|].m[spn]|
    ensures LastDelivery(events, i)
    ensures var info := events[i].d.info;
      && spn.service == info.service && spn.port < |info.ports| && spn.protocol == info.ports[spn.port].protocol
      && info.ports[spn.port].name.Some? && info.ports[spn.port].port.Some? && info.ports[spn.port].port.value != 0
      && j < |info.endpoints| && Describes(c, info.endpoints[j], info.ports[spn.port].port.value, states[|events|].m[spn][l])
  {
    var x := states[|events|].m[spn][l];
    MapIsLatest(c, states, events, spn);
    assert x in LatestEndpoints(c, events, spn);
    var namespace, service, slice :| LatestSliceYields(c, events, namespace, service, slice, spn, x);
    i := LatestHasEvent(events, namespace, service, slice);
    var info := events[i].d.info;
    j :| 0 <= j < |info.endpoints| && Usable(c, info.endpoints[j]) && x == MakeEndpoint(c, info.endpoints[j], info.ports[spn.port].port.value);
    MadeAsDescribed(c, info.endpoints[j], info.ports[spn.port].port.value);
  }

  function ServersOf(es: seq<PE.Endpoint>): set<RealServer> {
    set e <- es :: RealServer(e.text)
  }

  // The servers that receive new connections.
  ghost predicate ReceiveExactly(s: SR.State, servers: set<RealServer>) {
    forall rs :: rs in s.table && s.table[rs].weight == 1 <==> rs in servers
  }

  lemma ReceivingIsConverged(s: SR.State, servers: set<RealServer>)
    ensures ReceiveExactly(s, servers) <==> SR.Converged(s, servers)
  {
    if SR.Converged(s, servers) {
      forall rs ensures rs in s.table && s.table[rs].weight == 1 <==> rs in servers {
        assert SR.Of(s, rs).dest.Some? && SR.Of(s, rs).dest.value.weight == 1 <==> rs in servers;
      }
    }
  }

  // Slices are delivered, the map is synced, and then a virtual server, at any point of its own life, is synced with its
  // port's entry without a failing call. The servers that receive new connections are those of the endpoints chosen from
  // the slices last delivered, exactly if it is the first sync or no chosen server had a stale weight.
  lemma RoutesToLatest(c: Config, states: seq<ER.State>, events: seq<ER.Event>, spn: ServicePortName,
                       policy: Option<Policy>, onlyLocal: bool, gate: bool, zone: Option<string>,
                       protocol: Protocol, life: seq<SR.State>, lived: seq<SR.Event>, list: seq<PE.Endpoint>, desired: set<RealServer>)
    requires ER.IsRun(c, states, events) && ER.Separate(c, events) && events != [] && events[|events| - 1].Sync?
    requires spn in states[|events|].m && list == states[|events|].m[spn]
    requires desired == ServersOf(ToSync(list, policy, onlyLocal, gate, zone))
    requires SR.IsRun(protocol, life, lived) && lived != [] && lived[|lived| - 1] == SR.SyncWith(desired, true)
    ensures PE.ListOf(LatestEndpoints(c, events, spn), list)
    ensures ReceiveExactly(life[|lived|], desired) <==> life[|lived| - 1].first || !SR.StaleWeight(life[|lived| - 1], desired)
  {
    var n := |lived| - 1;
    MapIsLatest(c, states, events, spn);
    SR.RunOrderly(protocol, life, lived, n);
    assert SR.Step(protocol, life[n], lived[n], life[n + 1]);
    SR.ConvergesUnlessStale(protocol, life[n], desired, life[n + 1]);
    ReceivingIsConverged(life[n + 1], desired);
  }

  // In particular once the weights of the virtual server have been right at any time of its life.
  lemma RoutesOnceRight(protocol: Protocol, life: seq<SR.State>, lived: seq<SR.Event>, i: nat, desired: set<RealServer>)
    requires SR.IsRun(protocol, life, lived) && lived != [] && lived[|lived| - 1] == SR.SyncWith(desired, true)
    requires i < |lived| && SR.RightFrom(life, lived, i)
    ensures life[|lived| - 1].first || !SR.StaleWeight(life[|lived| - 1], desired)
  {
    var n := |lived| - 1;
    if i < n {
      SR.WeightsFollowTheList(protocol, life, lived, i, n);
    }
    if SR.UnlistedAreOne(life[n]) {
      forall x | x in desired && x in life[n].table && x !in life[n].list ensures life[n].table[x].weight == 1 {
        assert SR.Of(life[n], x).dest.Some?;
      }
    }
  }
}
