/**
 The endpoints a service should have, by port mapping, computed from its pods.
 */
module DesiredEndpoints {
  import opened Sequences
  import opened Discovery
  import opened EndpointSets
  import opened Keeping

  datatype NodeLookup = Found | NotFound | LookupFailed

  // A pod as far as reconciling needs it: whether it belongs in endpoints at all, the ports it
  // offers, what the lookup of its node yielded, and the endpoint made from it.
  datatype Pod = Pod(inEndpoints: bool, ports: seq<EndpointPort>, node: NodeLookup, endpoint: Endpoint)

  type DesiredByPorts = map<PortMapKey, Desired>

  function Want(d: DesiredByPorts, g: PortMapKey): Desired {
    if g in d then d[g] else map[]
  }

  // The pod's endpoint is published.
  predicate Published(pod: Pod, publishNotReady: bool) {
    pod.inEndpoints && (pod.node.Found? || (pod.node.NotFound? && publishNotReady)) && pod.endpoint.key.addresses != []
  }

  predicate Skipped(pod: Pod, publishNotReady: bool) {
    pod.inEndpoints && pod.node.NotFound? && !publishNotReady
  }

  predicate Aborts(pod: Pod) {
    pod.inEndpoints && pod.node.LookupFailed?
  }

  // d is what the pods ask for: one group for every port mapping offered, and under each key the
  // endpoint of the last published pod of that group with that key.
  ghost predicate Asked(pods: seq<Pod>, publishNotReady: bool, d: DesiredByPorts) {
    && (forall g :: g in d <==> exists i :: 0 <= i < |pods| && pods[i].inEndpoints && PortKey(pods[i].ports) == g)
    && (forall g, k :: k in Want(d, g) <==> exists i :: LastPublished(pods, publishNotReady, g, k, i))
    && (forall g, k, i :: LastPublished(pods, publishNotReady, g, k, i) ==> k in Want(d, g) && Want(d, g)[k] == pods[i].endpoint)
  }

  ghost predicate LastPublished(pods: seq<Pod>, publishNotReady: bool, g: PortMapKey, k: EndpointKey, i: int) {
    && 0 <= i < |pods| && Published(pods[i], publishNotReady) && PortKey(pods[i].ports) == g && pods[i].endpoint.key == k
    && forall j :: i < j < |pods| && Published(pods[j], publishNotReady) && PortKey(pods[j].ports) == g ==> pods[j].endpoint.key != k
  }

  ghost predicate KeyedGroups(d: DesiredByPorts) {
    forall g :: g in d ==> KeyedByKey(d[g])
  }

  // Each group has the ports of one of its pods.
  predicate PortsFor(d: DesiredByPorts, ports: map<PortMapKey, seq<EndpointPort>>) {
    d.Keys == ports.Keys && forall g :: g in ports ==> PortKey(ports[g]) == g
  }

  function AddPod(d: DesiredByPorts, pod: Pod, publishNotReady: bool): DesiredByPorts {
    var g := PortKey(pod.ports);
    if !pod.inEndpoints then d
    else if Published(pod, publishNotReady) then d[g := Want(d, g)[pod.endpoint.key := pod.endpoint]]
    else d[g := Want(d, g)]
  }

  lemma WantAddPod(d: DesiredByPorts, pod: Pod, publishNotReady: bool, g: PortMapKey)
    ensures Want(AddPod(d, pod, publishNotReady), g) ==
      if Published(pod, publishNotReady) && PortKey(pod.ports) == g then Want(d, g)[pod.endpoint.key := pod.endpoint] else Want(d, g)
    ensures g in AddPod(d, pod, publishNotReady) <==> g in d || (pod.inEndpoints && PortKey(pod.ports) == g)
  {
  }

  lemma LastPublishedSnoc(pods: seq<Pod>, pod: Pod, publishNotReady: bool, g: PortMapKey, k: EndpointKey, i: int)
    ensures LastPublished(pods + [pod], publishNotReady, g, k, i) <==>
      if Published(pod, publishNotReady) && PortKey(pod.ports) == g && pod.endpoint.key == k then i == |pods|
      else LastPublished(pods, publishNotReady, g, k, i)
  {
    var all := pods + [pod];
    assert all[|pods|] == pod;
    assert forall j :: 0 <= j < |pods| ==> all[j] == pods[j];
  }

  lemma AskedSnoc(pods: seq<Pod>, pod: Pod, publishNotReady: bool, d: DesiredByPorts)
    requires Asked(pods, publishNotReady, d)
    ensures Asked(pods + [pod], publishNotReady, AddPod(d, pod, publishNotReady))
  {
    var all, d' := pods + [pod], AddPod(d, pod, publishNotReady);
    forall g
      ensures g in d' <==> exists i :: 0 <= i < |all| && all[i].inEndpoints && PortKey(all[i].ports) == g
    {
      WantAddPod(d, pod, publishNotReady, g);
      assert all[|pods|] == pod;
      if i :| 0 <= i < |pods| && pods[i].inEndpoints && PortKey(pods[i].ports) == g {
        assert all[i] == pods[i];
      }
    }
    forall g, k, i
      ensures LastPublished(all, publishNotReady, g, k, i) ==> k in Want(d', g) && Want(d', g)[k] == all[i].endpoint
    {
      WantAddPod(d, pod, publishNotReady, g);
      LastPublishedSnoc(pods, pod, publishNotReady, g, k, i);
    }
    forall g, k
      ensures k in Want(d', g) ==> exists i :: LastPublished(all, publishNotReady, g, k, i)
    {
      WantAddPod(d, pod, publishNotReady, g);
      if k in Want(d', g) {
        if Published(pod, publishNotReady) && PortKey(pod.ports) == g && pod.endpoint.key == k {
          LastPublishedSnoc(pods, pod, publishNotReady, g, k, |pods|);
        } else {
          var i :| LastPublished(pods, publishNotReady, g, k, i);
          LastPublishedSnoc(pods, pod, publishNotReady, g, k, i);
        }
      }
    }
  }

  function DesiredFrom(pods: seq<Pod>, publishNotReady: bool): DesiredByPorts {
    if pods == [] then map[]
    else AddPod(DesiredFrom(pods[..|pods| - 1], publishNotReady), pods[|pods| - 1], publishNotReady)
  }

  function PortsFrom(pods: seq<Pod>): map<PortMapKey, seq<EndpointPort>> {
    if pods == [] then map[] else AddPorts(PortsFrom(pods[..|pods| - 1]), pods[|pods| - 1])
  }

  function AddPorts(ports: map<PortMapKey, seq<EndpointPort>>, pod: Pod): map<PortMapKey, seq<EndpointPort>> {
    if pod.inEndpoints && PortKey(pod.ports) !in ports then ports[PortKey(pod.ports) := pod.ports] else ports
  }

  lemma {:induction false} DesiredIsAsked(pods: seq<Pod>, publishNotReady: bool)
    ensures Asked(pods, publishNotReady, DesiredFrom(pods, publishNotReady))
  {
    if pods != [] {
      var n := |pods| - 1;
      DesiredIsAsked(pods[..n], publishNotReady);
      AskedSnoc(pods[..n], pods[n], publishNotReady, DesiredFrom(pods[..n], publishNotReady));
      assert pods == pods[..n] + [pods[n]];
    }
  }

  lemma {:induction false} DesiredIsKeyed(pods: seq<Pod>, publishNotReady: bool)
    ensures KeyedGroups(DesiredFrom(pods, publishNotReady)) && PortsFor(DesiredFrom(pods, publishNotReady), PortsFrom(pods))
  {
    if pods != [] {
      var n := |pods| - 1;
      DesiredIsKeyed(pods[..n], publishNotReady);
      AddPodKeyed(DesiredFrom(pods[..n], publishNotReady), PortsFrom(pods[..n]), pods[n], publishNotReady);
    }
  }

  lemma AddPodKeyed(d: DesiredByPorts, ports: map<PortMapKey, seq<EndpointPort>>, pod: Pod, publishNotReady: bool)
    requires KeyedGroups(d) && PortsFor(d, ports)
    ensures KeyedGroups(AddPod(d, pod, publishNotReady)) && PortsFor(AddPod(d, pod, publishNotReady), AddPorts(ports, pod))
  {
    var d', ports' := AddPod(d, pod, publishNotReady), AddPorts(ports, pod);
    forall g ensures g in d' ==> KeyedByKey(d'[g]) {
      WantAddPod(d, pod, publishNotReady, g);
      KeyedInsert(Want(d, g), pod.endpoint);
    }
    forall g ensures g in d' <==> g in ports' {
      WantAddPod(d, pod, publishNotReady, g);
    }
  }

  lemma KeyedInsert(m: Desired, e: Endpoint)
    requires KeyedByKey(m)
    ensures KeyedByKey(m[e.key := e])
  {
  }

  // What the first n pods come to.
  ghost predicate Built(pods: seq<Pod>, n: nat, publishNotReady: bool, d: DesiredByPorts, ports: map<PortMapKey, seq<EndpointPort>>, skipped: bool)
    requires n <= |pods|
  {
    && d == DesiredFrom(pods[..n], publishNotReady) && ports == PortsFrom(pods[..n])
    && (forall i :: 0 <= i < n ==> !Aborts(pods[i]))
    && (skipped <==> exists i :: 0 <= i < n && Skipped(pods[i], publishNotReady))
  }

  lemma BuiltStep(pods: seq<Pod>, n: nat, publishNotReady: bool, d: DesiredByPorts, ports: map<PortMapKey, seq<EndpointPort>>, skipped: bool)
    requires n < |pods| && Built(pods, n, publishNotReady, d, ports, skipped) && !Aborts(pods[n])
    ensures Built(pods, n + 1, publishNotReady, AddPod(d, pods[n], publishNotReady), AddPorts(ports, pods[n]),
                  skipped || Skipped(pods[n], publishNotReady))
  {
    PrefixStep(pods, n);
  }

  // The desired endpoints by port mapping. A failed node lookup aborts; a missing node skips the pod
  // and is reported, unless the service publishes such addresses.
  method BuildDesired(pods: seq<Pod>, publishNotReady: bool)
    returns (ok: bool, desired: DesiredByPorts, ports: map<PortMapKey, seq<EndpointPort>>, skipped: bool)
    ensures ok <==> forall i :: 0 <= i < |pods| ==> !Aborts(pods[i])
    ensures ok ==> desired == DesiredFrom(pods, publishNotReady) && ports == PortsFrom(pods)
    ensures ok ==> (skipped <==> exists i :: 0 <= i < |pods| && Skipped(pods[i], publishNotReady))
  {
    ok, desired, ports, skipped := true, map[], map[], false;
    for n := 0 to |pods|
      invariant ok && Built(pods, n, publishNotReady, desired, ports, skipped)
    {
      var taken, d', ports', skip := TakePod(desired, ports, pods[n], publishNotReady);
      if !taken {
        ok := false;
        return;
      }
      BuiltStep(pods, n, publishNotReady, desired, ports, skipped);
      desired, ports, skipped := d', ports', skipped || skip;
    }
    WholePrefix(pods);
  }

  method TakePod(d: DesiredByPorts, ports: map<PortMapKey, seq<EndpointPort>>, pod: Pod, publishNotReady: bool)
    returns (ok: bool, d': DesiredByPorts, ports': map<PortMapKey, seq<EndpointPort>>, skipped: bool)
    ensures ok <==> !Aborts(pod)
    ensures ok ==> d' == AddPod(d, pod, publishNotReady) && ports' == AddPorts(ports, pod)
    ensures ok ==> (skipped <==> Skipped(pod, publishNotReady))
  {
    ok, d', ports', skipped := true, d, ports, false;
    if !pod.inEndpoints {
      return;
    }
    var g := PortKey(pod.ports);
    if g !in d' {
      d' := d'[g := map[]];
    }
    if g !in ports' {
      ports' := ports'[g := pod.ports];
    }
    if pod.node.LookupFailed? {
      ok := false;
    } else if pod.node.NotFound? && !publishNotReady {
      skipped := true;
    } else if pod.endpoint.key.addresses != [] {
      d' := d'[g := d'[g][pod.endpoint.key := pod.endpoint]];
    }
  }
}
