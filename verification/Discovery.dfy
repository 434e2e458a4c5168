/**
 The discovery objects the reconciler and the topology cache work on, the key that
 identifies an endpoint, and the counting functions that conservation is stated with.
 */
module Discovery {

  datatype Option<+T> = None | Some(value: T)

  datatype AddressType = IPv4 | IPv6 | FQDN

  datatype Protocol = TCP | UDP | SCTP

  // The attributes of an endpoint that its hash is computed from: the addresses in sorted order,
  // the hostname, and the namespace and name of the target. Two endpoints with equal attributes
  // have equal hashes, and the hash is taken to be injective.
  datatype EndpointKey = EndpointKey(addresses: seq<string>, hostname: string, namespace: string, name: string)

  // The attributes of the target reference that the hash does not cover.
  datatype TargetReference = TargetReference(kind: string, uid: string, resourceVersion: string)

  datatype OwnerReference = OwnerReference(uid: string, kind: string, apiVersion: string)

  datatype EndpointPort =
    EndpointPort(name: Option<string>, port: Option<int>, protocol: Option<string>, appProtocol: Option<string>)

  datatype Conditions = Conditions(ready: Option<bool>, serving: Option<bool>, terminating: Option<bool>)

  // The name of a zone. Zone names are only compared; NoZone is the empty name.
  datatype Zone = NoZone | Zone(id: nat)

  // `hints` is None for a nil pointer and otherwise the zone names of ForZones.
  datatype Endpoint = Endpoint(
    key: EndpointKey,
    targetRef: Option<TargetReference>,
    nodeName: Option<string>,
    zone: Option<Zone>,
    conditions: Conditions,
    hints: Option<seq<Zone>>)

  // The name of a slice. Names are only compared; a slice about to be created has none yet.
  datatype Name = Unset | Assigned(id: nat)

  datatype EndpointSlice = EndpointSlice(
    name: Name,
    namespace: string,
    labels: map<string, string>,
    owners: seq<OwnerReference>,
    ports: seq<EndpointPort>,
    addressType: AddressType,
    endpoints: seq<Endpoint>)

  datatype Service = Service(
    name: string,
    namespace: string,
    uid: string,
    labels: map<string, string>,
    terminating: bool,
    publishNotReadyAddresses: bool)

  // What identifies a port mapping. The ports are sorted before hashing, so their order does not matter,
  // and the hash is taken to be injective.
  datatype PortMapKey = PortMapKey(ports: multiset<EndpointPort>)

  function PortKey(ports: seq<EndpointPort>): PortMapKey {
    PortMapKey(multiset(ports))
  }

  // Equality of target references with the resource version ignored.
  predicate SameTarget(a: Option<TargetReference>, b: Option<TargetReference>) {
    match (a, b)
    case (None, None) => true
    case (Some(x), Some(y)) => x.(resourceVersion := "") == y.(resourceVersion := "")
    case _ => false
  }

  // One pointer is nil and the other is not, or what they point to differs.
  predicate PointerChanged<T(==)>(a: Option<T>, b: Option<T>) {
    a.Some? != b.Some? || (a.Some? && b.Some? && a.value != b.value)
  }

  // Endpoints with the same key are the same version if nothing outside the key and the hints differs, except for the
  // resource version of the target.
  predicate EqualBeyondHash(a: Endpoint, b: Endpoint): (same: bool)
    ensures same <==>
      && a.nodeName == b.nodeName && a.zone == b.zone
      && a.conditions.ready == b.conditions.ready && a.conditions.serving == b.conditions.serving
      && a.conditions.terminating == b.conditions.terminating
      && (a.targetRef.Some? <==> b.targetRef.Some?)
      && (a.targetRef.Some? && b.targetRef.Some? ==>
            a.targetRef.value.kind == b.targetRef.value.kind && a.targetRef.value.uid == b.targetRef.value.uid)
  {
    if PointerChanged(a.nodeName, b.nodeName) then false
    else if PointerChanged(a.zone, b.zone) then false
    else if PointerChanged(a.conditions.ready, b.conditions.ready) then false
    else if PointerChanged(a.conditions.serving, b.conditions.serving) then false
    else if PointerChanged(a.conditions.terminating, b.conditions.terminating) then false
    else SameTarget(a.targetRef, b.targetRef)
  }

  predicate Owns(service: Service, s: EndpointSlice) {
    exists i :: 0 <= i < |s.owners| && s.owners[i] == OwnerReference(service.uid, "Service", "v1")
  }

  /* Names */

  function Names(ss: seq<EndpointSlice>): set<Name> {
    set s <- ss :: s.name
  }

  ghost function NameIndex(ss: seq<EndpointSlice>, name: Name): (i: nat)
    requires name in Names(ss)
    ensures i < |ss| && ss[i].name == name
  {
    var i :| 0 <= i < |ss| && ss[i].name == name;
    i
  }

  predicate DistinctNames(ss: seq<EndpointSlice>) {
    forall i, j :: 0 <= i < j < |ss| ==> ss[i].name != ss[j].name
  }

  /* Counting endpoints by key */

  function CountKey(es: seq<Endpoint>, k: EndpointKey): nat {
    if es == [] then 0
    else CountKey(es[..|es| - 1], k) + (if es[|es| - 1].key == k then 1 else 0)
  }

  function Occurrences(ss: seq<EndpointSlice>, k: EndpointKey): nat {
    if ss == [] then 0
    else Occurrences(ss[..|ss| - 1], k) + CountKey(ss[|ss| - 1].endpoints, k)
  }

  function TotalEndpoints(ss: seq<EndpointSlice>): nat {
    if ss == [] then 0 else TotalEndpoints(ss[..|ss| - 1]) + |ss[|ss| - 1].endpoints|
  }

  lemma CountKeySnoc(es: seq<Endpoint>, e: Endpoint, k: EndpointKey)
    ensures CountKey(es + [e], k) == CountKey(es, k) + (if e.key == k then 1 else 0)
  {
    assert (es + [e])[..|es|] == es;
  }

  lemma CountKeyPositive(es: seq<Endpoint>, i: nat)
    requires i < |es|
    ensures CountKey(es, es[i].key) >= 1
  {
    if i < |es| - 1 {
      CountKeyPositive(es[..|es| - 1], i);
    }
  }

  lemma OccurrencesSnoc(ss: seq<EndpointSlice>, s: EndpointSlice, k: EndpointKey)
    ensures Occurrences(ss + [s], k) == Occurrences(ss, k) + CountKey(s.endpoints, k)
  {
    assert (ss + [s])[..|ss|] == ss;
  }

  lemma {:induction false} OccurrencesConcat(ss: seq<EndpointSlice>, ts: seq<EndpointSlice>, k: EndpointKey)
    ensures Occurrences(ss + ts, k) == Occurrences(ss, k) + Occurrences(ts, k)
  {
    if ts == [] {
      assert ss + ts == ss;
    } else {
      var n := |ts| - 1;
      assert (ss + ts)[..|ss + ts| - 1] == ss + ts[..n];
      OccurrencesConcat(ss, ts[..n], k);
    }
  }
}
