/**
 What a pass over one address type means for the pods of a service and the slices on the server,
 told in terms of their fields.
 */
module Publication {
  import opened Discovery
  import opened SliceLabels
  import opened Keeping
  import opened PortMapping
  import opened GroupReconciler
  import opened DesiredEndpoints
  import opened Groups
  import opened GroupProgress
  import opened Placeholders
  import opened CarryingOut
  import opened Reconcilers

  // The pod belongs in endpoints, has an address, and its node is known or need not be.
  ghost predicate Shown(pod: Pod, publishNotReady: bool) {
    && pod.inEndpoints && pod.endpoint.key.addresses != []
    && (pod.node == Found || (pod.node == NotFound && publishNotReady))
  }

  // Pod i is shown, and no later pod with the same ports has the same key.
  ghost predicate LastShown(pods: seq<Pod>, publishNotReady: bool, i: nat) {
    && i < |pods| && Shown(pods[i], publishNotReady)
    && forall j :: i < j < |pods| && Shown(pods[j], publishNotReady) && multiset(pods[j].ports) == multiset(pods[i].ports) ==>
         pods[j].endpoint.key != pods[i].endpoint.key
  }

  // The slice has an owner reference to the service.
  ghost predicate OwnedByService(s: EndpointSlice, service: Service) {
    exists o :: o in s.owners && o.uid == service.uid && o.kind == "Service" && o.apiVersion == "v1"
  }

  lemma OwnersExactly(s: EndpointSlice, service: Service)
    ensures Owns(service, s) <==> OwnedByService(s, service)
  {
    if i :| 0 <= i < |s.owners| && s.owners[i] == OwnerReference(service.uid, "Service", "v1") {
      assert s.owners[i] in s.owners;
    }
    if o :| o in s.owners && o.uid == service.uid && o.kind == "Service" && o.apiVersion == "v1" {
      var i :| 0 <= i < |s.owners| && s.owners[i] == o;
    }
  }

  lemma LastShownIsPublished(pods: seq<Pod>, publishNotReady: bool, i: nat)
    requires i < |pods|
    ensures LastShown(pods, publishNotReady, i) <==>
      LastPublished(pods, publishNotReady, PortKey(pods[i].ports), pods[i].endpoint.key, i)
  {
  }

  // A pass over the service's slices of one address type that finished, starting from what the server held.
  ghost predicate Complete(was: Table, now: Table, before: seq<Name>, log: seq<Name>, service: Service, addressType: AddressType,
                           managedBy: string, pods: seq<Pod>, x: Pass) {
    && Passed(was, now, before, log, service, addressType, NewEndpointSlice(service, EndpointMeta([], addressType), managedBy),
              DesiredFrom(pods, service.publishNotReadyAddresses), x)
    && Mirrored(x.existing, was) && x.status.Finished? && !service.terminating
  }

  // The slices the pass was about: those it was given and those it made.
  ghost predicate Ours(was: Table, now: Table, existing: seq<EndpointSlice>, n: Name) {
    n in now && (n !in was || n in Names(existing))
  }

  lemma OursIsSurvivor(was: Table, now: Table, existing: seq<EndpointSlice>, after: seq<EndpointSlice>, n: Name) returns (i: nat)
    requires Carried(was, now, existing, after) && Ours(was, now, existing, n)
    ensures i < |after| && after[i].name == n && now[n] == after[i]
  {
    i := NameIndex(after, n);
  }

  lemma SurvivorIsOurs(was: Table, now: Table, existing: seq<EndpointSlice>, after: seq<EndpointSlice>, i: nat)
    requires Carried(was, now, existing, after) && i < |after|
    ensures Ours(was, now, existing, after[i].name) && now[after[i].name] == after[i]
  {
    assert after[i].name in Names(after);
  }

  /* Pods to endpoints */

  // A desired key stands in some slice of its group.
  lemma KeyStands(ss: seq<EndpointSlice>, service: Service, g: PortMapKey, d: Desired, k: EndpointKey) returns (i: nat, l: nat)
    requires EndpointsSettled(Members(ss, service, g), d) && k in d
    ensures i < |ss| && InGroup(ss[i], service, g) && l < |ss[i].endpoints| && ss[i].endpoints[l].key == k
    ensures AsDesired(ss[i].endpoints[l], d[k])
  {
    var ms := Members(ss, service, g);
    OccursSomewhere(ms, k);
    var s, e :| s in ms && e in s.endpoints && e.key == k;
    var j :| 0 <= j < |ms| && ms[j] == s;
    i := MemberHasIndex(ss, service, g, j);
    l :| 0 <= l < |s.endpoints| && s.endpoints[l] == e;
    assert UpToDate(ms[j].endpoints, d);
  }

  // Every pod that is shown, the last of its kind, has its endpoint in a slice owned by the service with the pod's ports, on
  // the pod's node, in its zone, with its conditions and its target.
  lemma PodIsPublished(was: Table, now: Table, before: seq<Name>, log: seq<Name>, service: Service, addressType: AddressType,
                       managedBy: string, pods: seq<Pod>, x: Pass, i: nat) returns (n: Name, l: nat)
    requires Complete(was, now, before, log, service, addressType, managedBy, pods, x)
    requires LastShown(pods, service.publishNotReadyAddresses, i)
    ensures Ours(was, now, x.existing, n) && OwnedByService(now[n], service) && multiset(now[n].ports) == multiset(pods[i].ports)
    ensures l < |now[n].endpoints| && now[n].endpoints[l].key == pods[i].endpoint.key
    ensures now[n].endpoints[l].nodeName == pods[i].endpoint.nodeName && now[n].endpoints[l].zone == pods[i].endpoint.zone
    ensures now[n].endpoints[l].conditions == pods[i].endpoint.conditions
    ensures SameTargetIdentity(now[n].endpoints[l].targetRef, pods[i].endpoint.targetRef)
  {
    var after, g := Survivors(x.existing, x.p, x.r), PortKey(pods[i].ports);
    var d := DesiredFrom(pods, service.publishNotReadyAddresses);
    DesiredIsAsked(pods, service.publishNotReadyAddresses);
    LastShownIsPublished(pods, service.publishNotReadyAddresses, i);
    var j;
    j, l := KeyStands(after, service, g, Want(d, g), pods[i].endpoint.key);
    SurvivorIsOurs(was, now, x.existing, after, j);
    OwnersExactly(after[j], service);
    n := after[j].name;
  }

  // Both have no target, or targets of the same kind and uid.
  ghost predicate SameTargetIdentity(a: Option<TargetReference>, b: Option<TargetReference>) {
    (a.Some? <==> b.Some?) && (a.Some? && b.Some? ==> a.value.kind == b.value.kind && a.value.uid == b.value.uid)
  }

  /* Endpoints to pods */

  lemma EndpointIsWanted(ss: seq<EndpointSlice>, service: Service, d: DesiredByPorts, i: nat, l: nat)
    requires i < |ss| && l < |ss[i].endpoints| && Owns(service, ss[i])
    requires EndpointsSettled(Members(ss, service, PortKey(ss[i].ports)), Want(d, PortKey(ss[i].ports)))
    ensures var e, want := ss[i].endpoints[l], Want(d, PortKey(ss[i].ports)); e.key in want && AsDesired(e, want[e.key])
  {
    var g := PortKey(ss[i].ports);
    var ms := Members(ss, service, g);
    MembersComplete(ss, service, g, i);
    var j :| 0 <= j < |ms| && ms[j] == ss[i];
    assert UpToDate(ms[j].endpoints, Want(d, g));
  }

  // A slice with endpoints is owned by the service.
  lemma StableOwned(ss: seq<EndpointSlice>, service: Service, placeholder: EndpointSlice, d: DesiredByPorts, i: nat)
    requires Stable(ss, service, placeholder, d) && placeholder.endpoints == [] && i < |ss| && ss[i].endpoints != []
    ensures Owns(service, ss[i])
  {
  }

  // Every endpoint in the pass's slices is that of a pod that is shown, the last of its kind.
  lemma EndpointHasPod(was: Table, now: Table, before: seq<Name>, log: seq<Name>, service: Service, addressType: AddressType,
                       managedBy: string, pods: seq<Pod>, x: Pass, n: Name, l: nat) returns (i: nat)
    requires Complete(was, now, before, log, service, addressType, managedBy, pods, x)
    requires Ours(was, now, x.existing, n) && l < |now[n].endpoints|
    ensures LastShown(pods, service.publishNotReadyAddresses, i)
    ensures OwnedByService(now[n], service) && multiset(now[n].ports) == multiset(pods[i].ports)
    ensures now[n].endpoints[l].key == pods[i].endpoint.key
    ensures now[n].endpoints[l].nodeName == pods[i].endpoint.nodeName && now[n].endpoints[l].zone == pods[i].endpoint.zone
    ensures now[n].endpoints[l].conditions == pods[i].endpoint.conditions
    ensures SameTargetIdentity(now[n].endpoints[l].targetRef, pods[i].endpoint.targetRef)
  {
    var after := Survivors(x.existing, x.p, x.r);
    var d := DesiredFrom(pods, service.publishNotReadyAddresses);
    var placeholder := NewEndpointSlice(service, EndpointMeta([], addressType), managedBy);
    var j := OursIsSurvivor(was, now, x.existing, after, n);
    StableOwned(after, service, placeholder, d, j);
    OwnersExactly(after[j], service);
    EndpointIsWanted(after, service, d, j, l);
    i := WantedHasPod(pods, service.publishNotReadyAddresses, PortKey(after[j].ports), after[j].endpoints[l].key);
  }

  lemma WantedHasPod(pods: seq<Pod>, publishNotReady: bool, g: PortMapKey, k: EndpointKey) returns (i: nat)
    requires k in Want(DesiredFrom(pods, publishNotReady), g)
    ensures LastShown(pods, publishNotReady, i) && PortKey(pods[i].ports) == g && pods[i].endpoint.key == k
    ensures Want(DesiredFrom(pods, publishNotReady), g)[k] == pods[i].endpoint
  {
    DesiredIsAsked(pods, publishNotReady);
    i :| LastPublished(pods, publishNotReady, g, k, i);
    LastShownIsPublished(pods, publishNotReady, i);
  }

  /* No endpoint twice */

  lemma {:induction false} CountedTwice(es: seq<Endpoint>, l: nat, l': nat)
    requires l < l' < |es| && es[l].key == es[l'].key
    ensures CountKey(es, es[l].key) >= 2
  {
    var n := |es| - 1;
    if l' < n {
      CountedTwice(es[..n], l, l');
    } else {
      CountKeyPositive(es[..n], l);
    }
  }

  lemma MembersLast(ss: seq<EndpointSlice>, service: Service, g: PortMapKey, k: EndpointKey)
    requires ss != []
    ensures var n := |ss| - 1;
      Occurrences(Members(ss, service, g), k) ==
        Occurrences(Members(ss[..n], service, g), k) + if InGroup(ss[n], service, g) then CountKey(ss[n].endpoints, k) else 0
  {
    OccurrencesSnoc(Members(ss[..|ss| - 1], service, g), ss[|ss| - 1], k);
  }

  lemma {:induction false} CountedInGroup(ss: seq<EndpointSlice>, service: Service, g: PortMapKey, i: nat, k: EndpointKey)
    requires i < |ss| && InGroup(ss[i], service, g)
    ensures Occurrences(Members(ss, service, g), k) >= CountKey(ss[i].endpoints, k)
  {
    var n := |ss| - 1;
    MembersLast(ss, service, g, k);
    if i < n {
      CountedInGroup(ss[..n], service, g, i, k);
    }
  }

  lemma {:induction false} CountedInBoth(ss: seq<EndpointSlice>, service: Service, g: PortMapKey, i: nat, j: nat, k: EndpointKey)
    requires i < j < |ss| && InGroup(ss[i], service, g) && InGroup(ss[j], service, g)
    ensures Occurrences(Members(ss, service, g), k) >= CountKey(ss[i].endpoints, k) + CountKey(ss[j].endpoints, k)
  {
    var n := |ss| - 1;
    MembersLast(ss, service, g, k);
    if j < n {
      CountedInBoth(ss[..n], service, g, i, j, k);
    } else {
      CountedInGroup(ss[..n], service, g, i, k);
    }
  }

  lemma StandsOnce(ss: seq<EndpointSlice>, service: Service, g: PortMapKey, d: Desired, i: nat, l: nat, j: nat, m: nat)
    requires EndpointsSettled(Members(ss, service, g), d)
    requires i <= j < |ss| && InGroup(ss[i], service, g) && InGroup(ss[j], service, g)
    requires l < |ss[i].endpoints| && m < |ss[j].endpoints| && ss[i].endpoints[l].key == ss[j].endpoints[m].key
    ensures i == j && l == m
  {
    var k := ss[i].endpoints[l].key;
    assert Occurrences(Members(ss, service, g), k) <= 1;
    if i < j {
      CountedInBoth(ss, service, g, i, j, k);
      CountKeyPositive(ss[i].endpoints, l);
      CountKeyPositive(ss[j].endpoints, m);
    } else if l < m {
      CountedInGroup(ss, service, g, i, k);
      CountedTwice(ss[i].endpoints, l, m);
    } else if m < l {
      CountedInGroup(ss, service, g, i, k);
      CountedTwice(ss[i].endpoints, m, l);
    }
  }

  // Two endpoints of slices with the same ports that have the same key are one and the same.
  lemma PublishedOnce(was: Table, now: Table, before: seq<Name>, log: seq<Name>, service: Service, addressType: AddressType,
                      managedBy: string, pods: seq<Pod>, x: Pass, n: Name, l: nat, n': Name, l': nat)
    requires Complete(was, now, before, log, service, addressType, managedBy, pods, x)
    requires Ours(was, now, x.existing, n) && Ours(was, now, x.existing, n') && multiset(now[n].ports) == multiset(now[n'].ports)
    requires l < |now[n].endpoints| && l' < |now[n'].endpoints| && now[n].endpoints[l].key == now[n'].endpoints[l'].key
    ensures n == n' && l == l'
  {
    var after := Survivors(x.existing, x.p, x.r);
    var d := DesiredFrom(pods, service.publishNotReadyAddresses);
    var placeholder := NewEndpointSlice(service, EndpointMeta([], addressType), managedBy);
    var i := OursIsSurvivor(was, now, x.existing, after, n);
    var j := OursIsSurvivor(was, now, x.existing, after, n');
    StableOwned(after, service, placeholder, d, i);
    StableOwned(after, service, placeholder, d, j);
    var g := PortKey(after[i].ports);
    if i <= j {
      StandsOnce(after, service, g, Want(d, g), i, l, j, l');
    } else {
      StandsOnce(after, service, g, Want(d, g), j, l', i, l);
    }
  }

  /* The slices themselves */

  // The slice is one of the service's, for ports that a pod in endpoints has, with the service's labels outside three keys.
  ghost predicate Regular(s: EndpointSlice, service: Service, pods: seq<Pod>) {
    && OwnedByService(s, service)
    && (exists i :: 0 <= i < |pods| && pods[i].inEndpoints && multiset(pods[i].ports) == multiset(s.ports))
    && (forall k :: k !in RESERVED ==> SameUnder(s.labels, service.labels, k))
  }

  // The slice passes for the placeholder: empty, without ports, and with the labels a new slice would have, where a missing
  // label counts as an empty one.
  ghost predicate Empty(s: EndpointSlice, service: Service, addressType: AddressType, managedBy: string) {
    && s.endpoints == [] && s.ports == [] && s.namespace == service.namespace && s.addressType == addressType
    && LabelOf(s.labels, "kubernetes.io/service-name") == service.name
    && LabelOf(s.labels, "endpointslice.kubernetes.io/managed-by") == managedBy
    && LabelOf(s.labels, "service.kubernetes.io/headless") == "true"
    && (forall k :: k !in RESERVED ==> LabelOf(s.labels, k) == LabelOf(service.labels, k))
  }

  lemma PlaceholderExactly(s: EndpointSlice, service: Service, addressType: AddressType, managedBy: string)
    ensures PlaceholderEqual(s, NewEndpointSlice(service, EndpointMeta([], addressType), managedBy)) <==>
      Empty(s, service, addressType, managedBy)
  {
    var labels := SliceLabelsFor(service, managedBy);
    forall k
      ensures "kubernetes.io/service-name" in labels && labels["kubernetes.io/service-name"] == service.name
      ensures "endpointslice.kubernetes.io/managed-by" in labels && labels["endpointslice.kubernetes.io/managed-by"] == managedBy
      ensures "service.kubernetes.io/headless" in labels && labels["service.kubernetes.io/headless"] == "true"
      ensures k !in RESERVED ==> LabelOf(labels, k) == LabelOf(service.labels, k)
    {
      LabelsExactly(service, managedBy, k);
    }
    LabelsAgree(s.labels, labels);
  }

  lemma LabelsAgree(a: map<string, string>, b: map<string, string>)
    ensures LabelsIn(a, b) && LabelsIn(b, a) <==> forall k :: LabelOf(a, k) == LabelOf(b, k)
  {
    if forall k :: LabelOf(a, k) == LabelOf(b, k) {
      forall k | k in a ensures LabelOf(b, k) == a[k] {
        assert LabelOf(a, k) == LabelOf(b, k);
      }
      forall k | k in b ensures LabelOf(a, k) == b[k] {
        assert LabelOf(a, k) == LabelOf(b, k);
      }
    }
  }

  // Of the pass's slices every one is regular, or there is just one and it passes for the placeholder.
  lemma SlicesBelong(was: Table, now: Table, before: seq<Name>, log: seq<Name>, service: Service, addressType: AddressType,
                     managedBy: string, pods: seq<Pod>, x: Pass, n: Name)
    requires Complete(was, now, before, log, service, addressType, managedBy, pods, x) && Ours(was, now, x.existing, n)
    ensures || Regular(now[n], service, pods)
            || (Empty(now[n], service, addressType, managedBy) && forall n' :: Ours(was, now, x.existing, n') ==> n' == n)
  {
    var after := Survivors(x.existing, x.p, x.r);
    var i := OursIsSurvivor(was, now, x.existing, after, n);
    StableBelongs(after, service, addressType, managedBy, pods, i);
    if |after| == 1 {
      OnlyOurs(was, now, x.existing, after, n);
    }
  }

  lemma OnlyOurs(was: Table, now: Table, existing: seq<EndpointSlice>, after: seq<EndpointSlice>, n: Name)
    requires Carried(was, now, existing, after) && |after| == 1 && Ours(was, now, existing, n)
    ensures forall n' :: Ours(was, now, existing, n') ==> n' == n
  {
    var i := OursIsSurvivor(was, now, existing, after, n);
    forall n' | Ours(was, now, existing, n') ensures n' == n {
      var i' := OursIsSurvivor(was, now, existing, after, n');
    }
  }

  lemma StableBelongs(ss: seq<EndpointSlice>, service: Service, addressType: AddressType, managedBy: string, pods: seq<Pod>, i: nat)
    requires Stable(ss, service, NewEndpointSlice(service, EndpointMeta([], addressType), managedBy),
                    DesiredFrom(pods, service.publishNotReadyAddresses)) && i < |ss|
    ensures Regular(ss[i], service, pods) || (Empty(ss[i], service, addressType, managedBy) && |ss| == 1)
  {
    var d := DesiredFrom(pods, service.publishNotReadyAddresses);
    if AllDesired(ss, service, d) {
      DesiredIsRegular(ss, service, pods, d, i);
    } else {
      PlaceholderExactly(ss[0], service, addressType, managedBy);
    }
  }

  lemma DesiredIsRegular(ss: seq<EndpointSlice>, service: Service, pods: seq<Pod>, d: DesiredByPorts, i: nat)
    requires d == DesiredFrom(pods, service.publishNotReadyAddresses) && i < |ss|
    requires AllDesired(ss, service, d) && AllSettled(ss, service, d)
    ensures Regular(ss[i], service, pods)
  {
    var g := PortKey(ss[i].ports);
    OwnersExactly(ss[i], service);
    DesiredIsAsked(pods, service.publishNotReadyAddresses);
    MembersComplete(ss, service, g, i);
    SettledAsDesired(Members(ss, service, g), d[g], service, ss[i]);
    var j :| 0 <= j < |pods| && pods[j].inEndpoints && PortKey(pods[j].ports) == g;
  }

  // Whatever calls fail: a slice that is new is the service's, with the labels of a new slice.
  lemma NewSlices(was: Table, now: Table, before: seq<Name>, log: seq<Name>, service: Service, addressType: AddressType,
                  managedBy: string, d: DesiredByPorts, x: Pass, n: Name, k: string)
    requires Passed(was, now, before, log, service, addressType, NewEndpointSlice(service, EndpointMeta([], addressType), managedBy), d, x)
    requires Mirrored(x.existing, was) && n in now && n !in was
    ensures now[n].owners == [OwnerReference(service.uid, "Service", "v1")]
    ensures now[n].namespace == service.namespace && now[n].addressType == addressType
    ensures LabelOf(now[n].labels, "kubernetes.io/service-name") == service.name
    ensures LabelOf(now[n].labels, "endpointslice.kubernetes.io/managed-by") == managedBy
    ensures LabelOf(now[n].labels, "service.kubernetes.io/headless") == "true"
    ensures k !in RESERVED ==> SameUnder(now[n].labels, service.labels, k)
  {
    LabelsExactly(service, managedBy, k);
  }

  // And a slice of another owner or address type that is not updated keeps its contents as long as it is there.
  lemma OthersKeepContents(was: Table, now: Table, before: seq<Name>, log: seq<Name>, service: Service, addressType: AddressType,
                           placeholder: EndpointSlice, d: DesiredByPorts, x: Pass, i: nat)
    requires Passed(was, now, before, log, service, addressType, placeholder, d, x) && i < |x.existing|
    requires !OwnedByService(x.existing[i], service) || x.existing[i].addressType != addressType
    requires x.existing[i].name !in Names(x.p.update) && x.existing[i].name in was && x.existing[i].name in now
    ensures now[x.existing[i].name] == was[x.existing[i].name]
  {
    OwnersExactly(x.existing[i], service);
  }
}
