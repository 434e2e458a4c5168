/**
 Which endpoints of a service port a node uses for cluster and for local traffic.
 */
module Categories {
  import opened Sequences
  import D = Discovery
  import opened ProxyEndpoints

  // What decides about a service port: its traffic policies, whether it takes external traffic, and
  // its hints annotation.
  datatype Policy = Policy(internalLocal: bool, externalLocal: bool, external: bool, hintsAnnotation: string) {
    predicate UsesCluster() {
      !internalLocal || external
    }

    predicate UsesLocal() {
      internalLocal || (externalLocal && external)
    }
  }

  datatype Criterion = Ready | ReadyInZone(zone: string) | ServingTerminating | LocalReady | LocalServingTerminating

  predicate Meets(ep: Endpoint, c: Criterion) {
    match c
    case Ready => ep.ready
    case ReadyInZone(zone) => ep.ready && zone in ep.zoneHints
    case ServingTerminating => ep.serving && ep.terminating
    case LocalReady => ep.isLocal && ep.ready
    case LocalServingTerminating => ep.isLocal && ep.serving && ep.terminating
  }

  ghost predicate SomeMeets(es: seq<Endpoint>, c: Criterion) {
    exists i :: 0 <= i < |es| && Meets(es[i], c)
  }

  // The endpoints of es that meet the criterion, in order.
  function Chosen(es: seq<Endpoint>, c: Criterion): seq<Endpoint> {
    if es == [] then []
    else
      var front, e := Chosen(es[..|es| - 1], c), es[|es| - 1];
      if Meets(e, c) then front + [e] else front
  }

  lemma {:induction false} ChosenMembers(es: seq<Endpoint>, c: Criterion)
    ensures forall e :: e in Chosen(es, c) <==> e in es && Meets(e, c)
  {
    if es != [] {
      var n := |es| - 1;
      ChosenMembers(es[..n], c);
      assert es == es[..n] + [es[n]];
    }
  }

  lemma ChosenIn(es: seq<Endpoint>, c: Criterion)
    ensures forall e :: e in Chosen(es, c) <==> e in es && Meets(e, c)
    ensures Chosen(es, c) != [] <==> SomeMeets(es, c)
  {
    ChosenMembers(es, c);
    if Chosen(es, c) != [] {
      assert Chosen(es, c)[0] in Chosen(es, c);
    }
    if i :| 0 <= i < |es| && Meets(es[i], c) {
      assert es[i] in Chosen(es, c);
    }
  }

  method FilterEndpoints(es: seq<Endpoint>, c: Criterion) returns (r: seq<Endpoint>)
    ensures r == Chosen(es, c)
  {
    r := [];
    for i := 0 to |es|
      invariant r == Chosen(es[..i], c)
    {
      PrefixStep(es, i);
      if Meets(es[i], c) {
        r := r + [es[i]];
      }
    }
    WholePrefix(es);
  }

  /* Topology */

  predicate HintsWanted(annotation: string) {
    annotation != "" && annotation != "disabled" && annotation != "Disabled"
  }

  // Hints are on, the node has a zone, every ready endpoint has a hint and some ready endpoint is hinted for the zone.
  ghost predicate TopologyApplies(es: seq<Endpoint>, gate: bool, annotation: string, zone: D.Option<string>) {
    && gate && HintsWanted(annotation) && zone.Some? && zone.value != ""
    && (forall i :: 0 <= i < |es| && es[i].ready ==> es[i].zoneHints != {})
    && SomeMeets(es, ReadyInZone(zone.value))
  }

  method CanUseTopology(es: seq<Endpoint>, gate: bool, annotation: string, zone: D.Option<string>) returns (can: bool)
    ensures can <==> TopologyApplies(es, gate, annotation, zone)
  {
    if !gate || annotation == "" || annotation == "disabled" || annotation == "Disabled" {
      return false;
    }
    if zone.None? || zone.value == "" {
      return false;
    }
    var hasEndpointForZone := false;
    for i := 0 to |es|
      invariant forall j :: 0 <= j < i && es[j].ready ==> es[j].zoneHints != {}
      invariant hasEndpointForZone <==> exists j :: 0 <= j < i && Meets(es[j], ReadyInZone(zone.value))
    {
      if !es[i].ready {
        continue;
      }
      if |es[i].zoneHints| == 0 {
        return false;
      }
      if zone.value in es[i].zoneHints {
        hasEndpointForZone := true;
      }
    }
    can := hasEndpointForZone;
  }

  /* Categories */

  ghost predicate AnyUsable(es: seq<Endpoint>) {
    SomeMeets(es, Ready) || SomeMeets(es, ServingTerminating)
  }

  // Ready endpoints, only those hinted for the zone if topology applies; terminating ones that still serve
  // if there are no ready ones at all.
  ghost predicate ClusterList(es: seq<Endpoint>, topology: bool, zone: D.Option<string>, list: seq<Endpoint>)
    requires topology ==> zone.Some?
  {
    list == if !SomeMeets(es, Ready) then Chosen(es, ServingTerminating)
            else Chosen(es, if topology then ReadyInZone(zone.value) else Ready)
  }

  ghost predicate LocalList(es: seq<Endpoint>, list: seq<Endpoint>) {
    list == Chosen(es, if SomeMeets(es, LocalReady) then LocalReady else LocalServingTerminating)
  }

  function TextSet(es: seq<Endpoint>): set<string> {
    set e <- es :: e.text
  }

  // Topology never leaves the cluster list empty while there is an endpoint to use.
  lemma ClusterListEmpty(es: seq<Endpoint>, topology: bool, zone: D.Option<string>, list: seq<Endpoint>)
    requires topology ==> zone.Some? && SomeMeets(es, ReadyInZone(zone.value))
    requires ClusterList(es, topology, zone, list)
    ensures list == [] <==> !AnyUsable(es)
  {
    ChosenIn(es, ServingTerminating);
    ChosenIn(es, Ready);
    if topology {
      ChosenIn(es, ReadyInZone(zone.value));
    }
  }

  // Without topology, the cluster list has all local ready endpoints.
  lemma ClusterCoversLocal(es: seq<Endpoint>, zone: D.Option<string>, cluster: seq<Endpoint>, local: seq<Endpoint>)
    requires ClusterList(es, false, zone, cluster) && LocalList(es, local)
    requires SomeMeets(es, LocalReady) || !SomeMeets(es, LocalServingTerminating)
    ensures TextSet(local) <= TextSet(cluster)
  {
    ChosenIn(es, LocalReady);
    ChosenIn(es, LocalServingTerminating);
    ChosenIn(es, Ready);
    if SomeMeets(es, LocalReady) {
      var i :| 0 <= i < |es| && Meets(es[i], LocalReady);
      assert Meets(es[i], Ready);
      forall t | t in TextSet(local) ensures t in TextSet(cluster) {
        var e :| e in local && e.text == t;
        assert e in cluster;
      }
    }
  }

  method AddByText(es: seq<Endpoint>, m: EndpointSet) returns (r: EndpointSet)
    requires forall t :: t in m ==> m[t].text == t
    ensures r.Keys == m.Keys + TextSet(es) && forall t :: t in r ==> r[t].text == t
  {
    r := m;
    for i := 0 to |es|
      invariant r.Keys == m.Keys + TextSet(es[..i]) && forall t :: t in r ==> r[t].text == t
    {
      r := r[es[i].text := es[i]];
      TextSetSnoc(es, i);
    }
    WholePrefix(es);
  }

  lemma TextSetSnoc(es: seq<Endpoint>, i: nat)
    requires i < |es|
    ensures TextSet(es[..i + 1]) == TextSet(es[..i]) + {es[i].text}
  {
    PrefixStep(es, i);
    assert es[..i + 1][i] == es[i];
    forall t | t in TextSet(es[..i]) ensures t in TextSet(es[..i + 1]) {
      var e :| e in es[..i] && e.text == t;
      assert e in es[..i + 1];
    }
  }

  method MergeByText(cluster: seq<Endpoint>, local: seq<Endpoint>) returns (merged: seq<Endpoint>)
    ensures TextSet(merged) == TextSet(cluster) + TextSet(local)
  {
    var m := AddByText(cluster, map[]);
    m := AddByText(local, m);
    merged := CollectValues(m);
    forall t ensures t in TextSet(merged) <==> t in m {
      if t in m {
        assert m[t] in merged;
      }
    }
  }

  // What the local endpoints are, and whether anything is usable anywhere.
  method ScanLocal(es: seq<Endpoint>) returns (anyUsable: bool, localReady: bool, localServing: bool)
    ensures anyUsable <==> AnyUsable(es)
    ensures localReady <==> SomeMeets(es, LocalReady)
    ensures !localReady ==> (localServing <==> SomeMeets(es, LocalServingTerminating))
  {
    anyUsable, localReady, localServing := false, false, false;
    for i := 0 to |es|
      invariant anyUsable <==> exists j :: 0 <= j < i && (Meets(es[j], Ready) || Meets(es[j], ServingTerminating))
      invariant localReady <==> exists j :: 0 <= j < i && Meets(es[j], LocalReady)
      invariant localServing <==> exists j :: 0 <= j < i && Meets(es[j], LocalServingTerminating) && !es[j].ready
    {
      var ep := es[i];
      if ep.ready {
        anyUsable := true;
        if ep.isLocal {
          localReady := true;
        }
      } else if ep.serving && ep.terminating {
        anyUsable := true;
        if ep.isLocal {
          localServing := true;
        }
      }
    }
  }

  // The endpoints for cluster traffic, for local traffic, and all reachable ones; and whether the service
  // has any usable endpoint anywhere.
  method CategorizeEndpoints(es: seq<Endpoint>, policy: Policy, gate: bool, zone: D.Option<string>)
    returns (cluster: seq<Endpoint>, local: seq<Endpoint>, reachable: seq<Endpoint>, hasAny: bool, ghost topology: bool)
    ensures hasAny <==> AnyUsable(es)
    ensures TextSet(reachable) == TextSet(cluster) + TextSet(local)
    ensures topology <==> policy.UsesCluster() && TopologyApplies(es, gate, policy.hintsAnnotation, zone)
    ensures if policy.UsesCluster() then ClusterList(es, topology, zone, cluster) else cluster == []
    ensures if policy.UsesLocal() then LocalList(es, local) else local == []
    ensures policy.UsesCluster() ==> (cluster == [] <==> !hasAny)
  {
    cluster, local, reachable, hasAny := [], [], [], false;
    var useTopology := false;
    if policy.UsesCluster() {
      useTopology := CanUseTopology(es, gate, policy.hintsAnnotation, zone);
      cluster := ClusterEndpoints(es, useTopology, zone);
      ClusterListEmpty(es, useTopology, zone, cluster);
      hasAny := |cluster| > 0;
    }
    topology := useTopology;
    if !policy.UsesLocal() {
      reachable := cluster;
      return;
    }
    var anyUsable, localReady, localServing := ScanLocal(es);
    hasAny := hasAny || anyUsable;
    ChosenIn(es, LocalServingTerminating);
    if localReady {
      local := FilterEndpoints(es, LocalReady);
    } else if localServing {
      local := FilterEndpoints(es, LocalServingTerminating);
    }
    if !policy.UsesCluster() {
      reachable := local;
    } else if !useTopology && (localReady || !localServing) {
      ClusterCoversLocal(es, zone, cluster, local);
      reachable := cluster;
    } else {
      reachable := MergeByText(cluster, local);
    }
  }

  method ClusterEndpoints(es: seq<Endpoint>, useTopology: bool, zone: D.Option<string>) returns (cluster: seq<Endpoint>)
    requires useTopology ==> zone.Some? && SomeMeets(es, ReadyInZone(zone.value))
    ensures ClusterList(es, useTopology, zone, cluster)
  {
    ChosenIn(es, Ready);
    if useTopology {
      cluster := FilterEndpoints(es, ReadyInZone(zone.value));
      ChosenIn(es, ReadyInZone(zone.value));
    } else {
      cluster := FilterEndpoints(es, Ready);
    }
    if |cluster| == 0 {
      cluster := FilterEndpoints(es, ServingTerminating);
    }
  }

  // What decides about cluster and about local traffic.
  ghost function ClusterCriterion(es: seq<Endpoint>, policy: Policy, gate: bool, zone: D.Option<string>): Criterion {
    if !SomeMeets(es, Ready) then ServingTerminating
    else if TopologyApplies(es, gate, policy.hintsAnnotation, zone) then ReadyInZone(zone.value)
    else Ready
  }

  ghost function LocalCriterion(es: seq<Endpoint>): Criterion {
    if SomeMeets(es, LocalReady) then LocalReady else LocalServingTerminating
  }

  ghost function ToSync(es: seq<Endpoint>, policy: D.Option<Policy>, onlyLocal: bool, gate: bool, zone: D.Option<string>): seq<Endpoint> {
    if policy.None? then es
    else if onlyLocal && policy.value.UsesLocal() && SomeMeets(es, LocalCriterion(es)) then Chosen(es, LocalCriterion(es))
    else if policy.value.UsesCluster() then Chosen(es, ClusterCriterion(es, policy.value, gate, zone))
    else []
  }

  // Told by the fields. Local endpoints are taken if only those are asked for, a policy asks for local ones, and one of
  // them is ready, or is terminating and still serves; the latter only if none is ready. Otherwise, unless the internal
  // policy is local and nothing comes from outside, the ready endpoints are taken, those hinted for the zone if topology
  // applies, or the terminating ones that still serve if none is ready anywhere.
  lemma ToSyncExactly(es: seq<Endpoint>, p: Policy, onlyLocal: bool, gate: bool, zone: D.Option<string>, e: Endpoint)
    ensures TakesLocal(es, p, onlyLocal) ==>
      (e in ToSync(es, D.Some(p), onlyLocal, gate, zone) <==>
         e in es && e.isLocal && (if AnyReady(es, true) then e.ready else e.serving && e.terminating))
    ensures !TakesLocal(es, p, onlyLocal) ==>
      (e in ToSync(es, D.Some(p), onlyLocal, gate, zone) <==>
         && e in es && (!p.internalLocal || p.external)
         && (if !AnyReady(es, false) then e.serving && e.terminating
             else e.ready && (TopologyApplies(es, gate, p.hintsAnnotation, zone) ==> zone.value in e.zoneHints)))
  {
    MeetsAny(es);
    LocalChosen(es, e);
    ClusterChosen(es, p, gate, zone, e);
  }

  lemma MeetsAny(es: seq<Endpoint>)
    ensures SomeMeets(es, LocalReady) <==> AnyReady(es, true)
    ensures SomeMeets(es, LocalServingTerminating) <==> AnyServing(es, true)
    ensures SomeMeets(es, Ready) <==> AnyReady(es, false)
  {
  }

  lemma LocalChosen(es: seq<Endpoint>, e: Endpoint)
    ensures e in Chosen(es, LocalCriterion(es)) <==>
      e in es && e.isLocal && (if AnyReady(es, true) then e.ready else e.serving && e.terminating)
    ensures SomeMeets(es, LocalCriterion(es)) <==> AnyReady(es, true) || AnyServing(es, true)
  {
    MeetsAny(es);
    ChosenIn(es, LocalCriterion(es));
  }

  lemma ClusterChosen(es: seq<Endpoint>, p: Policy, gate: bool, zone: D.Option<string>, e: Endpoint)
    ensures e in Chosen(es, ClusterCriterion(es, p, gate, zone)) <==>
      && e in es
      && (if !AnyReady(es, false) then e.serving && e.terminating
          else e.ready && (TopologyApplies(es, gate, p.hintsAnnotation, zone) ==> zone.value in e.zoneHints))
  {
    MeetsAny(es);
    ChosenIn(es, ClusterCriterion(es, p, gate, zone));
  }

  ghost predicate AnyReady(es: seq<Endpoint>, local: bool) {
    exists i :: 0 <= i < |es| && es[i].ready && (local ==> es[i].isLocal)
  }

  ghost predicate AnyServing(es: seq<Endpoint>, local: bool) {
    exists i :: 0 <= i < |es| && es[i].serving && es[i].terminating && (local ==> es[i].isLocal)
  }

  ghost predicate TakesLocal(es: seq<Endpoint>, p: Policy, onlyLocal: bool) {
    onlyLocal && (p.internalLocal || (p.externalLocal && p.external)) && (AnyReady(es, true) || AnyServing(es, true))
  }

  // Topology applies with the feature on, an annotation other than "disabled" in one of its two spellings, a zone of the
  // node, a hint for every ready endpoint, and a ready endpoint hinted for the zone.
  lemma TopologyExactly(es: seq<Endpoint>, gate: bool, annotation: string, zone: D.Option<string>)
    ensures TopologyApplies(es, gate, annotation, zone) <==>
      && gate && annotation !in {"", "disabled", "Disabled"} && zone.Some? && zone.value != ""
      && (forall i :: 0 <= i < |es| && es[i].ready ==> es[i].zoneHints != {})
      && exists i :: 0 <= i < |es| && es[i].ready && zone.value in es[i].zoneHints
  {
    if zone.Some? {
      assert SomeMeets(es, ReadyInZone(zone.value)) <==> exists i :: 0 <= i < |es| && es[i].ready && zone.value in es[i].zoneHints;
    }
  }

  // The endpoints a sync makes the real servers of a virtual server: all of them if the service port is not
  // known; otherwise the local ones if only those are asked for and there are any, and else those for cluster
  // traffic. There are some whenever the service has a usable endpoint and takes cluster traffic.
  method EndpointsToSync(es: seq<Endpoint>, policy: D.Option<Policy>, onlyLocal: bool, gate: bool, zone: D.Option<string>)
    returns (chosen: seq<Endpoint>)
    ensures chosen == ToSync(es, policy, onlyLocal, gate, zone)
    ensures policy.None? ==> chosen == es
    ensures policy.Some? && policy.value.UsesCluster() ==> (chosen == [] <==> !AnyUsable(es))
    ensures policy.Some? && onlyLocal && policy.value.UsesLocal() && SomeMeets(es, LocalReady) ==> chosen == Chosen(es, LocalReady)
    ensures policy.Some? ==> forall e :: e in chosen ==> e in es && (Meets(e, Ready) || Meets(e, ServingTerminating))
  {
    if policy.None? {
      return es;
    }
    var cluster, local, _, _, topology := CategorizeEndpoints(es, policy.value, gate, zone);
    ListsUsable(es, topology, zone, cluster, local, policy.value);
    ChosenIn(es, LocalReady);
    ChosenIn(es, LocalCriterion(es));
    chosen := if onlyLocal && |local| > 0 then local else cluster;
  }

  lemma ListsUsable(es: seq<Endpoint>, topology: bool, zone: D.Option<string>, cluster: seq<Endpoint>, local: seq<Endpoint>, policy: Policy)
    requires topology ==> zone.Some?
    requires if policy.UsesCluster() then ClusterList(es, topology, zone, cluster) else cluster == []
    requires if policy.UsesLocal() then LocalList(es, local) else local == []
    ensures forall e :: e in cluster || e in local ==> e in es && (Meets(e, Ready) || Meets(e, ServingTerminating))
    ensures local != [] ==> AnyUsable(es)
  {
    ChosenIn(es, ServingTerminating);
    ChosenIn(es, Ready);
    ChosenIn(es, LocalReady);
    ChosenIn(es, LocalServingTerminating);
    if topology {
      ChosenIn(es, ReadyInZone(zone.value));
    }
    if local != [] {
      assert local[0] in local;
      assert local[0] in Chosen(es, Ready) || local[0] in Chosen(es, ServingTerminating);
    }
  }
}
