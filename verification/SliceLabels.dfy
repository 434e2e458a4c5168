/**
 The labels a slice takes from its service.
 */
module SliceLabels {
  import opened Discovery

  const LABEL_SERVICE_NAME := "kubernetes.io/service-name"
  const LABEL_MANAGED_BY := "endpointslice.kubernetes.io/managed-by"
  const LABEL_HEADLESS := "service.kubernetes.io/headless"

  const RESERVED := {"kubernetes.io/service-name", "endpointslice.kubernetes.io/managed-by", "service.kubernetes.io/headless"}

  predicate IsReservedLabelKey(key: string) {
    key == LABEL_SERVICE_NAME || key == LABEL_MANAGED_BY || key == LABEL_HEADLESS
  }

  function Unreserved(labels: map<string, string>): map<string, string> {
    map k | k in labels && !IsReservedLabelKey(k) :: labels[k]
  }

  // A slice carries the labels of its service when the two agree outside the reserved keys.
  predicate MirrorsLabels(s: EndpointSlice, service: Service) {
    Unreserved(s.labels) == Unreserved(service.labels)
  }

  function SliceLabelsFor(service: Service, managedBy: string): map<string, string> {
    Unreserved(service.labels)[LABEL_SERVICE_NAME := service.name][LABEL_MANAGED_BY := managedBy][LABEL_HEADLESS := "true"]
  }

  // The labels of a slice: those of its service under every key but three, and under these the service's name, the
  // controller's name and "true".
  lemma LabelsExactly(service: Service, managedBy: string, k: string)
    ensures var labels := SliceLabelsFor(service, managedBy);
      && "kubernetes.io/service-name" in labels && labels["kubernetes.io/service-name"] == service.name
      && "endpointslice.kubernetes.io/managed-by" in labels && labels["endpointslice.kubernetes.io/managed-by"] == managedBy
      && "service.kubernetes.io/headless" in labels && labels["service.kubernetes.io/headless"] == "true"
    ensures k !in RESERVED ==>
      SameUnder(SliceLabelsFor(service, managedBy), service.labels, k)
  {
    ReservedApart();
  }

  predicate SameUnder(a: map<string, string>, b: map<string, string>, k: string) {
    (k in a <==> k in b) && (k in a ==> a[k] == b[k])
  }

  lemma ReservedApart()
    ensures LABEL_SERVICE_NAME != LABEL_MANAGED_BY && LABEL_SERVICE_NAME != LABEL_HEADLESS && LABEL_MANAGED_BY != LABEL_HEADLESS
  {
    assert LABEL_SERVICE_NAME[0] == 'k' && LABEL_MANAGED_BY[0] == 'e' && LABEL_HEADLESS[0] == 's';
  }

  lemma MirrorsExactly(s: EndpointSlice, service: Service)
    ensures MirrorsLabels(s, service) <==> forall k ::
      k !in RESERVED ==>
        SameUnder(s.labels, service.labels, k)
  {
    var a, b := Unreserved(s.labels), Unreserved(service.labels);
    forall k | !IsReservedLabelKey(k) ensures SameUnder(s.labels, service.labels, k) <==> SameUnder(a, b, k) {
    }
    if forall k :: !IsReservedLabelKey(k) ==> SameUnder(s.labels, service.labels, k) {
      forall k ensures SameUnder(a, b, k) {
        assert IsReservedLabelKey(k) ==> k !in a && k !in b;
      }
      assert a == b;
    }
  }

  method CopyUnreserved(labels: map<string, string>) returns (copy: map<string, string>)
    ensures copy == Unreserved(labels)
  {
    copy := map[];
    var rest := labels.Keys;
    while rest != {}
      invariant rest <= labels.Keys
      invariant copy == Unreserved(labels - rest)
      decreases rest
    {
      var key :| key in rest;
      rest := rest - {key};
      if !IsReservedLabelKey(key) {
        copy := copy[key := labels[key]];
      }
    }
    assert labels - rest == labels;
  }

  method SetEndpointSliceLabels(s: EndpointSlice, service: Service, managedBy: string)
    returns (labels: map<string, string>, updated: bool)
    ensures labels == SliceLabelsFor(service, managedBy)
    ensures updated <==> !MirrorsLabels(s, service)
  {
    var epLabels := CopyUnreserved(s.labels);
    var svcLabels := CopyUnreserved(service.labels);
    updated := epLabels != svcLabels;
    labels := svcLabels[LABEL_SERVICE_NAME := service.name];
    labels := labels[LABEL_MANAGED_BY := managedBy];
    labels := labels[LABEL_HEADLESS := "true"];
  }

  // Once a slice has been given the service's labels, the next pass sees no label change,
  // whatever reserved keys the service itself carries.
  lemma LabelsSettle(s: EndpointSlice, service: Service, managedBy: string)
    ensures MirrorsLabels(s.(labels := SliceLabelsFor(service, managedBy)), service)
  {
    assert Unreserved(SliceLabelsFor(service, managedBy)) == Unreserved(service.labels);
  }
}
