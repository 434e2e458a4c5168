/**
 From the slices of a service to the endpoints of its ports: grouping by service port, dropping
 duplicates, and listing in order.
 */
module EndpointGroups {
  import opened Sequences
  import opened Discovery
  import PE = ProxyEndpoints

  // Namespaces, names and label values are only compared, with each other and with the empty string.
  datatype Label = Blank | Label(id: nat)

  datatype NamespacedName = NamespacedName(namespace: Label, name: Label)

  // `port` is the position of the port in its slice or import; the source writes it in decimal.
  datatype ServicePortName = ServicePortName(service: NamespacedName, port: nat, protocol: Protocol)

  datatype Port = Port(name: Option<string>, port: Option<int>, protocol: Protocol)

  // An address, and whether it parses as an IPv6 address.
  datatype Address = Address(text: string, ipv6: bool)

  datatype EndpointInfo = EndpointInfo(
    addresses: seq<Address>,
    nodeName: Option<string>,
    zone: Option<string>,
    zoneHints: set<string>,
    ready: bool,
    serving: bool,
    terminating: bool)

  datatype SliceInfo = SliceInfo(ports: seq<Port>, endpoints: seq<EndpointInfo>, remove: bool, service: NamespacedName)

  type SlicesByName = map<Label, SliceInfo>

  type EndpointsByPort = map<ServicePortName, seq<PE.Endpoint>>

  datatype Config = Config(hostname: string, ipv6: bool)

  /* The endpoints a slice yields */

  function Decimal(n: nat): string {
    if n < 10 then ['0' + n as char] else Decimal(n / 10) + ['0' + (n % 10) as char]
  }

  function Itoa(n: int): string {
    if n < 0 then "-" + Decimal(-n) else Decimal(n)
  }

  function JoinHostPort(host: string, port: string): string {
    if ':' in host || '%' in host then "[" + host + "]:" + port else host + ":" + port
  }

  /* Endpoint strings tell addresses and ports apart */

  // The number a string of decimal digits stands for.
  function Value(s: string): int {
    if s == "" then 0 else 10 * Value(s[..|s| - 1]) + (s[|s| - 1] as int - '0' as int)
  }

  predicate AllDigits(s: string) {
    forall i :: 0 <= i < |s| ==> '0' <= s[i] <= '9'
  }

  lemma {:induction false} DecimalReads(n: nat)
    ensures AllDigits(Decimal(n)) && Value(Decimal(n)) == n
  {
    var s := Decimal(n);
    if n < 10 {
      assert s[..0] == "";
    } else {
      DecimalReads(n / 10);
      assert s[..|s| - 1] == Decimal(n / 10);
    }
  }

  lemma ItoaReads(n: int)
    ensures if n < 0 then Itoa(n)[0] == '-' && AllDigits(Itoa(n)[1..]) && Value(Itoa(n)[1..]) == -n
            else AllDigits(Itoa(n)) && Value(Itoa(n)) == n
    ensures Itoa(n) != "" && ':' !in Itoa(n)
  {
    if n < 0 {
      DecimalReads(-n);
      assert Itoa(n)[1..] == Decimal(-n);
    } else {
      DecimalReads(n);
    }
  }

  // An address without colon or percent sign is written as it is, any other in brackets.
  lemma JoinedText(host: string, port: string)
    ensures ':' !in host && '%' !in host ==> JoinHostPort(host, port) == host + ":" + port
    ensures ':' in host || '%' in host ==> JoinHostPort(host, port) == "[" + host + "]" + ":" + port
  {
    assert "[" + host + "]:" + port == "[" + host + "]" + ":" + port;
  }

  lemma NoColonAfter(l: string, r: string, n: nat)
    requires n < |l| + 1 + |r| && (l + ":" + r)[n] == ':' && ':' !in r
    ensures n <= |l|
  {
  }

  lemma LastColon(l: string, r: string, l': string, r': string)
    requires l + ":" + r == l' + ":" + r' && ':' !in r && ':' !in r'
    ensures l == l' && r == r'
  {
    var s := l + ":" + r;
    assert s == l' + ":" + r';
    NoColonAfter(l, r, |l'|);
    NoColonAfter(l', r', |l|);
    assert l == s[..|l|] && l' == s[..|l'|] && r == s[|l| + 1..] && r' == s[|l'| + 1..];
  }

  lemma SameItoa(n: int, n': int)
    requires Itoa(n) == Itoa(n')
    ensures n == n'
  {
    ItoaReads(n);
    ItoaReads(n');
  }

  lemma BracketsTellApart(host: string, host': string)
    requires (if ':' in host || '%' in host then "[" + host + "]" else host) ==
             (if ':' in host' || '%' in host' then "[" + host' + "]" else host')
    ensures host == host'
  {
    var b, b' := "[" + host + "]", "[" + host' + "]";
    assert b[1..|b| - 1] == host && b'[1..|b'| - 1] == host';
    assert forall x :: x in host ==> x in b;
    assert forall x :: x in host' ==> x in b';
  }

  // Two endpoints have the same string only if they have the same address and port.
  lemma TextIdentifies(host: string, port: int, host': string, port': int)
    requires JoinHostPort(host, Itoa(port)) == JoinHostPort(host', Itoa(port'))
    ensures host == host' && port == port'
  {
    var l := if ':' in host || '%' in host then "[" + host + "]" else host;
    var l' := if ':' in host' || '%' in host' then "[" + host' + "]" else host';
    ItoaReads(port);
    ItoaReads(port');
    JoinedText(host, Itoa(port));
    JoinedText(host', Itoa(port'));
    LastColon(l, Itoa(port), l', Itoa(port'));
    SameItoa(port, port');
    BracketsTellApart(host, host');
  }

  function OrEmpty(s: Option<string>): string {
    if s.Some? then s.value else ""
  }

  predicate IsLocal(c: Config, nodeName: Option<string>) {
    nodeName.Some? && |c.hostname| > 0 && nodeName.value == c.hostname
  }

  predicate Usable(c: Config, e: EndpointInfo) {
    e.addresses != [] && c.ipv6 == e.addresses[0].ipv6
  }

  function MakeEndpoint(c: Config, e: EndpointInfo, port: int): PE.Endpoint
    requires e.addresses != []
  {
    PE.Endpoint(JoinHostPort(e.addresses[0].text, Itoa(port)), IsLocal(c, e.nodeName), e.ready, e.serving, e.terminating,
                OrEmpty(e.nodeName), OrEmpty(e.zone), e.zoneHints)
  }

  predicate ValidPort(p: Port) {
    p.name.Some? && p.port.Some? && p.port.value != 0
  }

  predicate Serves(info: SliceInfo, spn: ServicePortName) {
    && spn.service == info.service && spn.port < |info.ports|
    && ValidPort(info.ports[spn.port]) && spn.protocol == info.ports[spn.port].protocol
  }

  ghost predicate Makes(c: Config, endpoints: seq<EndpointInfo>, port: int, x: PE.Endpoint) {
    exists j :: 0 <= j < |endpoints| && Usable(c, endpoints[j]) && x == MakeEndpoint(c, endpoints[j], port)
  }

  ghost predicate Yields(c: Config, info: SliceInfo, spn: ServicePortName, x: PE.Endpoint) {
    Serves(info, spn) && Makes(c, info.endpoints, info.ports[spn.port].port.value, x)
  }

  ghost predicate AnyYields(c: Config, slices: SlicesByName, spn: ServicePortName, x: PE.Endpoint) {
    exists n :: n in slices && Yields(c, slices[n], spn, x)
  }

  ghost function Yielded(c: Config, slices: SlicesByName, spn: ServicePortName): iset<PE.Endpoint> {
    iset x | AnyYields(c, slices, spn, x)
  }

  ghost predicate HasPort(c: Config, slices: SlicesByName, spn: ServicePortName) {
    exists x :: x in Yielded(c, slices, spn)
  }

  // m is the endpoints map of the slices: the ports with endpoints, and their lists.
  ghost predicate IsEndpointsMap(c: Config, slices: SlicesByName, m: EndpointsByPort) {
    forall spn :: PortListed(c, slices, spn, m)
  }

  ghost predicate PortListed(c: Config, slices: SlicesByName, spn: ServicePortName, m: EndpointsByPort) {
    (spn in m <==> HasPort(c, slices, spn)) && (spn in m ==> PE.ListOf(Yielded(c, slices, spn), m[spn]))
  }

  // Whatever order the slices are visited in: any two computations of the endpoints map have the same
  // ports, and the same endpoint strings and local flags in the same order.
  lemma OrderIndependent(c: Config, slices: SlicesByName, m: EndpointsByPort, m': EndpointsByPort)
    requires IsEndpointsMap(c, slices, m) && IsEndpointsMap(c, slices, m')
    ensures m.Keys == m'.Keys && forall spn :: spn in m ==> PE.AgreeingLists(m[spn], m'[spn])
  {
    forall spn ensures (spn in m <==> spn in m') && (spn in m ==> PE.AgreeingLists(m[spn], m'[spn])) {
      assert PortListed(c, slices, spn, m) && PortListed(c, slices, spn, m');
      if spn in m {
        PE.ListsAgree(Yielded(c, slices, spn), m[spn], m'[spn]);
      }
    }
  }

  /* Adding the endpoints of one port */

  ghost function Made(c: Config, endpoints: seq<EndpointInfo>, port: int): iset<PE.Endpoint> {
    iset x | Makes(c, endpoints, port, x)
  }

  // Adds what the endpoints make to a set that holds what has been seen so far.
  method AddEndpoints(c: Config, port: int, m: PE.EndpointSet, endpoints: seq<EndpointInfo>, ghost seen: iset<PE.Endpoint>)
    returns (r: PE.EndpointSet)
    requires PE.Deduplicated(seen, m)
    ensures PE.Deduplicated(seen + Made(c, endpoints, port), r)
  {
    r := m;
    assert seen + Made(c, endpoints[..0], port) == seen;
    for j := 0 to |endpoints|
      invariant PE.Deduplicated(seen + Made(c, endpoints[..j], port), r)
    {
      var e := endpoints[j];
      MadeSnoc(c, endpoints, j, port, seen);
      if |e.addresses| == 0 {
        continue;
      }
      if c.ipv6 != e.addresses[0].ipv6 {
        continue;
      }
      r := PE.AddOne(r, MakeEndpoint(c, e, port), seen + Made(c, endpoints[..j], port));
    }
    WholePrefix(endpoints);
  }

  lemma MadeSnoc(c: Config, endpoints: seq<EndpointInfo>, j: nat, port: int, seen: iset<PE.Endpoint>)
    requires j < |endpoints|
    ensures seen + Made(c, endpoints[..j + 1], port) ==
      seen + Made(c, endpoints[..j], port) + if Usable(c, endpoints[j]) then iset{MakeEndpoint(c, endpoints[j], port)} else iset{}
  {
    PrefixStep(endpoints, j);
    var longer, shorter := endpoints[..j + 1], endpoints[..j];
    forall x
      ensures Makes(c, longer, port, x) <==> Makes(c, shorter, port, x) || (Usable(c, endpoints[j]) && x == MakeEndpoint(c, endpoints[j], port))
    {
      if i :| 0 <= i < |shorter| && Usable(c, shorter[i]) && x == MakeEndpoint(c, shorter[i], port) {
        assert longer[i] == shorter[i];
      }
      assert longer[j] == endpoints[j];
    }
  }

  /* Grouping by service port */

  type Grouped = map<ServicePortName, PE.EndpointSet>

  function At<K(==), V, W>(m: map<K, map<V, W>>, k: K): map<V, W> {
    if k in m then m[k] else map[]
  }

  // What `slices` and the first `ports` ports of `info` yield for a service port.
  ghost function Seen(c: Config, slices: SlicesByName, info: SliceInfo, ports: nat, spn: ServicePortName): iset<PE.Endpoint> {
    iset x | AnyYields(c, slices, spn, x) || (spn.port < ports && Yields(c, info, spn, x))
  }

  // Each service port has what the slices yield for it, without duplicates.
  ghost predicate GroupsAll(c: Config, slices: SlicesByName, bySp: Grouped) {
    forall spn :: PE.Deduplicated(Yielded(c, slices, spn), At(bySp, spn))
  }

  // The same with the first `ports` ports of `info` in addition.
  ghost predicate GroupsPorts(c: Config, slices: SlicesByName, info: SliceInfo, ports: nat, bySp: Grouped) {
    forall spn :: PE.Deduplicated(Seen(c, slices, info, ports, spn), At(bySp, spn))
  }

  lemma SeenAtPort(c: Config, slices: SlicesByName, info: SliceInfo, i: nat)
    requires i < |info.ports| && ValidPort(info.ports[i])
    ensures var spn := ServicePortName(info.service, i, info.ports[i].protocol);
      Seen(c, slices, info, i + 1, spn) == Seen(c, slices, info, i, spn) + Made(c, info.endpoints, info.ports[i].port.value)
  {
  }

  lemma SeenElsewhere(c: Config, slices: SlicesByName, info: SliceInfo, i: nat, spn: ServicePortName)
    requires i < |info.ports| && (ValidPort(info.ports[i]) ==> spn != ServicePortName(info.service, i, info.ports[i].protocol))
    ensures Seen(c, slices, info, i + 1, spn) == Seen(c, slices, info, i, spn)
  {
  }

  // One more port: the entry of its service port grows by what the port makes, no other changes.
  lemma PortGrouped(c: Config, slices: SlicesByName, info: SliceInfo, i: nat, bySp: Grouped, added: PE.EndpointSet)
    requires i < |info.ports| && ValidPort(info.ports[i]) && GroupsPorts(c, slices, info, i, bySp)
    requires var spn := ServicePortName(info.service, i, info.ports[i].protocol);
      PE.Deduplicated(Seen(c, slices, info, i, spn) + Made(c, info.endpoints, info.ports[i].port.value), added)
    ensures GroupsPorts(c, slices, info, i + 1, bySp[ServicePortName(info.service, i, info.ports[i].protocol) := added])
  {
    var key := ServicePortName(info.service, i, info.ports[i].protocol);
    var bySp' := bySp[key := added];
    forall spn ensures PE.Deduplicated(Seen(c, slices, info, i + 1, spn), At(bySp', spn)) {
      assert PE.Deduplicated(Seen(c, slices, info, i, spn), At(bySp, spn));
      if spn == key {
        SeenAtPort(c, slices, info, i);
      } else {
        SeenElsewhere(c, slices, info, i, spn);
      }
    }
  }

  lemma PortIgnored(c: Config, slices: SlicesByName, info: SliceInfo, i: nat, bySp: Grouped)
    requires i < |info.ports| && !ValidPort(info.ports[i]) && GroupsPorts(c, slices, info, i, bySp)
    ensures GroupsPorts(c, slices, info, i + 1, bySp)
  {
    forall spn ensures PE.Deduplicated(Seen(c, slices, info, i + 1, spn), At(bySp, spn)) {
      assert PE.Deduplicated(Seen(c, slices, info, i, spn), At(bySp, spn));
      SeenElsewhere(c, slices, info, i, spn);
    }
  }

  // Before its first port a slice adds nothing; after its last it has joined the others.
  lemma SliceGrouped(c: Config, slices: SlicesByName, name: Label, info: SliceInfo, bySp: Grouped)
    requires name !in slices
    ensures GroupsAll(c, slices, bySp) ==> GroupsPorts(c, slices, info, 0, bySp)
    ensures GroupsPorts(c, slices, info, |info.ports|, bySp) ==> GroupsAll(c, slices[name := info], bySp)
  {
    forall spn
      ensures Seen(c, slices, info, 0, spn) == Yielded(c, slices, spn)
      ensures Seen(c, slices, info, |info.ports|, spn) == Yielded(c, slices[name := info], spn)
    {
      forall x ensures AnyYields(c, slices[name := info], spn, x) <==> AnyYields(c, slices, spn, x) || Yields(c, info, spn, x) {
        AnyYieldsAdded(c, slices, name, info, spn, x);
      }
    }
  }

  lemma AnyYieldsAdded(c: Config, slices: SlicesByName, name: Label, info: SliceInfo, spn: ServicePortName, x: PE.Endpoint)
    requires name !in slices
    ensures AnyYields(c, slices[name := info], spn, x) <==> AnyYields(c, slices, spn, x) || Yields(c, info, spn, x)
  {
    var more := slices[name := info];
    if n :| n in slices && Yields(c, slices[n], spn, x) {
      assert n in more && more[n] == slices[n];
    }
    assert more[name] == info;
  }

  method GroupSlice(c: Config, ghost slices: SlicesByName, info: SliceInfo, bySp: Grouped) returns (bySp': Grouped)
    requires GroupsPorts(c, slices, info, 0, bySp)
    ensures GroupsPorts(c, slices, info, |info.ports|, bySp')
  {
    bySp' := bySp;
    for i := 0 to |info.ports|
      invariant GroupsPorts(c, slices, info, i, bySp')
    {
      var port := info.ports[i];
      if port.name.None? || port.port.None? || port.port.value == 0 {
        PortIgnored(c, slices, info, i, bySp');
        continue;
      }
      var spn := ServicePortName(info.service, i, port.protocol);
      var added := AddEndpoints(c, port.port.value, At(bySp', spn), info.endpoints, Seen(c, slices, info, i, spn));
      PortGrouped(c, slices, info, i, bySp', added);
      bySp' := bySp'[spn := added];
    }
  }

  method EndpointInfoByServicePort(c: Config, slices: SlicesByName) returns (bySp: Grouped)
    ensures GroupsAll(c, slices, bySp)
  {
    bySp := map[];
    ghost var done: SlicesByName := map[];
    var rest := slices.Keys;
    while rest != {}
      invariant Remaining(slices, done, rest) && GroupsAll(c, done, bySp)
      decreases rest
    {
      var name :| name in rest;
      RemainingStep(slices, done, rest, name);
      SliceGrouped(c, done, name, slices[name], bySp);
      bySp := GroupSlice(c, done, slices[name], bySp);
      SliceGrouped(c, done, name, slices[name], bySp);
      rest, done := rest - {name}, done[name := slices[name]];
    }
    RemainingNone(slices, done);
  }

  /* The endpoints map */

  // The ports listed so far, out of all but those in `rest`.
  ghost predicate ListedSoFar(c: Config, slices: SlicesByName, rest: set<ServicePortName>, m: EndpointsByPort) {
    forall spn :: if spn in rest then spn !in m else PortListed(c, slices, spn, m)
  }

  // A port whose endpoints are all grouped is listed exactly if there are any.
  lemma GroupYields(c: Config, slices: SlicesByName, bySp: Grouped, spn: ServicePortName)
    requires GroupsAll(c, slices, bySp)
    ensures PE.Deduplicated(Yielded(c, slices, spn), At(bySp, spn))
    ensures HasPort(c, slices, spn) <==> |At(bySp, spn)| > 0
  {
    if HasPort(c, slices, spn) {
      var x :| x in Yielded(c, slices, spn);
      assert x.text in At(bySp, spn);
    }
    if |At(bySp, spn)| > 0 {
      var t :| t in At(bySp, spn);
      assert At(bySp, spn)[t] in Yielded(c, slices, spn);
    }
  }

  lemma StartListing(c: Config, slices: SlicesByName, bySp: Grouped)
    requires GroupsAll(c, slices, bySp)
    ensures ListedSoFar(c, slices, bySp.Keys, map[])
  {
    forall spn | spn !in bySp.Keys ensures PortListed(c, slices, spn, map[]) {
      GroupYields(c, slices, bySp, spn);
    }
  }

  lemma ListOne(c: Config, slices: SlicesByName, rest: set<ServicePortName>, m: EndpointsByPort, spn: ServicePortName, list: seq<PE.Endpoint>)
    requires ListedSoFar(c, slices, rest, m) && spn in rest
    ensures HasPort(c, slices, spn) && PE.ListOf(Yielded(c, slices, spn), list) ==> ListedSoFar(c, slices, rest - {spn}, m[spn := list])
    ensures !HasPort(c, slices, spn) ==> ListedSoFar(c, slices, rest - {spn}, m)
  {
    if HasPort(c, slices, spn) && PE.ListOf(Yielded(c, slices, spn), list) {
      forall p ensures if p in rest - {spn} then p !in m[spn := list] else PortListed(c, slices, p, m[spn := list]) {
        assert if p in rest then p !in m else PortListed(c, slices, p, m);
      }
    }
  }

  method EndpointsMapFromEndpointInfo(c: Config, bySp: Grouped, ghost slices: SlicesByName)
    returns (m: EndpointsByPort)
    requires GroupsAll(c, slices, bySp)
    ensures IsEndpointsMap(c, slices, m)
  {
    m := map[];
    StartListing(c, slices, bySp);
    var rest := bySp.Keys;
    while rest != {}
      invariant rest <= bySp.Keys && ListedSoFar(c, slices, rest, m)
      decreases rest
    {
      var spn :| spn in rest;
      GroupYields(c, slices, bySp, spn);
      assert At(bySp, spn) == bySp[spn];
      if |bySp[spn]| > 0 {
        var list := PE.ListEndpoints(bySp[spn], Yielded(c, slices, spn));
        ListOne(c, slices, rest, m, spn, list);
        m := m[spn := list];
      } else {
        ListOne(c, slices, rest, m, spn, []);
      }
      rest := rest - {spn};
    }
    forall spn ensures PortListed(c, slices, spn, m) {
      assert spn !in rest;
    }
  }

  // The endpoints map of a set of slices.
  method GetEndpointsMap(c: Config, slices: SlicesByName) returns (m: EndpointsByPort)
    ensures IsEndpointsMap(c, slices, m)
  {
    var bySp := EndpointInfoByServicePort(c, slices);
    m := EndpointsMapFromEndpointInfo(c, bySp, slices);
  }
}
