/**
 The endpoints a proxy routes to, ordered by their endpoint strings.
 */
module ProxyEndpoints {

  // `text` is the endpoint string, address and port. Two endpoints with equal strings are duplicates.
  datatype Endpoint = Endpoint(
    text: string,
    isLocal: bool,
    ready: bool,
    serving: bool,
    terminating: bool,
    nodeName: string,
    zone: string,
    zoneHints: set<string>)

  /* Strings in dictionary order */

  predicate Less(a: string, b: string) {
    if b == "" then false
    else if a == "" then true
    else a[0] < b[0] || (a[0] == b[0] && Less(a[1..], b[1..]))
  }

  // One string comes before another if it is a proper prefix or has the smaller character where they first differ.
  ghost predicate DiffersAt(a: string, b: string, n: nat) {
    n <= |a| && n < |b| && a[..n] == b[..n] && (n == |a| || a[n] < b[n])
  }

  lemma {:induction false} LessExactly(a: string, b: string)
    ensures Less(a, b) <==> exists n: nat :: DiffersAt(a, b, n)
  {
    if a == "" || b == "" || a[0] != b[0] {
      if Less(a, b) {
        assert DiffersAt(a, b, 0);
      }
      if n: nat :| DiffersAt(a, b, n) {
        assert n > 0 ==> a[..n][0] == b[..n][0];
      }
    } else {
      LessExactly(a[1..], b[1..]);
      if n: nat :| DiffersAt(a[1..], b[1..], n) {
        assert a[..n + 1] == [a[0]] + a[1..][..n] && b[..n + 1] == [b[0]] + b[1..][..n];
        assert DiffersAt(a, b, n + 1);
      }
      if n: nat :| DiffersAt(a, b, n) {
        assert n > 0 && a[1..][..n - 1] == a[..n][1..] && b[1..][..n - 1] == b[..n][1..];
        assert DiffersAt(a[1..], b[1..], n - 1);
      }
    }
  }

  lemma {:induction false} LessTransitive(a: string, b: string, c: string)
    requires Less(a, b) && Less(b, c)
    ensures Less(a, c)
  {
    if a != "" && a[0] == b[0] && b[0] == c[0] {
      LessTransitive(a[1..], b[1..], c[1..]);
    }
  }

  lemma {:induction false} LessTotal(a: string, b: string)
    ensures Less(a, b) || Less(b, a) || a == b
    ensures !(Less(a, b) && Less(b, a))
    ensures !Less(a, a)
  {
    if a != "" {
      LessTotal(a[1..], a[1..]);
      if b != "" && a[0] == b[0] {
        LessTotal(a[1..], b[1..]);
        if a[1..] == b[1..] {
          assert a == [a[0]] + a[1..] == b;
        }
      }
    }
  }

  ghost predicate Ascending(texts: seq<string>) {
    forall i, j :: 0 <= i < j < |texts| ==> Less(texts[i], texts[j])
  }

  lemma LastIsLargest(a: seq<string>, b: seq<string>)
    requires Ascending(a) && Ascending(b) && a != [] && b != []
    requires a[|a| - 1] in b && b[|b| - 1] in a
    ensures a[|a| - 1] == b[|b| - 1]
  {
    var x, y := a[|a| - 1], b[|b| - 1];
    assert x == y || Less(x, y);
    assert x == y || Less(y, x);
    LessTotal(x, y);
  }

  lemma AscendingFront(a: seq<string>)
    requires Ascending(a) && a != []
    ensures Ascending(a[..|a| - 1]) && forall x :: x in a[..|a| - 1] <==> x in a && x != a[|a| - 1]
  {
    var n := |a| - 1;
    forall i | 0 <= i < n ensures a[i] != a[n] {
      LessTotal(a[i], a[n]);
    }
    assert a == a[..n] + [a[n]];
  }

  ghost predicate SameElements(a: seq<string>, b: seq<string>) {
    (forall i :: 0 <= i < |a| ==> a[i] in b) && (forall i :: 0 <= i < |b| ==> b[i] in a)
  }

  lemma BothEmpty(a: seq<string>, b: seq<string>)
    requires SameElements(a, b)
    ensures a == [] <==> b == []
  {
    if a != [] {
      assert a[0] in b;
    }
    if b != [] {
      assert b[0] in a;
    }
  }

  // A set of strings can be listed in ascending order in one way only.
  lemma {:induction false} AscendingUnique(a: seq<string>, b: seq<string>)
    requires Ascending(a) && Ascending(b) && SameElements(a, b)
    ensures a == b
  {
    BothEmpty(a, b);
    if a != [] {
      LastIsLargest(a, b);
      AscendingFront(a);
      AscendingFront(b);
      AscendingUnique(a[..|a| - 1], b[..|b| - 1]);
      assert a == a[..|a| - 1] + [a[|a| - 1]];
      assert b == b[..|b| - 1] + [b[|b| - 1]];
    }
  }

  /* Sorting endpoints by string */

  function Texts(es: seq<Endpoint>): seq<string> {
    seq(|es|, i requires 0 <= i < |es| => es[i].text)
  }

  ghost predicate StrictlySorted(es: seq<Endpoint>) {
    forall i, j :: 0 <= i < j < |es| ==> Less(es[i].text, es[j].text)
  }

  // Two sorted lists of endpoints with the same strings have the same strings at every position.
  lemma SortedAlike(es: seq<Endpoint>, fs: seq<Endpoint>)
    requires StrictlySorted(es) && StrictlySorted(fs)
    requires SameElements(Texts(es), Texts(fs))
    ensures Texts(es) == Texts(fs)
  {
    AscendingUnique(Texts(es), Texts(fs));
  }

  lemma InsertSorted(es: seq<Endpoint>, p: nat, x: Endpoint)
    requires StrictlySorted(es) && p <= |es|
    requires forall i :: 0 <= i < p ==> Less(es[i].text, x.text)
    requires p < |es| ==> Less(x.text, es[p].text)
    ensures StrictlySorted(es[..p] + [x] + es[p..])
    ensures forall e :: e in es[..p] + [x] + es[p..] <==> e == x || e in es
  {
    assert es == es[..p] + es[p..];
    forall i | p < i < |es| ensures Less(x.text, es[i].text) {
      LessTransitive(x.text, es[p].text, es[i].text);
    }
  }

  // Sorts endpoints with different strings.
  method SortEndpoints(es: seq<Endpoint>) returns (sorted: seq<Endpoint>)
    requires forall i, j :: 0 <= i < j < |es| ==> es[i].text != es[j].text
    ensures StrictlySorted(sorted) && |sorted| == |es|
    ensures forall e :: e in sorted <==> e in es
  {
    sorted := [];
    for n := 0 to |es|
      invariant StrictlySorted(sorted) && |sorted| == n
      invariant forall e :: e in sorted <==> e in es[..n]
    {
      var x, p := es[n], 0;
      while p < |sorted| && Less(sorted[p].text, x.text)
        invariant 0 <= p <= |sorted| && forall i :: 0 <= i < p ==> Less(sorted[i].text, x.text)
      {
        p := p + 1;
      }
      if p < |sorted| {
        assert sorted[p] in es[..n];
        LessTotal(x.text, sorted[p].text);
      }
      InsertSorted(sorted, p, x);
      sorted := sorted[..p] + [x] + sorted[p..];
      assert es[..n + 1] == es[..n] + [x];
    }
    assert es[..|es|] == es;
  }

  /* Lists without duplicates */

  // `list` is all endpoints of `all` without duplicates: each endpoint string once, in ascending
  // order, and local if some duplicate is local.
  ghost predicate ListOf(all: iset<Endpoint>, list: seq<Endpoint>) {
    && StrictlySorted(list)
    && (forall i :: 0 <= i < |list| ==> list[i] in all)
    && (forall x :: x in all ==> Listed(list, x))
  }

  // An endpoint with the string of x is listed, and is local if x is.
  ghost predicate Listed(list: seq<Endpoint>, x: Endpoint) {
    exists i :: 0 <= i < |list| && list[i].text == x.text && (x.isLocal ==> list[i].isLocal)
  }

  // The lists agree on the endpoint strings at every position, and on which of them are local.
  ghost predicate AgreeingLists(es: seq<Endpoint>, fs: seq<Endpoint>) {
    |es| == |fs| && forall i :: 0 <= i < |es| ==> es[i].text == fs[i].text && es[i].isLocal == fs[i].isLocal
  }

  lemma TextsCover(all: iset<Endpoint>, es: seq<Endpoint>, fs: seq<Endpoint>)
    requires ListOf(all, es) && ListOf(all, fs)
    ensures forall i :: 0 <= i < |es| ==> Texts(es)[i] in Texts(fs)
  {
    forall i | 0 <= i < |es| ensures Texts(es)[i] in Texts(fs) {
      assert Listed(fs, es[i]);
      var j :| 0 <= j < |fs| && fs[j].text == es[i].text;
      assert Texts(fs)[j] == es[i].text;
    }
  }

  lemma SortedOnce(es: seq<Endpoint>, i: nat, j: nat)
    requires StrictlySorted(es) && i < |es| && j < |es| && es[i].text == es[j].text
    ensures i == j
  {
    LessTotal(es[i].text, es[j].text);
  }

  // The local flag at a position of one list carries over to the other.
  lemma LocalCover(all: iset<Endpoint>, es: seq<Endpoint>, fs: seq<Endpoint>, i: nat)
    requires ListOf(all, es) && ListOf(all, fs) && Texts(es) == Texts(fs) && i < |es|
    ensures i < |fs| && es[i].text == fs[i].text && (es[i].isLocal ==> fs[i].isLocal)
  {
    assert |Texts(es)| == |Texts(fs)|;
    assert Texts(es)[i] == Texts(fs)[i];
    assert Listed(fs, es[i]);
    var j :| 0 <= j < |fs| && fs[j].text == es[i].text && (es[i].isLocal ==> fs[j].isLocal);
    SortedOnce(fs, i, j);
  }

  // There is one way to list endpoints, as far as strings and local flags go.
  lemma ListsAgree(all: iset<Endpoint>, es: seq<Endpoint>, fs: seq<Endpoint>)
    requires ListOf(all, es) && ListOf(all, fs)
    ensures AgreeingLists(es, fs)
  {
    TextsCover(all, es, fs);
    TextsCover(all, fs, es);
    SortedAlike(es, fs);
    assert |Texts(es)| == |Texts(fs)|;
    forall i | 0 <= i < |es| ensures es[i].text == fs[i].text && es[i].isLocal == fs[i].isLocal {
      LocalCover(all, es, fs, i);
      LocalCover(all, fs, es, i);
    }
  }

  // A listed endpoint is local exactly if some duplicate of it is.
  lemma LocalIfAnyIs(all: iset<Endpoint>, list: seq<Endpoint>, i: nat)
    requires ListOf(all, list) && i < |list|
    ensures list[i].isLocal <==> exists x :: x in all && x.text == list[i].text && x.isLocal
  {
    if x :| x in all && x.text == list[i].text && x.isLocal {
      assert Listed(list, x);
      var j :| 0 <= j < |list| && list[j].text == x.text && (x.isLocal ==> list[j].isLocal);
      SortedOnce(list, i, j);
    }
  }

  /* Dropping duplicates */

  type EndpointSet = map<string, Endpoint>

  // m holds one of the endpoints seen under each string seen, a local one if there is one.
  ghost predicate Deduplicated(seen: iset<Endpoint>, m: EndpointSet) {
    && (forall t :: t in m ==> m[t] in seen && m[t].text == t)
    && (forall x :: x in seen ==> x.text in m && (x.isLocal ==> m[x.text].isLocal))
  }

  // Adds an endpoint unless its string is taken; a local endpoint replaces what is there.
  method AddOne(m: EndpointSet, x: Endpoint, ghost seen: iset<Endpoint>) returns (r: EndpointSet)
    requires Deduplicated(seen, m)
    ensures Deduplicated(seen + iset{x}, r)
  {
    r := if x.text !in m || x.isLocal then m[x.text := x] else m;
  }

  method CollectValues(m: EndpointSet) returns (es: seq<Endpoint>)
    requires forall t :: t in m ==> m[t].text == t
    ensures forall i, j :: 0 <= i < j < |es| ==> es[i].text != es[j].text
    ensures forall e :: e in es <==> e.text in m && m[e.text] == e
  {
    es := [];
    var rest := m.Keys;
    while rest != {}
      invariant rest <= m.Keys
      invariant forall i, j :: 0 <= i < j < |es| ==> es[i].text != es[j].text
      invariant forall e :: e in es <==> e.text in m && e.text !in rest && m[e.text] == e
      decreases rest
    {
      var t :| t in rest;
      es := es + [m[t]];
      rest := rest - {t};
    }
  }

  // The endpoints of a set, sorted.
  method ListEndpoints(m: EndpointSet, ghost seen: iset<Endpoint>) returns (list: seq<Endpoint>)
    requires Deduplicated(seen, m)
    ensures ListOf(seen, list) && (list == [] <==> |m| == 0)
  {
    var es := CollectValues(m);
    list := SortEndpoints(es);
    SortedDeduplicated(seen, m, es, list);
  }

  lemma SortedDeduplicated(seen: iset<Endpoint>, m: EndpointSet, es: seq<Endpoint>, list: seq<Endpoint>)
    requires Deduplicated(seen, m) && StrictlySorted(list)
    requires (forall e :: e in es <==> e.text in m && m[e.text] == e) && (forall e :: e in list <==> e in es)
    ensures ListOf(seen, list) && (list == [] <==> |m| == 0)
  {
    forall i | 0 <= i < |list| ensures list[i] in seen && list[i].text in m {
      assert list[i] in list;
    }
    if list != [] {
      assert list[0].text in m;
    }
    forall x | x in seen ensures Listed(list, x) {
      assert m[x.text] in es;
      assert m[x.text] in list;
    }
    if |m| > 0 {
      var t :| t in m;
      assert m[t] in es;
      assert m[t] in list;
    }
  }
}
