/**
 The keyed endpoint set that the reconciler drains while it places endpoints.
 */
module EndpointSets {
  import opened Discovery

  function KeySet(es: seq<Endpoint>): set<EndpointKey> {
    set e <- es :: e.key
  }

  class EndpointSet {
    var items: map<EndpointKey, Endpoint>

    ghost predicate Valid()
      reads this
    {
      KeyedByKey(items)
    }

    constructor ()
      ensures Valid() && items == map[]
    {
      items := map[];
    }

    method Insert(e: Endpoint)
      requires Valid()
      modifies this
      ensures Valid() && items == old(items)[e.key := e]
    {
      items := items[e.key := e];
    }

    method Delete(e: Endpoint)
      requires Valid()
      modifies this
      ensures Valid() && items == old(items) - {e.key}
    {
      items := items - {e.key};
    }

    function Get(e: Endpoint): Option<Endpoint>
      reads this
    {
      if e.key in items then Some(items[e.key]) else None
    }

    // Removes and returns some element, unless the set is empty.
    method PopAny() returns (r: Option<Endpoint>)
      requires Valid()
      modifies this
      ensures Valid()
      ensures r.None? <==> old(items) == map[]
      ensures r.None? ==> items == old(items)
      ensures r.Some? ==>
        && r.value.key in old(items)
        && old(items)[r.value.key] == r.value
        && items == old(items) - {r.value.key}
    {
      if items == map[] {
        return None;
      }
      assert items.Keys != {};
      var k :| k in items;
      var e := items[k];
      Delete(e);
      r := Some(e);
    }
  }

  ghost predicate KeyedByKey(d: map<EndpointKey, Endpoint>) {
    forall k :: k in d ==> d[k].key == k
  }
}
