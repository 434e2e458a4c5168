/**
 The API server as the reconciler sees it: slices by name, and calls that succeed or fail.
 */
module ApiServers {
  import opened Discovery
  import opened PortMapping
  import opened Groups

  datatype CallResult = Done | NamespaceTerminating | Refused

  function NameSeq(ss: seq<EndpointSlice>): seq<Name> {
    seq(|ss|, i requires 0 <= i < |ss| => ss[i].name)
  }

  // The table after the slices have been written one after the other.
  function Written(m: map<Name, EndpointSlice>, ss: seq<EndpointSlice>): map<Name, EndpointSlice> {
    if ss == [] then m else Written(m, ss[..|ss| - 1])[ss[|ss| - 1].name := ss[|ss| - 1]]
  }

  function Erased(m: map<Name, EndpointSlice>, ss: seq<EndpointSlice>): map<Name, EndpointSlice> {
    m - Names(ss)
  }

  lemma {:induction false} WrittenLookup(m: map<Name, EndpointSlice>, ss: seq<EndpointSlice>, n: Name)
    ensures n in Written(m, ss) <==> n in m || n in Names(ss)
    ensures n in Names(ss) ==> FindByName(ss, n) == Some(Written(m, ss)[n])
    ensures n !in Names(ss) && n in m ==> Written(m, ss)[n] == m[n]
  {
    if ss != [] {
      var front, last := ss[..|ss| - 1], ss[|ss| - 1];
      WrittenLookup(m, front, n);
      NamesConcat(front, [last]);
      assert ss == front + [last];
      assert Names([last]) == {last.name} by {
        assert [last][0].name == last.name;
      }
      FindNone(front, n);
    }
  }

  class ApiServer {
    var slices: map<Name, EndpointSlice>
    var next: nat
    // The names written or deleted, in order.
    ghost var log: seq<Name>
    // The results of the calls that failed, in order.
    ghost var failures: seq<CallResult>

    ghost predicate Valid()
      reads this
    {
      forall n :: n in slices ==> n.Assigned? && n.id < next && slices[n].name == n
    }

    // A new slice gets a name nobody has.
    method Create(s: EndpointSlice) returns (r: CallResult, created: EndpointSlice)
      requires Valid()
      modifies this
      ensures Valid() && created == s.(name := created.name)
      ensures r.Done? ==> created.name !in old(slices) && slices == old(slices)[created.name := created] && log == old(log) + [created.name]
      ensures !r.Done? ==> slices == old(slices) && log == old(log)
      ensures failures == old(failures) + if r.Done? then [] else [r]
    {
      created := s.(name := Assigned(next));
      if {
        case true =>
          slices, log, next := slices[created.name := created], log + [created.name], next + 1;
          r := Done;
        case true => r, failures := NamespaceTerminating, failures + [NamespaceTerminating];
        case true => r, failures := Refused, failures + [Refused];
      }
    }

    method Update(s: EndpointSlice) returns (r: CallResult)
      requires Valid()
      modifies this
      ensures Valid() && !r.NamespaceTerminating?
      ensures r.Done? ==> s.name in old(slices) && slices == old(slices)[s.name := s] && log == old(log) + [s.name]
      ensures !r.Done? ==> slices == old(slices) && log == old(log)
      ensures failures == old(failures) + if r.Done? then [] else [r]
    {
      if {
        case s.name in slices =>
          slices, log := slices[s.name := s], log + [s.name];
          r := Done;
        case true => r, failures := Refused, failures + [Refused];
      }
    }

    method Delete(name: Name) returns (r: CallResult)
      requires Valid()
      modifies this
      ensures Valid() && !r.NamespaceTerminating?
      ensures r.Done? ==> name in old(slices) && slices == old(slices) - {name} && log == old(log) + [name]
      ensures !r.Done? ==> slices == old(slices) && log == old(log)
      ensures failures == old(failures) + if r.Done? then [] else [r]
    {
      if {
        case name in slices =>
          slices, log := slices - {name}, log + [name];
          r := Done;
        case true => r, failures := Refused, failures + [Refused];
      }
    }
  }
}
