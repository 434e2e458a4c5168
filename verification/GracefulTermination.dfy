/**
 The real servers of one IPVS virtual server: the kernel's table, the list of servers that are
 being terminated gracefully, and what a sync makes of each server.
 */
module GracefulTermination {
  import opened Discovery

  // A real server is identified by its address and port, written as in an endpoint string.
  datatype RealServer = RealServer(text: string)

  datatype Dest = Dest(weight: int, active: nat, inactive: nat)

  type Table = map<RealServer, Dest>

  // What there is about one server: its kernel entry, and whether it is on the termination list.
  datatype Standing = Standing(dest: Option<Dest>, listed: bool)

  function StandingOf(table: Table, list: set<RealServer>, rs: RealServer): Standing {
    Standing(if rs in table then Some(table[rs]) else None, rs in list)
  }

  predicate Busy(protocol: Protocol, d: Dest) {
    protocol == TCP && d.active + d.inactive != 0
  }

  const FRESH := Dest(1, 0, 0)

  /* What a sync may make of a server */

  // The circumstances of a sync: the protocol, the desired servers, and whether weights are reset, which
  // the first sync does if some weight is not 1.
  datatype Sync = Sync(protocol: Protocol, desired: set<RealServer>, reset: bool)

  // Without errors. A desired server that is terminating is deleted and added anew.
  function Synced(y: Sync, desired: bool, s: Standing): Standing {
    if desired then
      if s.dest.None? then Standing(Some(FRESH), s.listed)
      else if s.listed then Standing(Some(FRESH), false)
      else if y.reset then Standing(Some(s.dest.value.(weight := 1)), false)
      else s
    else if s.dest.None? || s.listed then s
    else if Busy(y.protocol, s.dest.value) then Standing(Some(s.dest.value.(weight := 0)), true)
    else Standing(None, false)
  }

  // With errors: where the server may end up instead.
  predicate MayEndAs(y: Sync, desired: bool, s: Standing, s': Standing) {
    if desired then
      if s.dest.None? then s' == s
      else if s.listed then s' == s || s' == Standing(None, false) || (y.reset && s' == Standing(Some(s.dest.value.(weight := 1)), true))
      else s' == s
    else if s.dest.None? || s.listed then s' == s
    else s' in {s, Standing(Some(s.dest.value.(weight := 0)), true)}
  }

  ghost predicate Result(y: Sync, desired: bool, s: Standing, s': Standing, clean: bool) {
    s' == Synced(y, desired, s) || (!clean && MayEndAs(y, desired, s, s'))
  }

  /* The kernel's table */

  // Calls may fail; `faults` counts those that did.
  class Kernel {
    var table: Table
    ghost var faults: nat

    constructor (table: Table)
      ensures this.table == table && faults == 0
    {
      this.table, faults := table, 0;
    }

    method GetRealServers() returns (ok: bool, dests: Table)
      modifies this
      ensures table == old(table) && (ok ==> dests == table && faults == old(faults)) && (!ok ==> faults == old(faults) + 1)
    {
      if {
        case true => ok, dests := true, table;
        case true => ok, dests, faults := false, map[], faults + 1;
      }
    }

    method GetVirtualServer() returns (ok: bool)
      modifies this
      ensures table == old(table) && faults == if ok then old(faults) else old(faults) + 1
    {
      if {
        case true => ok := true;
        case true => ok, faults := false, faults + 1;
      }
    }

    method AddRealServer(rs: RealServer, weight: int) returns (ok: bool)
      modifies this
      ensures ok ==> rs !in old(table) && table == old(table)[rs := Dest(weight, 0, 0)] && faults == old(faults)
      ensures !ok ==> table == old(table) && faults == old(faults) + 1
    {
      if {
        case rs !in table => ok, table := true, table[rs := Dest(weight, 0, 0)];
        case true => ok, faults := false, faults + 1;
      }
    }

    method UpdateRealServer(rs: RealServer, weight: int) returns (ok: bool)
      modifies this
      ensures ok ==> rs in old(table) && table == old(table)[rs := old(table)[rs].(weight := weight)] && faults == old(faults)
      ensures !ok ==> table == old(table) && faults == old(faults) + 1
    {
      if {
        case rs in table => ok, table := true, table[rs := table[rs].(weight := weight)];
        case true => ok, faults := false, faults + 1;
      }
    }

    method DeleteRealServer(rs: RealServer) returns (ok: bool)
      modifies this
      ensures ok ==> rs in old(table) && table == old(table) - {rs} && faults == old(faults)
      ensures !ok ==> table == old(table) && faults == old(faults) + 1
    {
      if {
        case rs in table => ok, table := true, table - {rs};
        case true => ok, faults := false, faults + 1;
      }
    }
  }

  /* The termination list */

  // Only the standing of rs changed.
  ghost predicate OnlyAt(table: Table, list: set<RealServer>, table': Table, list': set<RealServer>, rs: RealServer) {
    forall x :: x != rs ==> StandingOf(table', list', x) == StandingOf(table, list, x)
  }

  class GracefulTerminationManager {
    const kernel: Kernel
    const protocol: Protocol
    var list: set<RealServer>

    constructor (kernel: Kernel, protocol: Protocol)
      ensures this.kernel == kernel && this.protocol == protocol && list == {}
    {
      this.kernel, this.protocol, list := kernel, protocol, {};
    }

    function At(rs: RealServer): Standing
      reads this, kernel
    {
      StandingOf(kernel.table, list, rs)
    }

    // Tries to delete the server from the kernel. A server with open connections is left alone, and one the
    // kernel does not have counts as deleted.
    method DeleteRs(rs: RealServer) returns (deleted: bool, err: bool)
      modifies kernel
      ensures kernel.faults >= old(kernel.faults)
      ensures deleted ==> kernel.table == old(kernel.table) - {rs} && kernel.faults == old(kernel.faults)
      ensures deleted && rs in old(kernel.table) ==>
        protocol != TCP || (old(kernel.table)[rs].active == 0 && old(kernel.table)[rs].inactive == 0)
      ensures !deleted ==> kernel.table == old(kernel.table)
      ensures !deleted && kernel.faults == old(kernel.faults) ==>
        rs in kernel.table && protocol == TCP && (kernel.table[rs].active > 0 || kernel.table[rs].inactive > 0)
      ensures err <==> kernel.faults > old(kernel.faults) || rs !in old(kernel.table)
    {
      var ok, dests := kernel.GetRealServers();
      if !ok {
        return false, true;
      }
      if rs in dests {
        if protocol == TCP && dests[rs].active + dests[rs].inactive != 0 {
          return false, false;
        }
        ok := kernel.DeleteRealServer(rs);
        return ok, !ok;
      }
      assert kernel.table - {rs} == kernel.table;
      return true, true;
    }

    // Deletes the server, or else sets its weight to 0 and puts it on the list.
    method GracefulDeleteRS(rs: RealServer, ghost y: Sync) returns (ok: bool)
      requires y.protocol == protocol
      modifies this, kernel
      ensures kernel.faults >= old(kernel.faults) && OnlyAt(old(kernel.table), old(list), kernel.table, list, rs)
      ensures rs !in old(list) ==> Result(y, false, old(At(rs)), At(rs), kernel.faults == old(kernel.faults))
      ensures !ok ==> kernel.faults > old(kernel.faults)
      ensures if ok then rs !in kernel.table || rs in list else kernel.table == old(kernel.table) && list == old(list)
    {
      var deleted, _ := DeleteRs(rs);
      if deleted {
        return true;
      }
      ok := kernel.UpdateRealServer(rs, 0);
      if ok {
        list := list + {rs};
      }
    }

    // Deletes the server at once and takes it off the list.
    method MoveOut(rs: RealServer) returns (ok: bool)
      modifies this, kernel
      ensures ok ==> rs in old(list) && rs in old(kernel.table) && kernel.table == old(kernel.table) - {rs} && list == old(list) - {rs}
      ensures ok ==> kernel.faults == old(kernel.faults)
      ensures !ok ==> kernel.table == old(kernel.table) && list == old(list)
      ensures kernel.faults >= old(kernel.faults) && (!ok && rs in old(list) ==> kernel.faults > old(kernel.faults))
    {
      if rs !in list {
        return false;
      }
      ok := kernel.DeleteRealServer(rs);
      if ok {
        list := list - {rs};
      }
    }

    // One step of flushing the list: a server stays on it only while it has connections or a call fails.
    method FlushOne(rs: RealServer) returns (ok: bool)
      requires rs in list
      modifies this, kernel
      ensures OnlyAt(old(kernel.table), old(list), kernel.table, list, rs)
      ensures Flushed(protocol, old(At(rs)), At(rs), kernel.faults == old(kernel.faults))
      ensures kernel.faults >= old(kernel.faults)
      ensures ok <==> kernel.faults == old(kernel.faults) && rs in old(kernel.table)
    {
      var deleted, err := DeleteRs(rs);
      ok := !err;
      if deleted {
        list := list - {rs};
      }
    }

    // Flushes the whole list: each server listed before was flushed, no other was touched. Succeeds exactly if no
    // call failed and the kernel had every listed server.
    method TryDeleteRs() returns (success: bool)
      modifies this, kernel
      ensures forall x :: if x in old(list) then Flushed(protocol, old(At(x)), At(x), kernel.faults == old(kernel.faults)) else At(x) == old(At(x))
      ensures success <==> kernel.faults == old(kernel.faults) && old(list) <= old(kernel.table).Keys
    {
      success := true;
      var rest := list;
      ghost var done: set<RealServer> := {};
      while rest != {}
        invariant done + rest == old(list) && done !! rest && rest <= list && kernel.faults >= old(kernel.faults)
        invariant forall x :: if x in done then Flushed(protocol, old(At(x)), At(x), kernel.faults == old(kernel.faults)) else At(x) == old(At(x))
        invariant success <==> kernel.faults == old(kernel.faults) && done <= old(kernel.table).Keys
        decreases rest
      {
        var rs :| rs in rest;
        assert At(rs) == old(At(rs));
        ghost var table, before := kernel.table, list;
        var ok := FlushOne(rs);
        success := success && ok;
        rest, done := rest - {rs}, done + {rs};
        forall x ensures if x in done then Flushed(protocol, old(At(x)), At(x), kernel.faults == old(kernel.faults)) else At(x) == old(At(x)) {
          assert x != rs ==> At(x) == StandingOf(table, before, x);
        }
        forall x | x in rest ensures x in list {
          assert At(x) == StandingOf(table, before, x);
        }
      }
      assert done == old(list);
    }
  }

  // What flushing makes of a listed server.
  ghost predicate Flushed(protocol: Protocol, s: Standing, s': Standing, clean: bool) {
    if s.dest.Some? && Busy(protocol, s.dest.value) then s' == s
    else s' == Standing(None, false) || (!clean && s' == s)
  }
}
