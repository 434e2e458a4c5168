/**
 Syncing the real servers of a virtual server with the desired endpoints, and runs of syncs, flushes
 of the termination list, and changing connection counts.
 */
module EndpointSync {
  import opened Sequences
  import opened Discovery
  import opened GracefulTermination

  predicate SomeOffWeight(table: Table) {
    exists x :: x in table && table[x].weight != 1
  }

  // The servers in `done` have been dealt with, the others stand as they did.
  ghost predicate SyncedSoFar(y: Sync, table: Table, list: set<RealServer>, table': Table, list': set<RealServer>,
                              done: set<RealServer>, clean: bool) {
    forall x :: if x in done then Result(y, x in y.desired, StandingOf(table, list, x), StandingOf(table', list', x), clean)
                else StandingOf(table', list', x) == StandingOf(table, list, x)
  }

  lemma SyncedOneMore(y: Sync, table: Table, list: set<RealServer>, table1: Table, list1: set<RealServer>,
                      table2: Table, list2: set<RealServer>, done: set<RealServer>, rs: RealServer, clean1: bool, clean2: bool)
    requires SyncedSoFar(y, table, list, table1, list1, done, clean1) && rs !in done && (clean2 ==> clean1)
    requires OnlyAt(table1, list1, table2, list2, rs)
    requires Result(y, rs in y.desired, StandingOf(table1, list1, rs), StandingOf(table2, list2, rs), clean2)
    ensures SyncedSoFar(y, table, list, table2, list2, done + {rs}, clean2)
  {
    forall x
      ensures if x in done + {rs} then Result(y, x in y.desired, StandingOf(table, list, x), StandingOf(table2, list2, x), clean2)
              else StandingOf(table2, list2, x) == StandingOf(table, list, x)
    {
      assert StandingOf(table1, list1, rs) == StandingOf(table, list, rs);
      assert if x in done then Result(y, x in y.desired, StandingOf(table, list, x), StandingOf(table1, list1, x), clean1)
             else StandingOf(table1, list1, x) == StandingOf(table, list, x);
    }
  }

  // Servers that are neither desired nor in the table need nothing.
  lemma SyncedAll(y: Sync, table: Table, list: set<RealServer>, table': Table, list': set<RealServer>, done: set<RealServer>, clean: bool)
    requires SyncedSoFar(y, table, list, table', list', done, clean) && done == y.desired + table.Keys
    ensures forall x :: Result(y, x in y.desired, StandingOf(table, list, x), StandingOf(table', list', x), clean)
  {
    forall x ensures Result(y, x in y.desired, StandingOf(table, list, x), StandingOf(table', list', x), clean) {
      assert if x in done then Result(y, x in y.desired, StandingOf(table, list, x), StandingOf(table', list', x), clean)
             else StandingOf(table', list', x) == StandingOf(table, list, x);
    }
  }

  class Proxier {
    const manager: GracefulTerminationManager
    var initialSync: bool

    constructor (manager: GracefulTerminationManager)
      ensures this.manager == manager && initialSync
    {
      this.manager, initialSync := manager, true;
    }

    // The first sync resets the server's weight once for every server whose weight is off.
    method ResetWeight(rs: RealServer, dests: Table)
      requires rs in manager.kernel.table
      modifies manager.kernel
      ensures OnlyAt(old(manager.kernel.table), manager.list, manager.kernel.table, manager.list, rs)
      ensures rs in manager.kernel.table && manager.kernel.faults >= old(manager.kernel.faults)
      ensures var d, d' := old(manager.kernel.table)[rs], manager.kernel.table[rs];
        (d' == d || (SomeOffWeight(dests) && d' == d.(weight := 1)))
        && (manager.kernel.faults == old(manager.kernel.faults) && SomeOffWeight(dests) ==> d' == d.(weight := 1))
    {
      var kernel := manager.kernel;
      var rest := dests.Keys;
      ghost var d, off := kernel.table[rs], false;
      while rest != {}
        invariant rest <= dests.Keys && rs in kernel.table && kernel.faults >= old(kernel.faults)
        invariant OnlyAt(old(kernel.table), manager.list, kernel.table, manager.list, rs)
        invariant off <==> exists x :: x in dests && x !in rest && dests[x].weight != 1
        invariant kernel.table[rs] == d || (off && kernel.table[rs] == d.(weight := 1))
        invariant kernel.faults == old(kernel.faults) && off ==> kernel.table[rs] == d.(weight := 1)
        decreases rest
      {
        var x :| x in rest;
        if dests[x].weight != 1 {
          var ok := kernel.UpdateRealServer(rs, 1);
          off := true;
        }
        rest := rest - {x};
      }
    }

    // Makes sure a desired server is there with weight 1. One that is terminating is deleted first.
    method AddDesired(rs: RealServer, dests: Table, ghost y: Sync)
      requires rs in dests <==> rs in manager.kernel.table
      requires y.reset <==> initialSync && SomeOffWeight(dests)
      modifies manager, manager.kernel
      ensures OnlyAt(old(manager.kernel.table), old(manager.list), manager.kernel.table, manager.list, rs)
      ensures manager.kernel.faults >= old(manager.kernel.faults)
      ensures Result(y, true, old(manager.At(rs)), manager.At(rs), manager.kernel.faults == old(manager.kernel.faults))
    {
      if rs in dests {
        if initialSync {
          ResetWeight(rs, dests);
        }
        if rs !in manager.list {
          return;
        }
        var moved := manager.MoveOut(rs);
        if !moved {
          return;
        }
      }
      var added := manager.kernel.AddRealServer(rs, 1);
    }

    // The servers end up as desired; without an entry for the service port nothing is done.
    method SyncEndpoint(entry: Option<set<RealServer>>) returns (ok: bool, ghost y: Sync)
      modifies manager, manager.kernel
      ensures !ok || entry.None? ==> manager.kernel.table == old(manager.kernel.table) && manager.list == old(manager.list)
      ensures !ok ==> manager.kernel.faults > old(manager.kernel.faults)
      ensures ok && entry.Some? ==>
        && y == Sync(manager.protocol, entry.value, initialSync && SomeOffWeight(old(manager.kernel.table)))
        && forall x :: Result(y, x in entry.value, old(manager.At(x)), manager.At(x), manager.kernel.faults == old(manager.kernel.faults))
    {
      var kernel := manager.kernel;
      y := Sync(manager.protocol, {}, false);
      ok := kernel.GetVirtualServer();
      if !ok {
        return;
      }
      var dests;
      ok, dests := kernel.GetRealServers();
      if !ok || entry.None? {
        return;
      }
      var desired := entry.value;
      y := Sync(manager.protocol, desired, initialSync && SomeOffWeight(dests));
      ghost var table, list, faults := kernel.table, manager.list, kernel.faults;
      AddAll(desired, dests, y);
      RemoveAll(desired, dests, y, table, list, faults);
      SyncedAll(y, table, list, kernel.table, manager.list, desired + dests.Keys, kernel.faults == faults);
      assert forall x :: Result(y, x in desired, StandingOf(table, list, x), manager.At(x), kernel.faults == faults);
    }

    method AddAll(desired: set<RealServer>, dests: Table, ghost y: Sync)
      requires dests == manager.kernel.table && y == Sync(manager.protocol, desired, initialSync && SomeOffWeight(dests))
      modifies manager, manager.kernel
      ensures manager.kernel.faults >= old(manager.kernel.faults)
      ensures SyncedSoFar(y, dests, old(manager.list), manager.kernel.table, manager.list, desired, manager.kernel.faults == old(manager.kernel.faults))
    {
      var kernel := manager.kernel;
      ghost var done: set<RealServer>, list, faults := {}, manager.list, kernel.faults;
      var rest := desired;
      while rest != {}
        invariant done + rest == desired && done !! rest && kernel.faults >= faults
        invariant SyncedSoFar(y, dests, list, kernel.table, manager.list, done, kernel.faults == faults)
        decreases rest
      {
        var rs :| rs in rest;
        MoveOver(done, rest, desired, rs);
        ghost var table1, list1, faults1 := kernel.table, manager.list, kernel.faults;
        assert StandingOf(table1, list1, rs) == StandingOf(dests, list, rs);
        AddDesired(rs, dests, y);
        SyncedOneMore(y, dests, list, table1, list1, kernel.table, manager.list, done, rs, faults1 == faults, kernel.faults == faults);
        rest, done := rest - {rs}, done + {rs};
      }
      assert done == desired;
    }

    method RemoveAll(desired: set<RealServer>, dests: Table, ghost y: Sync, ghost table: Table, ghost list: set<RealServer>, ghost faults: nat)
      requires table == dests && y.desired == desired && y.protocol == manager.protocol && manager.kernel.faults >= faults
      requires SyncedSoFar(y, table, list, manager.kernel.table, manager.list, desired, manager.kernel.faults == faults)
      modifies manager, manager.kernel
      ensures manager.kernel.faults >= faults
      ensures SyncedSoFar(y, table, list, manager.kernel.table, manager.list, desired + dests.Keys, manager.kernel.faults == faults)
    {
      var kernel := manager.kernel;
      var rest := dests.Keys - desired;
      ghost var done := desired;
      while rest != {}
        invariant done + rest == desired + dests.Keys && done !! rest && desired <= done && kernel.faults >= faults
        invariant SyncedSoFar(y, table, list, kernel.table, manager.list, done, kernel.faults == faults)
        decreases rest
      {
        var rs :| rs in rest;
        MoveOver(done, rest, desired + dests.Keys, rs);
        ghost var table1, list1, faults1 := kernel.table, manager.list, kernel.faults;
        assert StandingOf(table1, list1, rs) == StandingOf(table, list, rs);
        if rs !in manager.list {
          var deleted := manager.GracefulDeleteRS(rs, y);
        }
        SyncedOneMore(y, table, list, table1, list1, kernel.table, manager.list, done, rs, faults1 == faults, kernel.faults == faults);
        rest, done := rest - {rs}, done + {rs};
      }
      assert done == desired + dests.Keys;
    }
  }
}
