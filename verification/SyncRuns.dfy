/**
 Runs over the lifetime of a virtual server: syncs, flushes of listed servers, and connections that
 come and go.
 */
module SyncRuns {
  import opened Discovery
  import opened GracefulTermination
  import opened EndpointSync

  // `first` says that the proxier has not completed its first round of syncs. A virtual server that is there
  // when the proxier starts begins with `first` and any table; one added later begins without it and with an
  // empty table.
  datatype State = State(table: Table, list: set<RealServer>, first: bool)

  datatype Event =
    | SyncWith(desired: set<RealServer>, clean: bool) // a sync with an entry for the service port; clean if no call failed
    | SyncIdle                                        // a sync that found no entry or no virtual server
    | Flush(rs: RealServer, clean: bool)              // one listed server is tried
    | Traffic                                         // connection counts change

  function Circumstances(protocol: Protocol, s: State, desired: set<RealServer>): Sync {
    Sync(protocol, desired, s.first && SomeOffWeight(s.table))
  }

  function Of(s: State, rs: RealServer): Standing {
    StandingOf(s.table, s.list, rs)
  }

  ghost predicate Step(protocol: Protocol, s: State, e: Event, s': State) {
    match e
    case SyncWith(desired, clean) =>
      && !s'.first
      && forall x :: Result(Circumstances(protocol, s, desired), x in desired, Of(s, x), Of(s', x), clean)
    case SyncIdle => s' == s.(first := false)
    case Flush(rs, clean) =>
      && s'.first == s.first && rs in s.list && OnlyAt(s.table, s.list, s'.table, s'.list, rs)
      && Flushed(protocol, Of(s, rs), Of(s', rs), clean)
    case Traffic =>
      && s'.first == s.first && s'.list == s.list && s'.table.Keys == s.table.Keys
      && forall x :: x in s.table ==> s'.table[x].weight == s.table[x].weight
  }

  ghost predicate ListedAreZero(s: State) {
    forall x :: x in s.list ==> Of(s, x).dest.Some? && Of(s, x).dest.value.weight == 0
  }

  ghost predicate UnlistedAreOne(s: State) {
    forall x :: Of(s, x).dest.Some? && x !in s.list ==> Of(s, x).dest.value.weight == 1
  }

  // Before the first sync nothing is listed.
  ghost predicate Orderly(s: State) {
    ListedAreZero(s) && (s.first ==> s.list == {})
  }

  lemma StepOrderly(protocol: Protocol, s: State, e: Event, s': State)
    requires Orderly(s) && Step(protocol, s, e, s')
    ensures Orderly(s')
  {
    forall x | x in s'.list ensures Of(s', x).dest.Some? && Of(s', x).dest.value.weight == 0 {
      assert x in s.list ==> Of(s, x).dest.Some? && Of(s, x).dest.value.weight == 0;
      match e
      case SyncWith(desired, clean) =>
        assert Result(Circumstances(protocol, s, desired), x in desired, Of(s, x), Of(s', x), clean);
      case Flush(rs, clean) =>
        assert x != rs ==> Of(s', x) == Of(s, x);
      case _ =>
    }
  }

  lemma StepKeeps(protocol: Protocol, s: State, e: Event, s': State)
    requires Orderly(s) && UnlistedAreOne(s) && Step(protocol, s, e, s')
    ensures UnlistedAreOne(s')
  {
    forall x | Of(s', x).dest.Some? && x !in s'.list ensures Of(s', x).dest.value.weight == 1 {
      assert Of(s, x).dest.Some? && x !in s.list ==> Of(s, x).dest.value.weight == 1;
      match e
      case SyncWith(desired, clean) =>
        assert Result(Circumstances(protocol, s, desired), x in desired, Of(s, x), Of(s', x), clean);
      case Flush(rs, clean) =>
        assert x != rs ==> Of(s', x) == Of(s, x);
      case _ =>
    }
  }

  // The first sync puts all weights right, whatever they were.
  lemma FirstSyncEstablishes(protocol: Protocol, s: State, desired: set<RealServer>, s': State)
    requires Orderly(s) && s.first && Step(protocol, s, SyncWith(desired, true), s')
    ensures UnlistedAreOne(s')
  {
    forall x | Of(s', x).dest.Some? && x !in s'.list ensures Of(s', x).dest.value.weight == 1 {
      assert Result(Circumstances(protocol, s, desired), x in desired, Of(s, x), Of(s', x), true);
      assert !SomeOffWeight(s.table) && x in s.table ==> s.table[x].weight == 1;
    }
  }

  /* Runs */

  // A lifetime starts with nothing listed, or at any later time.
  ghost predicate IsRun(protocol: Protocol, states: seq<State>, events: seq<Event>) {
    && |states| == |events| + 1 && Orderly(states[0])
    && forall i :: 0 <= i < |events| ==> Step(protocol, states[i], events[i], states[i + 1])
  }

  // In every run, whatever calls fail, every listed server is in the kernel with weight 0.
  lemma {:induction false} RunOrderly(protocol: Protocol, states: seq<State>, events: seq<Event>, i: nat)
    requires IsRun(protocol, states, events) && i < |states|
    ensures Orderly(states[i])
  {
    if i > 0 {
      RunOrderly(protocol, states, events, i - 1);
      StepOrderly(protocol, states[i - 1], events[i - 1], states[i]);
    }
  }

  // The weights are right at i, or the first sync at i puts them right.
  ghost predicate RightFrom(states: seq<State>, events: seq<Event>, i: nat)
    requires i < |states| == |events| + 1
  {
    UnlistedAreOne(states[i]) || (i < |events| && states[i].first && events[i].SyncWith? && events[i].clean)
  }

  // In every run, once the weights of the unlisted servers are right they stay so, whatever calls fail.
  lemma {:induction false} WeightsFollowTheList(protocol: Protocol, states: seq<State>, events: seq<Event>, i: nat, j: nat)
    requires IsRun(protocol, states, events) && i < j < |states| && RightFrom(states, events, i)
    ensures ListedAreZero(states[j]) && UnlistedAreOne(states[j])
  {
    RunOrderly(protocol, states, events, j);
    RunOrderly(protocol, states, events, j - 1);
    assert Step(protocol, states[j - 1], events[j - 1], states[j]);
    if j > i + 1 {
      WeightsFollowTheList(protocol, states, events, i, j - 1);
    }
    if UnlistedAreOne(states[j - 1]) {
      StepKeeps(protocol, states[j - 1], events[j - 1], states[j]);
    } else {
      FirstSyncEstablishes(protocol, states[i], events[i].desired, states[j]);
    }
  }

  /* Virtual servers added later */

  // A virtual server added while the proxier runs starts with an empty table. Servers of an earlier virtual server of
  // the same address may still be listed; before the first sync nothing is.
  ghost predicate IsLaterRun(protocol: Protocol, states: seq<State>, events: seq<Event>) {
    && |states| == |events| + 1 && states[0].table == map[] && (states[0].first ==> states[0].list == {})
    && forall i :: 0 <= i < |events| ==> Step(protocol, states[i], events[i], states[i + 1])
  }

  // Every server in the kernel has weight 0 if it is listed and 1 otherwise.
  ghost predicate Right(s: State) {
    (forall x :: x in s.table ==> s.table[x].weight == if x in s.list then 0 else 1) && (s.first ==> s.list == {})
  }

  // A sync adds a server that is listed without being in the kernel.
  ghost predicate AddsLeftover(s: State, e: Event, s': State) {
    e.SyncWith? && exists x :: x in e.desired && x in s.list && x !in s.table && x in s'.table
  }

  lemma StepRight(protocol: Protocol, s: State, e: Event, s': State)
    requires Right(s) && Step(protocol, s, e, s')
    ensures Right(s') <==> !AddsLeftover(s, e, s')
  {
    if !AddsLeftover(s, e, s') {
      forall x | x in s'.table ensures s'.table[x].weight == if x in s'.list then 0 else 1 {
        WeightAfter(protocol, s, e, s', x);
      }
    } else {
      var x :| x in e.desired && x in s.list && x !in s.table && x in s'.table;
      assert Result(Circumstances(protocol, s, e.desired), x in e.desired, Of(s, x), Of(s', x), e.clean);
      assert Of(s', x) == Standing(Some(FRESH), true);
    }
  }

  lemma WeightAfter(protocol: Protocol, s: State, e: Event, s': State, x: RealServer)
    requires Right(s) && Step(protocol, s, e, s') && x in s'.table && !AddsLeftover(s, e, s')
    ensures s'.table[x].weight == if x in s'.list then 0 else 1
  {
    assert Of(s', x).dest == Some(s'.table[x]);
    match e
    case SyncWith(desired, clean) =>
      assert Result(Circumstances(protocol, s, desired), x in desired, Of(s, x), Of(s', x), clean);
    case Flush(rs, clean) =>
      assert x != rs ==> Of(s', x) == Of(s, x);
    case _ =>
  }

  // It has right weights all its life exactly if no sync ever adds a server that is still listed from before.
  lemma AddedLater(protocol: Protocol, states: seq<State>, events: seq<Event>)
    requires IsLaterRun(protocol, states, events)
    ensures (forall i :: 0 <= i < |states| ==> Right(states[i])) <==>
      forall i :: 0 <= i < |events| ==> !AddsLeftover(states[i], events[i], states[i + 1])
  {
    if forall i :: 0 <= i < |events| ==> !AddsLeftover(states[i], events[i], states[i + 1]) {
      forall i | 0 <= i < |states| ensures Right(states[i]) {
        RightSoFar(protocol, states, events, i);
      }
    }
    if forall i :: 0 <= i < |states| ==> Right(states[i]) {
      forall i | 0 <= i < |events| ensures !AddsLeftover(states[i], events[i], states[i + 1]) {
        StepRight(protocol, states[i], events[i], states[i + 1]);
      }
    }
  }

  lemma {:induction false} RightSoFar(protocol: Protocol, states: seq<State>, events: seq<Event>, n: nat)
    requires IsLaterRun(protocol, states, events) && n < |states|
    requires forall i :: 0 <= i < |events| ==> !AddsLeftover(states[i], events[i], states[i + 1])
    ensures Right(states[n])
  {
    if n > 0 {
      RightSoFar(protocol, states, events, n - 1);
      StepRight(protocol, states[n - 1], events[n - 1], states[n]);
    }
  }

  // With nothing listed at the start that never happens.
  lemma AddedWithNothingListed(protocol: Protocol, states: seq<State>, events: seq<Event>, j: nat)
    requires IsLaterRun(protocol, states, events) && states[0].list == {} && j < |states|
    ensures ListedAreZero(states[j]) && UnlistedAreOne(states[j])
  {
    RunOrderly(protocol, states, events, j);
    if j > 0 {
      WeightsFollowTheList(protocol, states, events, 0, j);
    }
  }

  // Were a server listed from an earlier virtual server of the same address, it would be added with weight 1 and stay
  // listed, and the next flush would delete it although it is desired.
  lemma LeftoverIsDeleted(protocol: Protocol, rs: RealServer, first: bool, s1: State, s2: State)
    requires Step(protocol, State(map[], {rs}, first), SyncWith({rs}, true), s1) && Step(protocol, s1, Flush(rs, true), s2)
    ensures Of(s1, rs) == Standing(Some(FRESH), true) && rs !in s2.table
  {
    var s := State(map[], {rs}, first);
    assert Result(Circumstances(protocol, s, {rs}), rs in {rs}, Of(s, rs), Of(s1, rs), true);
  }

  // A sync without failing calls keeps the listed servers in order exactly if each of them is in the kernel, and
  // those that stay listed have weight 0.
  lemma OrderlyAfterSync(protocol: Protocol, s: State, desired: set<RealServer>, s': State)
    requires Step(protocol, s, SyncWith(desired, true), s')
    ensures ListedAreZero(s') <==> forall x :: x in s.list ==> x in s.table && (x in desired || s.table[x].weight == 0)
  {
    var y := Circumstances(protocol, s, desired);
    if x :| x in s.list && !(x in s.table && (x in desired || s.table[x].weight == 0)) {
      assert Result(y, x in desired, Of(s, x), Of(s', x), true);
      assert x in s'.list;
    }
    if x :| x in s'.list && !(Of(s', x).dest.Some? && Of(s', x).dest.value.weight == 0) {
      assert Result(y, x in desired, Of(s, x), Of(s', x), true);
    }
  }

  /* Convergence */

  ghost predicate Converged(s: State, desired: set<RealServer>) {
    forall x :: Of(s, x).dest.Some? && Of(s, x).dest.value.weight == 1 <==> x in desired
  }

  // A desired server that is not terminating stands at a weight other than 1.
  ghost predicate StaleWeight(s: State, desired: set<RealServer>) {
    exists x :: x in desired && x in s.table && x !in s.list && s.table[x].weight != 1
  }

  // After a sync in which no call failed the servers with weight 1 are exactly the desired ones, unless a
  // desired server had a stale weight and it was not the first sync.
  lemma ConvergesUnlessStale(protocol: Protocol, s: State, desired: set<RealServer>, s': State)
    requires Orderly(s) && Step(protocol, s, SyncWith(desired, true), s')
    ensures Converged(s', desired) <==> s.first || !StaleWeight(s, desired)
  {
    var y := Circumstances(protocol, s, desired);
    if s.first || !StaleWeight(s, desired) {
      forall x ensures Of(s', x).dest.Some? && Of(s', x).dest.value.weight == 1 <==> x in desired {
        assert Result(y, x in desired, Of(s, x), Of(s', x), true);
        assert !SomeOffWeight(s.table) && x in s.table ==> s.table[x].weight == 1;
        assert x in s.list ==> Of(s, x).dest.Some? && Of(s, x).dest.value.weight == 0;
      }
    } else {
      var x :| x in desired && x in s.table && x !in s.list && s.table[x].weight != 1;
      assert Result(y, x in desired, Of(s, x), Of(s', x), true);
    }
  }

  // A first sync without an entry leaves a weight of 5 behind, and later syncs do not notice.
  lemma StaleWeightStays(protocol: Protocol, rs: RealServer, s: State, s1: State, s2: State)
    requires s == State(map[rs := Dest(5, 0, 0)], {}, true)
    requires Step(protocol, s, SyncIdle, s1) && Step(protocol, s1, SyncWith({rs}, true), s2)
    ensures Of(s2, rs) == Standing(Some(Dest(5, 0, 0)), false) && !Converged(s2, {rs})
  {
    assert Result(Circumstances(protocol, s1, {rs}), rs in {rs}, Of(s1, rs), Of(s2, rs), true);
  }

  /* Connections */

  // A TCP server with open connections leaves the kernel only if it was terminating, is desired again, and
  // the call that adds it anew fails. If no call fails it is there after every step, with its connections
  // unless it was deleted and added anew.
  lemma BusyServersStay(protocol: Protocol, s: State, e: Event, s': State, x: RealServer)
    requires Step(protocol, s, e, s') && x in s.table && protocol == TCP && (s.table[x].active > 0 || s.table[x].inactive > 0)
    ensures x !in s'.table ==> e.SyncWith? && !e.clean && x in s.list && x in e.desired
    ensures x in s'.table && !e.Traffic? ==>
      || (s'.table[x].active == s.table[x].active && s'.table[x].inactive == s.table[x].inactive)
      || (e.SyncWith? && x in s.list && x in e.desired && s'.table[x] == FRESH && x !in s'.list)
  {
    match e
    case SyncWith(desired, clean) =>
      assert Result(Circumstances(protocol, s, desired), x in desired, Of(s, x), Of(s', x), clean);
    case Flush(rs, clean) =>
      assert x != rs ==> Of(s', x) == Of(s, x);
    case _ =>
  }

  // After a sync without failing calls, a server that is no longer desired is out of the kernel exactly if nothing but
  // TCP connections could have kept it; otherwise it keeps its connections, at weight 0 and listed.
  lemma UndesiredLeave(protocol: Protocol, s: State, desired: set<RealServer>, s': State, x: RealServer)
    requires Step(protocol, s, SyncWith(desired, true), s') && x in s.table && x !in s.list && x !in desired
    ensures x !in s'.table <==> protocol != TCP || (s.table[x].active == 0 && s.table[x].inactive == 0)
    ensures x in s'.table ==> x in s'.list && s'.table[x] == Dest(0, s.table[x].active, s.table[x].inactive)
    ensures x !in s'.table ==> x !in s'.list
  {
    assert Result(Circumstances(protocol, s, desired), x in desired, Of(s, x), Of(s', x), true);
  }

  // The same for a listed server that is flushed.
  lemma FlushedLeave(protocol: Protocol, s: State, rs: RealServer, s': State)
    requires Step(protocol, s, Flush(rs, true), s') && rs in s.table
    ensures rs !in s'.table <==> protocol != TCP || (s.table[rs].active == 0 && s.table[rs].inactive == 0)
    ensures rs in s'.table ==> rs in s'.list && s'.table[rs] == s.table[rs]
    ensures rs !in s'.table ==> rs !in s'.list
  {
    assert Flushed(protocol, Of(s, rs), Of(s', rs), true);
  }

  // And a desired server is there after it: as it was, except that a new one and one that was being terminated start
  // without connections at weight 1, and that the first sync puts a weight right.
  lemma DesiredArrive(protocol: Protocol, s: State, desired: set<RealServer>, s': State, x: RealServer)
    requires Step(protocol, s, SyncWith(desired, true), s') && x in desired
    ensures x in s'.table
    ensures x !in s.table || x in s.list ==> s'.table[x] == Dest(1, 0, 0)
    ensures x in s.table && x !in s.list ==>
      && s'.table[x].active == s.table[x].active && s'.table[x].inactive == s.table[x].inactive
      && s'.table[x].weight == if s.first then 1 else s.table[x].weight
    ensures x in s'.list <==> x in s.list && x !in s.table
  {
    assert Result(Circumstances(protocol, s, desired), x in desired, Of(s, x), Of(s', x), true);
    assert x in s.table && s.table[x].weight != 1 ==> SomeOffWeight(s.table);
  }

  // What a sync can do to a server when calls fail. One that is not desired is as it was, or terminating with its connections,
  // or gone if nothing kept it. One that is desired is as it was, at weight 1, or started anew; a terminating one may be gone.
  lemma EvenIfCallsFail(protocol: Protocol, s: State, desired: set<RealServer>, clean: bool, s': State, x: RealServer)
    requires Step(protocol, s, SyncWith(desired, clean), s')
    ensures x !in desired && (x !in s.table || x in s.list) ==> Of(s', x) == Of(s, x)
    ensures x !in desired && x in s.table && x !in s.list ==>
      || Of(s', x) == Of(s, x) || Of(s', x) == Standing(Some(Dest(0, s.table[x].active, s.table[x].inactive)), true)
      || (Of(s', x) == Standing(None, false) && (protocol != TCP || (s.table[x].active == 0 && s.table[x].inactive == 0)))
    ensures x in desired && x !in s.table ==> Of(s', x) == Of(s, x) || Of(s', x) == Standing(Some(Dest(1, 0, 0)), x in s.list)
    ensures x in desired && x in s.table && x !in s.list ==>
      Of(s', x) == Of(s, x) || (s.first && Of(s', x) == Standing(Some(s.table[x].(weight := 1)), false))
    ensures x in desired && x in s.table && x in s.list ==>
      || Of(s', x) in {Of(s, x), Standing(None, false), Standing(Some(Dest(1, 0, 0)), false)}
      || (s.first && Of(s', x) == Standing(Some(s.table[x].(weight := 1)), true))
  {
    assert Result(Circumstances(protocol, s, desired), x in desired, Of(s, x), Of(s', x), clean);
  }
}
