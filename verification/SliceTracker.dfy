/**
 The tracker of expected slice generations. It tells the controller whether its informer still
 lags behind the controller's own writes.
 */
module SliceTracker {
  import opened Sequences
  import opened Discovery

  // Services and slices are identified by namespaced name and by uid; both are only compared.
  datatype ServiceId = ServiceId(id: nat)
  datatype Uid = Uid(id: nat)

  // A version of a slice: the service its label names, whether it is already marked for deletion,
  // and whether this controller manages it.
  datatype SliceVersion = SliceVersion(service: ServiceId, uid: Uid, generation: nat, marked: bool, managed: bool)

  type Generations = map<ServiceId, map<Uid, int>>

  const DELETION_EXPECTED := -1

  function Tracked(table: Generations, service: ServiceId, uid: Uid): Option<int> {
    if service in table && uid in table[service] then Some(table[service][uid]) else None
  }

  // The table with one entry set, or removed, or with a service removed.
  function Track(table: Generations, service: ServiceId, uid: Uid, generation: int): Generations {
    table[service := (if service in table then table[service] else map[])[uid := generation]]
  }

  function Untrack(table: Generations, service: ServiceId, uid: Uid): Generations {
    if service in table then table[service := table[service] - {uid}] else table
  }

  lemma TrackedAfter(table: Generations, service: ServiceId, uid: Uid, generation: int, service': ServiceId, uid': Uid)
    ensures Tracked(Track(table, service, uid, generation), service', uid') ==
      if service' == service && uid' == uid then Some(generation) else Tracked(table, service', uid')
    ensures Tracked(Untrack(table, service, uid), service', uid') ==
      if service' == service && uid' == uid then None else Tracked(table, service', uid')
    ensures Tracked(table - {service}, service', uid') == if service' == service then None else Tracked(table, service', uid')
  {
  }

  // The list shows a slice that is expected to be deleted or is older than the last write.
  ghost predicate Outdated(table: Generations, service: ServiceId, slices: seq<SliceVersion>) {
    exists i :: 0 <= i < |slices| && var g := Tracked(table, service, slices[i].uid);
      g.Some? && (g.value == DELETION_EXPECTED || g.value > slices[i].generation)
  }

  // The list lacks a slice that has been written.
  ghost predicate Missing(table: Generations, service: ServiceId, slices: seq<SliceVersion>) {
    exists uid :: var g := Tracked(table, service, uid);
      g.Some? && g.value != DELETION_EXPECTED && forall i :: 0 <= i < |slices| ==> slices[i].uid != uid
  }

  class EndpointSliceTracker {
    var generationsByService: Generations

    constructor ()
      ensures generationsByService == map[]
    {
      generationsByService := map[];
    }

    method Has(s: SliceVersion) returns (has: bool)
      ensures has <==> Tracked(generationsByService, s.service, s.uid).Some?
    {
      has := s.service in generationsByService && s.uid in generationsByService[s.service];
    }

    method Update(s: SliceVersion)
      modifies this
      ensures generationsByService == Track(old(generationsByService), s.service, s.uid, s.generation)
    {
      if s.service !in generationsByService {
        generationsByService := generationsByService[s.service := map[]];
      }
      generationsByService := generationsByService[s.service := generationsByService[s.service][s.uid := s.generation]];
    }

    method ExpectDeletion(s: SliceVersion)
      modifies this
      ensures generationsByService == Track(old(generationsByService), s.service, s.uid, DELETION_EXPECTED)
    {
      if s.service !in generationsByService {
        generationsByService := generationsByService[s.service := map[]];
      }
      generationsByService := generationsByService[s.service := generationsByService[s.service][s.uid := DELETION_EXPECTED]];
    }

    // Returns false exactly if the slice was tracked and not expected to be deleted.
    method HandleDeletion(s: SliceVersion) returns (expected: bool)
      modifies this
      ensures generationsByService == Untrack(old(generationsByService), s.service, s.uid)
      ensures expected <==> Tracked(old(generationsByService), s.service, s.uid) in {None, Some(DELETION_EXPECTED)}
    {
      expected := true;
      if s.service in generationsByService {
        var gfs := generationsByService[s.service];
        generationsByService := generationsByService[s.service := gfs - {s.uid}];
        if s.uid in gfs && gfs[s.uid] != DELETION_EXPECTED {
          expected := false;
        }
      }
    }

    method DeleteService(service: ServiceId)
      modifies this
      ensures generationsByService == old(generationsByService) - {service}
    {
      generationsByService := generationsByService - {service};
    }

    method StaleSlices(service: ServiceId, slices: seq<SliceVersion>) returns (stale: bool)
      ensures stale <==> Outdated(generationsByService, service, slices) || Missing(generationsByService, service, slices)
    {
      if service !in generationsByService {
        return false;
      }
      var gfs := generationsByService[service];
      var provided: set<Uid> := {};
      for i := 0 to |slices|
        invariant forall u :: u in provided <==> exists j :: 0 <= j < i && slices[j].uid == u
        invariant !Outdated(generationsByService, service, slices[..i])
      {
        var s := slices[i];
        provided := provided + {s.uid};
        assert Tracked(generationsByService, service, slices[i].uid) == if s.uid in gfs then Some(gfs[s.uid]) else None;
        if s.uid in gfs && (gfs[s.uid] == DELETION_EXPECTED || gfs[s.uid] > s.generation) {
          return true;
        }
        assert slices[..i + 1] == slices[..i] + [s];
      }
      assert slices[..|slices|] == slices;
      var rest := gfs.Keys;
      while rest != {}
        invariant rest <= gfs.Keys
        invariant forall u :: u in gfs && u !in rest ==> gfs[u] == DELETION_EXPECTED || u in provided
        decreases rest
      {
        var uid :| uid in rest;
        if gfs[uid] != DELETION_EXPECTED && uid !in provided {
          assert Tracked(generationsByService, service, uid) == Some(gfs[uid]);
          return true;
        }
        rest := rest - {uid};
      }
      stale := false;
    }
  }

  /* Runs with a lagging informer */

  // `table` is the tracker's, `view` the informer's store. `gone` are the slices the store has dropped, `handled`
  // those whose deletion the informer's handler has been told of. `asked` are all deletions the controller asked for.
  datatype World = World(
    table: Generations,
    view: map<Uid, SliceVersion>,
    gone: set<Uid>,
    handled: set<Uid>,
    asked: set<(ServiceId, Uid)>)

  // The controller tells the tracker after its call to the server has returned. By then the informer may or may not
  // have shown the result, so the server's own steps do not appear.
  datatype Event =
    | Write(s: SliceVersion)           // the tracker is told that a slice was created or updated
    | AskDelete(s: SliceVersion)       // the tracker is told that a slice was asked to be deleted
    | Deliver(s: SliceVersion)         // the informer's store gets a version of a slice
    | DeliverDeletion(uid: Uid)        // the informer's store drops a slice
    | HandleDeletion(s: SliceVersion)  // the informer's handler is told that a slice was dropped
    | Forget(service: ServiceId)       // the controller saw that the service is gone

  // A slice is not written for a service that had it deleted, and the informer shows a slice's deletion last and
  // tells its handler of it at most once, afterwards.
  predicate Possible(w: World, e: Event) {
    match e
    case Write(s) => (s.service, s.uid) !in w.asked
    case Deliver(s) => s.uid !in w.gone
    case HandleDeletion(s) => s.uid in w.gone && s.uid !in w.handled
    case _ => true
  }

  function Next(w: World, e: Event): World {
    match e
    case Write(s) => w.(table := Track(w.table, s.service, s.uid, s.generation))
    case AskDelete(s) =>
      w.(table := Track(w.table, s.service, s.uid, DELETION_EXPECTED), asked := w.asked + {(s.service, s.uid)})
    case Deliver(s) => w.(view := w.view[s.uid := s])
    case DeliverDeletion(uid) => w.(view := w.view - {uid}, gone := w.gone + {uid})
    case HandleDeletion(s) =>
      w.(handled := w.handled + {s.uid},
         table := if s.managed && Tracked(w.table, s.service, s.uid).Some? then Untrack(w.table, s.service, s.uid) else w.table)
    case Forget(service) => w.(table := w.table - {service})
  }

  const START := World(map[], map[], {}, {}, {})

  function After(es: seq<Event>): World {
    if es == [] then START else Next(After(es[..|es| - 1]), es[|es| - 1])
  }

  ghost predicate Feasible(es: seq<Event>) {
    forall i :: 0 <= i < |es| ==> Possible(After(es[..i]), es[i])
  }

  lemma AfterStep(es: seq<Event>, n: nat)
    requires n < |es|
    ensures After(es[..n + 1]) == Next(After(es[..n]), es[n])
  {
    PrefixStep(es, n);
  }

  /* The table, told by the events */

  // A tracker call for the slice and service, and what it records.
  ghost predicate Tracks(e: Event, service: ServiceId, uid: Uid) {
    (e.Write? || e.AskDelete?) && e.s.service == service && e.s.uid == uid
  }

  function Recorded(e: Event): int
    requires e.Write? || e.AskDelete?
  {
    if e.Write? then e.s.generation else DELETION_EXPECTED
  }

  ghost predicate AsksFor(e: Event, service: ServiceId, uid: Uid) {
    e.AskDelete? && Tracks(e, service, uid)
  }

  // The handler finds the entry only under the service and manager that the version it is given names.
  ghost predicate Finds(e: Event, service: ServiceId, uid: Uid) {
    e.HandleDeletion? && e.s.uid == uid && e.s.managed && e.s.service == service
  }

  ghost predicate Drops(e: Event, service: ServiceId, uid: Uid) {
    e == Forget(service) || Finds(e, service, uid)
  }

  lemma EntryStep(w: World, e: Event, service: ServiceId, uid: Uid)
    ensures Tracked(Next(w, e).table, service, uid) ==
      if Tracks(e, service, uid) then Some(Recorded(e)) else if Drops(e, service, uid) then None else Tracked(w.table, service, uid)
  {
    match e
    case Write(s) => TrackedAfter(w.table, s.service, s.uid, s.generation, service, uid);
    case AskDelete(s) => TrackedAfter(w.table, s.service, s.uid, DELETION_EXPECTED, service, uid);
    case HandleDeletion(s) => TrackedAfter(w.table, s.service, s.uid, 0, service, uid);
    case Forget(other) => TrackedAfter(w.table, other, uid, 0, service, uid);
    case _ =>
  }

  ghost function EntryAt(es: seq<Event>, n: nat, service: ServiceId, uid: Uid): Option<int>
    requires n <= |es|
  {
    Tracked(After(es[..n]).table, service, uid)
  }

  lemma EntryNext(es: seq<Event>, n: nat, service: ServiceId, uid: Uid)
    requires n < |es|
    ensures EntryAt(es, n + 1, service, uid) ==
      if Tracks(es[n], service, uid) then Some(Recorded(es[n]))
      else if Drops(es[n], service, uid) then None else EntryAt(es, n, service, uid)
  {
    AfterStep(es, n);
    EntryStep(After(es[..n]), es[n], service, uid);
  }

  lemma NoEntryYet(es: seq<Event>, service: ServiceId, uid: Uid)
    ensures EntryAt(es, 0, service, uid) == None
  {
    assert es[..0] == [];
  }

  // Event i is the last tracker call for the slice before n, and nothing has dropped the entry since.
  ghost predicate Standing(es: seq<Event>, n: nat, service: ServiceId, uid: Uid, i: nat)
    requires n <= |es|
  {
    && i < n && Tracks(es[i], service, uid)
    && forall j :: i < j < n ==> !Tracks(es[j], service, uid) && !Drops(es[j], service, uid)
  }

  lemma {:induction false} StandingIsTracked(es: seq<Event>, n: nat, service: ServiceId, uid: Uid, i: nat)
    requires n <= |es| && Standing(es, n, service, uid, i)
    ensures EntryAt(es, n, service, uid) == Some(Recorded(es[i]))
  {
    EntryNext(es, n - 1, service, uid);
    if i < n - 1 {
      StandingIsTracked(es, n - 1, service, uid, i);
    }
  }

  lemma {:induction false} TrackedIsStanding(es: seq<Event>, n: nat, service: ServiceId, uid: Uid) returns (i: nat)
    requires n <= |es| && EntryAt(es, n, service, uid).Some?
    ensures Standing(es, n, service, uid, i)
  {
    NoEntryYet(es, service, uid);
    EntryNext(es, n - 1, service, uid);
    if Tracks(es[n - 1], service, uid) {
      i := n - 1;
    } else {
      i := TrackedIsStanding(es, n - 1, service, uid);
    }
  }

  // No entry of the slice is dropped from event i on.
  ghost predicate Undropped(es: seq<Event>, n: nat, service: ServiceId, uid: Uid, i: nat)
    requires n <= |es|
  {
    forall j :: i < j < n ==> !Drops(es[j], service, uid)
  }

  lemma {:induction false} CallIsTracked(es: seq<Event>, n: nat, service: ServiceId, uid: Uid, i: nat)
    requires i < n <= |es| && Tracks(es[i], service, uid) && Undropped(es, n, service, uid, i)
    ensures EntryAt(es, n, service, uid).Some?
  {
    EntryNext(es, n - 1, service, uid);
    if i < n - 1 {
      CallIsTracked(es, n - 1, service, uid, i);
    }
  }

  /* What a run shows, drops and asks stays shown, dropped and asked */

  lemma HistoryStep(es: seq<Event>, n: nat)
    requires n < |es|
    ensures After(es[..n]).gone <= After(es[..n + 1]).gone && After(es[..n]).handled <= After(es[..n + 1]).handled
    ensures After(es[..n]).asked <= After(es[..n + 1]).asked
  {
    AfterStep(es, n);
  }

  lemma {:induction false} HistoryGrows(es: seq<Event>, i: nat, n: nat)
    requires i <= n <= |es|
    ensures After(es[..i]).gone <= After(es[..n]).gone && After(es[..i]).handled <= After(es[..n]).handled
    ensures After(es[..i]).asked <= After(es[..n]).asked
  {
    if i < n {
      HistoryGrows(es, i, n - 1);
      HistoryStep(es, n - 1);
    }
  }

  lemma {:induction false} ViewIsNotGone(es: seq<Event>, n: nat)
    requires Feasible(es) && n <= |es|
    ensures After(es[..n]).view.Keys !! After(es[..n]).gone
  {
    if n == 0 {
      assert es[..0] == [];
    } else {
      ViewIsNotGone(es, n - 1);
      AfterStep(es, n - 1);
    }
  }

  lemma HandledIsGone(es: seq<Event>, h: nat, n: nat)
    requires Feasible(es) && h < n <= |es| && es[h].HandleDeletion?
    ensures es[h].s.uid in After(es[..n]).gone && es[h].s.uid in After(es[..n]).handled
  {
    AfterStep(es, h);
    HistoryGrows(es, h + 1, n);
  }

  lemma HandledOnce(es: seq<Event>, h: nat, h': nat)
    requires Feasible(es) && h < |es| && h' < |es| && es[h].HandleDeletion? && es[h'].HandleDeletion?
    requires es[h].s.uid == es[h'].s.uid
    ensures h == h'
  {
    if h < h' {
      HandledIsGone(es, h, h');
    } else if h' < h {
      HandledIsGone(es, h', h);
    }
  }

  lemma NotWrittenAfterAsking(es: seq<Event>, i: nat, j: nat, service: ServiceId, uid: Uid)
    requires Feasible(es) && i < j < |es| && AsksFor(es[i], service, uid)
    ensures es[j].Write? ==> !Tracks(es[j], service, uid)
  {
    AfterStep(es, i);
    HistoryGrows(es, i + 1, j);
  }

  /* Read your own writes */

  // What the lister returns for a service: slices the view has for it, without those marked for deletion.
  ghost predicate Lists(view: map<Uid, SliceVersion>, service: ServiceId, slices: seq<SliceVersion>) {
    && (forall i :: 0 <= i < |slices| ==> slices[i].uid in view && view[slices[i].uid] == slices[i])
    && (forall i :: 0 <= i < |slices| ==> slices[i].service == service && !slices[i].marked)
  }

  ghost predicate Listed(slices: seq<SliceVersion>, uid: Uid) {
    exists i :: 0 <= i < |slices| && slices[i].uid == uid
  }

  ghost predicate ListedFrom(slices: seq<SliceVersion>, uid: Uid, generation: int) {
    exists i :: 0 <= i < |slices| && slices[i].uid == uid && slices[i].generation >= generation
  }

  ghost predicate ListedBelow(slices: seq<SliceVersion>, uid: Uid, generation: int) {
    exists i :: 0 <= i < |slices| && slices[i].uid == uid && slices[i].generation < generation
  }

  ghost predicate Stale(es: seq<Event>, service: ServiceId, slices: seq<SliceVersion>) {
    Outdated(After(es).table, service, slices) || Missing(After(es).table, service, slices)
  }

  ghost predicate ForgottenAfter(es: seq<Event>, service: ServiceId, i: nat) {
    exists j :: i < j < |es| && es[j] == Forget(service)
  }

  ghost predicate FoundFrom(es: seq<Event>, service: ServiceId, uid: Uid, k: nat) {
    exists h :: k <= h < |es| && Finds(es[h], service, uid)
  }

  // In every run, for slices listed after k events and judged after all of them: if they are not stale, then a slice
  // that was ever asked to be deleted is listed only if the service was forgotten after each such request, or its
  // deletion was handled between listing and judging.
  lemma ReadYourOwnDeletions(es: seq<Event>, k: nat, service: ServiceId, slices: seq<SliceVersion>, m: nat, i: nat)
    requires Feasible(es) && k <= |es| && Lists(After(es[..k]).view, service, slices) && !Stale(es, service, slices)
    requires m < |slices| && i < |es| && AsksFor(es[i], service, slices[m].uid)
    ensures ForgottenAfter(es, service, i) || FoundFrom(es, service, slices[m].uid, k)
  {
    var uid := slices[m].uid;
    ExpectedIsAsked(es, service, uid);
    WholePrefix(es);
    assert Undropped(es, |es|, service, uid, i) ==> Tracked(After(es).table, service, uid) == Some(DELETION_EXPECTED);
    var j :| i < j < |es| && Drops(es[j], service, uid);
    if Finds(es[j], service, uid) && j < k {
      HandledIsGone(es, j, k);
      ViewIsNotGone(es, k);
      assert false;
    }
  }

  // The second exception is real: the slice goes while the controller holds its listing.
  lemma HandledMeanwhile(s: SliceVersion)
    requires s.managed && !s.marked
    ensures var es := [Deliver(s), AskDelete(s), DeliverDeletion(s.uid), HandleDeletion(s)];
      Feasible(es) && Lists(After(es[..2]).view, s.service, [s]) && !Stale(es, s.service, [s])
  {
    var es := [Deliver(s), AskDelete(s), DeliverDeletion(s.uid), HandleDeletion(s)];
    FourEvents(es);
    var table := After(es).table;
    assert table == map[s.service := map[]];
  }

  lemma FourEvents(es: seq<Event>)
    requires |es| == 4
    ensures After(es[..0]) == START && After(es[..1]) == Next(START, es[0])
    ensures After(es[..2]) == Next(After(es[..1]), es[1]) && After(es[..3]) == Next(After(es[..2]), es[2])
    ensures After(es) == Next(After(es[..3]), es[3])
  {
    assert es[..0] == [] && es[..4] == es;
    AfterStep(es, 0);
    AfterStep(es, 1);
    AfterStep(es, 2);
    AfterStep(es, 3);
  }

  // The tracker expects the deletion of exactly the slices asked to be deleted and neither forgotten nor found since.
  lemma ExpectedIsAsked(es: seq<Event>, service: ServiceId, uid: Uid)
    requires Feasible(es)
    ensures Tracked(After(es).table, service, uid) == Some(DELETION_EXPECTED) <==>
      exists i: nat :: i < |es| && AsksFor(es[i], service, uid) && Undropped(es, |es|, service, uid, i)
  {
    WholePrefix(es);
    if Tracked(After(es).table, service, uid) == Some(DELETION_EXPECTED) {
      var i := TrackedIsStanding(es, |es|, service, uid);
      StandingIsTracked(es, |es|, service, uid, i);
      assert AsksFor(es[i], service, uid) && Undropped(es, |es|, service, uid, i);
    }
    if i: nat :| i < |es| && AsksFor(es[i], service, uid) && Undropped(es, |es|, service, uid, i) {
      AskedIsExpected(es, service, uid, i);
    }
  }

  lemma AskedIsExpected(es: seq<Event>, service: ServiceId, uid: Uid, i: nat)
    requires Feasible(es) && i < |es| && AsksFor(es[i], service, uid) && Undropped(es, |es|, service, uid, i)
    ensures EntryAt(es, |es|, service, uid) == Some(DELETION_EXPECTED)
  {
    CallIsTracked(es, |es|, service, uid, i);
    var j := TrackedIsStanding(es, |es|, service, uid);
    StandingIsTracked(es, |es|, service, uid, j);
    if i < j {
      NotWrittenAfterAsking(es, i, j, service, uid);
    }
  }

  // And a slice last written is listed at least that new, unless the service was forgotten since or the slice's
  // deletion has been handled.
  lemma ReadYourOwnWrites(es: seq<Event>, service: ServiceId, slices: seq<SliceVersion>, uid: Uid, i: nat)
    requires Feasible(es) && !Stale(es, service, slices)
    requires i < |es| && es[i].Write? && Tracks(es[i], service, uid)
    requires forall j :: i < j < |es| ==> !Tracks(es[j], service, uid)
    ensures ListedFrom(slices, uid, es[i].s.generation) || ForgottenAfter(es, service, i) || FoundFrom(es, service, uid, i)
  {
    WholePrefix(es);
    if Undropped(es, |es|, service, uid, i) {
      StandingIsTracked(es, |es|, service, uid, i);
      assert Tracked(After(es).table, service, uid) == Some(es[i].s.generation);
    }
  }

  // A call that gives a stale verdict on the listing: a request to delete a listed slice, or a write of one that is
  // listed older or not at all.
  ghost predicate Telltale(e: Event, slices: seq<SliceVersion>)
    requires e.Write? || e.AskDelete?
  {
    if e.AskDelete? then Listed(slices, e.s.uid)
    else ListedBelow(slices, e.s.uid, e.s.generation) || !Listed(slices, e.s.uid)
  }

  // The verdict, told by the events: stale exactly if there is such a call, the last one for its slice, and neither
  // forgotten nor found by the handler since.
  lemma StaleForAReason(es: seq<Event>, service: ServiceId, slices: seq<SliceVersion>)
    ensures Stale(es, service, slices) <==>
      exists i: nat, uid :: Standing(es, |es|, service, uid, i) && Telltale(es[i], slices)
  {
    var table := After(es).table;
    WholePrefix(es);
    if Outdated(table, service, slices) {
      var k :| 0 <= k < |slices| && var g := Tracked(table, service, slices[k].uid);
        g.Some? && (g.value == DELETION_EXPECTED || g.value > slices[k].generation);
      TrackedIsTelltale(es, service, slices[k].uid, slices);
    }
    if Missing(table, service, slices) {
      var uid :| var g := Tracked(table, service, uid);
        g.Some? && g.value != DELETION_EXPECTED && forall k :: 0 <= k < |slices| ==> slices[k].uid != uid;
      TrackedIsTelltale(es, service, uid, slices);
    }
    if i: nat, uid :| Standing(es, |es|, service, uid, i) && Telltale(es[i], slices) {
      StandingIsTracked(es, |es|, service, uid, i);
    }
  }

  lemma TrackedIsTelltale(es: seq<Event>, service: ServiceId, uid: Uid, slices: seq<SliceVersion>)
    requires Tracked(After(es).table, service, uid).Some?
    requires var g := Tracked(After(es).table, service, uid).value;
      if g == DELETION_EXPECTED then Listed(slices, uid) else ListedBelow(slices, uid, g) || !Listed(slices, uid)
    ensures exists i: nat, uid :: Standing(es, |es|, service, uid, i) && Telltale(es[i], slices)
  {
    WholePrefix(es);
    var i := TrackedIsStanding(es, |es|, service, uid);
    StandingIsTracked(es, |es|, service, uid, i);
    assert Standing(es, |es|, service, uid, i) && Telltale(es[i], slices);
  }

  /* Entries that outlive their slices */

  // After the handler was told of the deletion of a slice, the tracker has an entry for it exactly if there was a
  // tracker call that came later, or that the handler overlooked because the version it was given names another
  // service or manager; in both cases until the service is forgotten.
  lemma OutlivesUntilForgotten(es: seq<Event>, h: nat, service: ServiceId)
    requires Feasible(es) && h < |es| && es[h].HandleDeletion?
    ensures es[h].s.uid in After(es).gone
    ensures Tracked(After(es).table, service, es[h].s.uid).Some? <==>
      exists i: nat :: i < |es| && Outlives(es, h, service, i)
  {
    var uid := es[h].s.uid;
    WholePrefix(es);
    HandledIsGone(es, h, |es|);
    if Tracked(After(es).table, service, uid).Some? {
      var i := TrackedIsStanding(es, |es|, service, uid);
      assert Outlives(es, h, service, i);
    }
    if i: nat :| i < |es| && Outlives(es, h, service, i) {
      forall j | i < j < |es| ensures !Drops(es[j], service, uid) {
        if Finds(es[j], service, uid) {
          HandledOnce(es, h, j);
        }
      }
      CallIsTracked(es, |es|, service, uid, i);
    }
  }

  ghost predicate Outlives(es: seq<Event>, h: nat, service: ServiceId, i: nat)
    requires h < |es| && i < |es| && es[h].HandleDeletion?
  {
    && Tracks(es[i], service, es[h].s.uid) && !ForgottenAfter(es, service, i)
    && (h < i || !Finds(es[h], service, es[h].s.uid))
  }

  // Such an entry of a written slice makes every listing stale.
  lemma OutlivingIsStale(es: seq<Event>, service: ServiceId, uid: Uid, slices: seq<SliceVersion>)
    requires Feasible(es) && Lists(After(es).view, service, slices) && uid in After(es).gone
    requires Tracked(After(es).table, service, uid).Some? && Tracked(After(es).table, service, uid).value != DELETION_EXPECTED
    ensures Missing(After(es).table, service, slices)
  {
    WholePrefix(es);
    ViewIsNotGone(es, |es|);
    assert forall i :: 0 <= i < |slices| ==> slices[i].uid != uid;
  }

  // Both happen: the version shown last has another manager, or the tracker is told of a write after somebody else's
  // deletion has been handled.
  lemma OutlivingExamples(s: SliceVersion)
    ensures var es := [Write(s), DeliverDeletion(s.uid), HandleDeletion(s.(managed := false))];
      Feasible(es) && Tracked(After(es).table, s.service, s.uid) == Some(s.generation)
    ensures var es := [DeliverDeletion(s.uid), HandleDeletion(s), Write(s)];
      Feasible(es) && Tracked(After(es).table, s.service, s.uid) == Some(s.generation)
  {
    ThreeEvents(Write(s), DeliverDeletion(s.uid), HandleDeletion(s.(managed := false)));
    ThreeEvents(DeliverDeletion(s.uid), HandleDeletion(s), Write(s));
  }

  lemma ThreeEvents(d: Event, e: Event, f: Event)
    ensures After([d, e, f]) == Next(Next(Next(START, d), e), f)
    ensures Possible(START, d) && Possible(Next(START, d), e) && Possible(Next(Next(START, d), e), f) ==> Feasible([d, e, f])
  {
    var es := [d, e, f];
    assert es[..0] == [] && es[..1] == [d] && es[..2] == [d, e] && es[..3] == es;
    AfterStep(es, 0);
    AfterStep(es, 1);
    AfterStep(es, 2);
  }

  /* Forgetting a service */

  // Forgetting a service also forgets what was asked: a slice that was asked to be deleted and is still
  // in view goes unnoticed from then on.
  lemma ForgettingHides(es: seq<Event>, service: ServiceId, slices: seq<SliceVersion>, m: nat, i: nat)
    requires Feasible(es) && Lists(After(es).view, service, slices) && m < |slices|
    requires i < |es| && AsksFor(es[i], service, slices[m].uid) && !ForgottenAfter(es, service, i)
    ensures Stale(es, service, slices)
    ensures var es' := es + [Forget(service)];
      Feasible(es') && Lists(After(es').view, service, slices) && !Stale(es', service, slices)
  {
    AskedIsStale(es, service, slices, m, i);
    ForgettingIsPossible(es, service);
    ForgottenIsFresh(After(es).table, service, slices);
  }

  lemma AskedIsStale(es: seq<Event>, service: ServiceId, slices: seq<SliceVersion>, m: nat, i: nat)
    requires Feasible(es) && Lists(After(es).view, service, slices) && m < |slices|
    requires i < |es| && AsksFor(es[i], service, slices[m].uid) && !ForgottenAfter(es, service, i)
    ensures Stale(es, service, slices)
  {
    WholePrefix(es);
    if !Stale(es, service, slices) {
      ReadYourOwnDeletions(es, |es|, service, slices, m, i);
    }
  }

  lemma ForgottenIsFresh(table: Generations, service: ServiceId, slices: seq<SliceVersion>)
    ensures !Outdated(table - {service}, service, slices) && !Missing(table - {service}, service, slices)
  {
  }

  lemma ForgettingIsPossible(es: seq<Event>, service: ServiceId)
    requires Feasible(es)
    ensures var es' := es + [Forget(service)];
      Feasible(es') && After(es').view == After(es).view && After(es').table == After(es).table - {service}
  {
    var es' := es + [Forget(service)];
    assert es'[..|es|] == es;
    forall j | 0 <= j < |es'| ensures Possible(After(es'[..j]), es'[j]) {
      if j < |es| {
        assert es'[..j] == es[..j];
      }
    }
  }

  // A run to which this applies: a slice is seen, then its deletion is asked for.
  lemma ForgettingExample(s: SliceVersion)
    requires !s.marked
    ensures var es := [Deliver(s), AskDelete(s)];
      && Feasible(es) && Lists(After(es).view, s.service, [s])
      && AsksFor(es[1], s.service, s.uid) && !ForgottenAfter(es, s.service, 1)
  {
    var es := [Deliver(s), AskDelete(s)];
    assert es[..0] == [] && es[..1] == [Deliver(s)] && es[..2] == es;
    AfterStep(es, 0);
    AfterStep(es, 1);
  }
}
