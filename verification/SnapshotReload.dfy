/** Saving a ledger as a snapshot and loading it again. */
module SnapshotReload {
  import opened LedgerIndexes
  import opened LedgerInvariants
  import opened LedgerModel
  import opened LedgerRuns
  import opened Results
  import opened Retention
  import opened Sorting
  import opened Strings

  datatype Snapshot = Snapshot(schema: int, events: seq<Event>, heads: seq<string>, anchors: seq<Anchor>)

  /** The events oldest first and the heads in order. */
  ghost function SnapshotOf(s: LState): (r: Snapshot) {
    var ids := SortedSet(s.events.Keys, OlderFirst(s.events));
    assert forall k | 0 <= k < |ids| :: ids[k] in Elements(ids);
    Snapshot(SCHEMA_V1, seq(|ids|, k requires 0 <= k < |ids| => s.events[ids[k]]), SortedSet(s.heads, Less), s.anchors)
  }

  /** Adds events in order and stops at the first refusal. */
  function LoadAll(env: Env, s: LState, es: seq<Event>): (r: (LState, Option<Refusal>)) {
    if es == [] then (s, None)
    else
      var (t, refusal) := LoadAll(env, s, es[..|es| - 1]);
      if refusal.Some? then (t, refusal) else AddEvent(env, t, es[|es| - 1])
  }

  ghost function Load(env: Env, snap: Snapshot): (r: Result<LState, Refusal>) {
    if snap.schema != 0 && snap.schema != SCHEMA_V1 then Err(Rejected(Malformed))
    else
      var (s, refusal) := LoadAll(env, EMPTY, snap.events);
      if refusal.Some? then Err(refusal.value)
      else
        var known := set h | h in snap.heads && h != "" && h in s.events;
        var heads := if snap.heads == [] then s.heads else if known == {} then RecomputedHeads(s.events) else known;
        Ok(s.(heads := heads, anchors := if snap.anchors == [] then s.anchors else snap.anchors))
  }

  // ---------------------------------------------------------------- loading compatible events

  ghost predicate Loadable(env: Env, evs: set<Event>) {
    LinkConsistent(evs) && forall ev | ev in evs :: Validates(env, ev)
  }

  lemma AddCompatible(env: Env, s: LState, evs: set<Event>, ev: Event)
    requires Exact(env, s) && HeadsBetween(s) && Within(s, evs) && Loadable(env, evs) && ev in evs
    ensures var (t, refusal) := AddEvent(env, s, ev);
      refusal == None && Exact(env, t) && HeadsBetween(t) && Within(t, evs) && t.events == s.events[ev.id := ev]
          && t.anchors == s.anchors
  {
    hide MissingExact, MarksExact, AuthorComplete, Conflicts, LinkFault, Refs, MarkOf, Track, Heads, WellFormed,
        Genuine;
    if ev.id in s.events {
      IdentifierDecides(evs, s.events[ev.id], ev);
    } else {
      NoConflictWithin(s, evs, ev);
      StoredExact(env, s, ev);
      StoredHeads(env, s, ev);
    }
  }

  lemma {:induction false} LoadCompatible(env: Env, evs: set<Event>, es: seq<Event>)
    requires Loadable(env, evs) && forall ev | ev in es :: ev in evs
    ensures var (t, refusal) := LoadAll(env, EMPTY, es);
      && refusal == None && Exact(env, t) && HeadsBetween(t) && Within(t, evs) && t.anchors == []
      && forall ev | ev in es :: ev.id in t.events
  {
    hide Exact, HeadsBetween, Loadable, AddEvent;
    if es == [] {
      EmptyExact(env);
      EmptyHeads();
    } else {
      var init, last := es[..|es| - 1], es[|es| - 1];
      LoadCompatible(env, evs, init);
      AddCompatible(env, LoadAll(env, EMPTY, init).0, evs, last);
      assert forall ev | ev in es :: ev in init || ev == last;
    }
  }

  lemma EmptyHeads()
    ensures HeadsBetween(EMPTY)
  {
  }

  // ---------------------------------------------------------------- acyclic references have heads

  ghost predicate Ranked(events: map<string, Event>, rank: map<string, nat>) {
    && events.Keys <= rank.Keys
    && forall id, ref | id in events && ref in events && ref in HeadRefs(events[id]) :: rank[ref] < rank[id]
  }

  ghost predicate Acyclic(events: map<string, Event>) {
    exists rank: map<string, nat> :: Ranked(events, rank)
  }

  /** Among acyclic events, a head-affecting one of highest rank is a head. */
  lemma AcyclicHasHead(events: map<string, Event>, id: string)
    requires Acyclic(events) && id in events && AffectsHeads(events[id].kind)
    ensures RecomputedHeads(events) != {}
  {
    hide AffectsHeads, HeadRefs;
    var rank: map<string, nat> :| Ranked(events, rank);
    var affecting := set x | x in events && AffectsHeads(events[x].kind);
    var ranks := set x | x in affecting :: rank[x];
    assert rank[id] in ranks;
    var top :| top in affecting && rank[top] == MaxOf(ranks);
    forall other | other in events && AffectsHeads(events[other].kind)
      ensures top !in HeadRefs(events[other])
    {
      assert other in affecting && rank[other] in ranks;
      assert rank[other] <= MaxOf(ranks);
    }
    assert top in RecomputedHeads(events);
  }

  // ---------------------------------------------------------------- the round trip

  /**
   * Loading the snapshot of a sound ledger whose events are conflict-free, link-consistent and acyclic
   * succeeds and restores events, heads and anchors, with every index exact for those events.
   */
  lemma ReloadRestores(env: Env, s: LState)
    requires Sound(env, s) && LinkConsistent(s.events.Values) && Acyclic(s.events)
    ensures var r := Load(env, SnapshotOf(s));
      r.Ok? && r.value.events == s.events && r.value.heads == s.heads && r.value.anchors == s.anchors
          && Exact(env, r.value)
  {
    hide Exact, HeadsBetween, LoadAll, Load, Sound, Acyclic, LinkConsistent, SnapshotOf, Within, Loadable;
    var snap, evs := SnapshotOf(s), s.events.Values;
    SnapshotEvents(s, snap);
    SnapshotFields(s);
    LoadableValues(env, s);
    LoadCompatible(env, evs, snap.events);
    var t := LoadAll(env, EMPTY, snap.events).0;
    LoadedSame(env, s, t);
    ReloadedHeads(env, s, t);
    LoadResult(env, s, snap, t);
    ReheadedExact(env, t, Load(env, snap).value);
  }

  lemma SnapshotFields(s: LState)
    ensures SnapshotOf(s).schema == SCHEMA_V1 && SnapshotOf(s).anchors == s.anchors
  {
  }

  lemma LoadResult(env: Env, s: LState, snap: Snapshot, t: LState)
    requires snap.schema == SCHEMA_V1 && snap.anchors == s.anchors && LoadAll(env, EMPTY, snap.events) == (t, None)
    requires (forall h :: h in snap.heads <==> h in s.heads) && (snap.heads == [] <==> s.heads == {})
    requires (s.heads == {} ==> t.heads == {}) && (set h | h in s.heads && h != "" && h in t.events) == s.heads
    requires t.anchors == []
    ensures Load(env, snap) == Ok(t.(heads := s.heads, anchors := s.anchors))
  {
    hide LoadAll, RecomputedHeads;
    var known := set h | h in snap.heads && h != "" && h in t.events;
    assert known == s.heads;
  }

  lemma SnapshotEvents(s: LState, snap: Snapshot)
    requires snap == SnapshotOf(s)
    ensures forall ev :: ev in snap.events <==> ev in s.events.Values
    ensures forall h :: h in snap.heads <==> h in s.heads
    ensures snap.heads == [] <==> s.heads == {}
  {
    hide OlderFirst, SortedSet;
    SortedValues(s.events, SortedSet(s.events.Keys, OlderFirst(s.events)), snap.events);
    forall h ensures h in snap.heads <==> h in s.heads {
      assert h in Elements(snap.heads) <==> h in s.heads;
    }
  }

  lemma SortedValues(events: map<string, Event>, ids: seq<string>, listed: seq<Event>)
    requires Elements(ids) == events.Keys && |listed| == |ids|
    requires forall k | 0 <= k < |ids| :: ids[k] in events && listed[k] == events[ids[k]]
    ensures forall ev :: ev in listed <==> ev in events.Values
  {
    forall ev | ev in events.Values ensures ev in listed {
      var id :| id in events && events[id] == ev;
      assert id in Elements(ids);
      var k :| 0 <= k < |ids| && ids[k] == id;
      assert listed[k] == ev;
    }
  }

  lemma LoadableValues(env: Env, s: LState)
    requires Sound(env, s) && LinkConsistent(s.events.Values)
    ensures Loadable(env, s.events.Values)
  {
    hide WellFormed, Genuine, MarksSound, MissingSound, AuthorSound, HeadsBetween, LinkConsistent;
  }

  lemma LoadedSame(env: Env, s: LState, t: LState)
    requires Sound(env, s) && LinkConsistent(s.events.Values) && Exact(env, t) && Within(t, s.events.Values)
    requires forall ev | ev in s.events.Values :: ev.id in t.events
    ensures t.events == s.events
  {
    hide MarksSound, MissingSound, AuthorSound, HeadsBetween, MissingExact, MarksExact, AuthorComplete, AllValid;
    forall id | id in s.events ensures id in t.events && t.events[id] == s.events[id] {
      assert s.events[id] in s.events.Values;
      IdentifierDecides(s.events.Values, t.events[id], s.events[id]);
    }
    forall id | id in t.events ensures id in s.events {
      assert t.events[id] in s.events.Values;
      var x :| x in s.events && s.events[x] == t.events[id];
    }
  }

  lemma ReloadedHeads(env: Env, s: LState, t: LState)
    requires Sound(env, s) && Acyclic(s.events) && t.events == s.events && HeadsBetween(t)
    ensures s.heads == {} ==> t.heads == {}
    ensures (set h | h in s.heads && h != "" && h in t.events) == s.heads
  {
    hide AffectsHeads, HeadRefs, MarksSound, MissingSound, AuthorSound, TrimSpace, Genuine, Acyclic, RecomputedHeads;
    if s.heads == {} && t.heads != {} {
      var h :| h in t.heads;
      AcyclicHasHead(s.events, h);
      assert false;
    }
    forall h | h in s.heads ensures h != "" && h in t.events {
      assert Validates(env, s.events[h]) && s.events[h].id == h;
      EmptyTrims();
    }
  }

  lemma EmptyTrims()
    ensures TrimSpace("") == ""
  {
  }

  lemma ReheadedExact(env: Env, t: LState, u: LState)
    requires Exact(env, t) && u == t.(heads := u.heads, anchors := u.anchors)
    ensures Exact(env, u)
  {
    hide RefCount, MarkOf;
    forall x: string ensures MissingExactAt(env, u, x) {
      assert MissingExactAt(env, t, x);
    }
  }

  // ---------------------------------------------------------------- restarting from a snapshot

  /** Additions that were not refused leave a sound ledger with exact indexes that holds what was added. */
  lemma AddedKeeps(env: Env, s: LState, evs: set<Event>, ev: Event)
    requires Sound(env, s) && Exact(env, s) && Within(s, evs) && ev in evs && AddEvent(env, s, ev).1 == None
    ensures var t := AddEvent(env, s, ev).0;
      && Sound(env, t) && Exact(env, t) && Within(t, evs) && ev.id in t.events && s.events.Keys <= t.events.Keys
      && t.compromised == s.compromised && t.anchors == s.anchors
  {
    hide Sound, Exact, Conflicts, LinkFault, Validates, Refs, MarkOf, Track, Heads;
    if ev.id !in s.events {
      StoredSound(env, s, ev);
      StoredExact(env, s, ev);
    }
  }

  lemma {:induction false} LoadedKeeps(env: Env, evs: set<Event>, es: seq<Event>)
    requires LoadAll(env, EMPTY, es).1 == None && forall ev | ev in es :: ev in evs
    ensures var t := LoadAll(env, EMPTY, es).0;
      && Sound(env, t) && Exact(env, t) && Within(t, evs) && t.compromised == {} && t.anchors == []
      && forall ev | ev in es :: ev.id in t.events
  {
    hide Sound, Exact, AddEvent;
    if es == [] {
      EmptyStart(env);
    } else {
      var init, last := es[..|es| - 1], es[|es| - 1];
      LoadedKeeps(env, evs, init);
      AddedKeeps(env, LoadAll(env, EMPTY, init).0, evs, last);
      assert forall ev | ev in es :: ev in init || ev == last;
    }
  }

  /** A sound ledger names each event by its own identifier, so it agrees with what was loaded from it. */
  lemma LoadedEvents(env: Env, s: LState, t: LState)
    requires Sound(env, s) && Exact(env, t) && Within(t, s.events.Values)
    requires forall ev | ev in s.events.Values :: ev.id in t.events
    ensures t.events == s.events
  {
    hide MarksSound, MissingSound, AuthorSound, HeadsBetween, MissingExact, MarksExact, AuthorComplete, AllValid;
    forall id | id in s.events ensures id in t.events {
      assert s.events[id] in s.events.Values;
    }
    forall id | id in t.events ensures id in s.events && t.events[id] == s.events[id] {
      assert t.events[id] in s.events.Values;
      var x :| x in s.events && s.events[x] == t.events[id];
    }
  }

  /**
   * Whatever snapshot loads, an own or a foreign one: the ledger holds listed events only, one for each listed
   * identifier, all valid, with exact indexes and no compromised key. Listed heads that are stored become the heads,
   * whatever their kind; a list of strangers is replaced by the recomputed heads, and without a list the heads are
   * those of adding the events.
   */
  lemma AnySnapshotLoads(env: Env, snap: Snapshot)
    requires Load(env, snap).Ok?
    ensures var r := Load(env, snap).value;
      var known := set h | h in snap.heads && h != "" && h in r.events;
      && Exact(env, r) && r.compromised == {} && r.anchors == snap.anchors
      && (forall ev | ev in snap.events :: ev.id in r.events)
      && (forall id | id in r.events :: r.events[id] in snap.events && Validates(env, r.events[id]))
      && (snap.heads == [] ==> HeadsBetween(r))
      && (snap.heads != [] ==> r.heads == if known == {} then RecomputedHeads(r.events) else known)
  {
    hide LoadAll, Exact, Sound, HeadsBetween, RecomputedHeads, Validates, Within;
    var evs := set ev | ev in snap.events;
    LoadedKeeps(env, evs, snap.events);
    var t, r := LoadAll(env, EMPTY, snap.events).0, Load(env, snap).value;
    ReheadedExact(env, t, r);
    HeadsOfSound(env, t);
    LoadedAreListed(env, t, snap.events);
    if snap.heads == [] {
      SameHeadsBetween(t, r);
    }
  }

  lemma SameHeadsBetween(t: LState, r: LState)
    requires HeadsBetween(t) && r.heads == t.heads && r.events == t.events
    ensures HeadsBetween(r)
  {
    hide RecomputedHeads, AffectsHeads;
  }

  lemma HeadsOfSound(env: Env, s: LState)
    requires Sound(env, s)
    ensures HeadsBetween(s)
  {
    hide MarksSound, MissingSound, AuthorSound, AllValid, Keyed, RecomputedHeads;
  }

  lemma LoadedAreListed(env: Env, t: LState, es: seq<Event>)
    requires Sound(env, t) && Within(t, set ev | ev in es) && forall ev | ev in es :: ev.id in t.events
    ensures forall id | id in t.events :: t.events[id] in es && Validates(env, t.events[id])
  {
    hide MarksSound, MissingSound, AuthorSound, HeadsBetween, Validates;
  }

  // ---------------------------------------------------------------- when reloading works

  /** The link of an event fits, if its previous event is stored and sorts before it. */
  ghost predicate OldLinkFits(s: LState, id: string)
    requires id in s.events
  {
    var ev := s.events[id];
    ev.seqNo > 1 && ev.prev in s.events && OlderFirst(s.events)(ev.prev, id) ==>
      s.events[ev.prev].author == ev.author && (s.events[ev.prev].seqNo + 1) % TWO_64 == ev.seqNo
  }

  ghost predicate OldLinksFit(s: LState) {
    forall id | id in s.events :: OldLinkFits(s, id)
  }

  /** A refusal inside a list of events is the result of loading the list. */
  lemma {:induction false} LoadStops(env: Env, es: seq<Event>, i: nat, refusal: Option<Refusal>)
    requires i <= |es| && refusal.Some? && LoadAll(env, EMPTY, es[..i]).1 == refusal
    ensures LoadAll(env, EMPTY, es).1 == refusal
  {
    hide AddEvent;
    if i < |es| {
      assert es[..|es| - 1][..i] == es[..i];
      LoadStops(env, es[..|es| - 1], i, refusal);
    } else {
      assert es[..i] == es;
    }
  }

  /** The identifiers of a snapshot, oldest first, and the events they name. */
  ghost predicate Listing(s: LState, ids: seq<string>, es: seq<Event>) {
    && ids == SortedSet(s.events.Keys, OlderFirst(s.events)) && |es| == |ids|
    && forall k | 0 <= k < |ids| :: ids[k] in s.events && es[k] == s.events[ids[k]]
  }

  lemma SnapshotListing(s: LState)
    ensures Listing(s, SortedSet(s.events.Keys, OlderFirst(s.events)), SnapshotOf(s).events)
  {
    hide SortedSet, OlderFirst, Distinct;
    var ids := SortedSet(s.events.Keys, OlderFirst(s.events));
    assert forall k | 0 <= k < |ids| :: ids[k] in Elements(ids);
  }

  lemma ListingFacts(s: LState, ids: seq<string>, es: seq<Event>)
    requires Listing(s, ids, es)
    ensures Distinct(ids) && Elements(ids) == s.events.Keys && Ordered(ids, OlderFirst(s.events))
  {
    hide OlderFirst, WeakOrder;
    OlderFirstIsOrder(s.events);
    SortedSetOrdered(s.events.Keys, OlderFirst(s.events));
  }

  /** In a listing, what precedes an event is exactly what sorts before it. */
  lemma PrecedingIsOlder(s: LState, ids: seq<string>, es: seq<Event>, k: nat, id: string)
    requires Listing(s, ids, es) && k < |ids|
    ensures id in ids[..k] <==> id in s.events && OlderFirst(s.events)(id, ids[k])
  {
    hide OlderFirst, WeakOrder, SortedSet, TotalOn, Distinct, Ordered;
    ListingFacts(s, ids, es);
    if id in ids[..k] {
      var i :| 0 <= i < k && ids[i] == id;
      EarlierIsOlder(s, ids, i, k);
    }
    if id in s.events && OlderFirst(s.events)(id, ids[k]) {
      assert id in Elements(ids);
      var i :| 0 <= i < |ids| && ids[i] == id;
      OlderIsEarlier(s, ids, i, k);
      assert ids[..k][i] == id;
    }
  }

  lemma EarlierIsOlder(s: LState, ids: seq<string>, i: nat, k: nat)
    requires Distinct(ids) && Elements(ids) == s.events.Keys && Ordered(ids, OlderFirst(s.events)) && i < k < |ids|
    ensures ids[i] in s.events && OlderFirst(s.events)(ids[i], ids[k])
  {
    hide OlderFirst;
    assert ids[i] in Elements(ids) && ids[k] in Elements(ids);
    TotalPair(s.events, ids[i], ids[k]);
  }

  lemma OlderIsEarlier(s: LState, ids: seq<string>, i: nat, k: nat)
    requires Ordered(ids, OlderFirst(s.events)) && i < |ids| && k < |ids| && OlderFirst(s.events)(ids[i], ids[k])
    ensures i < k
  {
    hide OlderFirst, WeakOrder;
    OlderFirstIsOrder(s.events);
    OrderLaws(OlderFirst(s.events), ids[k], ids[i], ids[k]);
  }

  /** What an accepted prefix of a listing leaves. */
  lemma PrefixLoaded(env: Env, s: LState, ids: seq<string>, es: seq<Event>, k: nat)
    requires Sound(env, s) && Listing(s, ids, es) && k <= |ids| && LoadAll(env, EMPTY, es[..k]).1 == None
    ensures var t := LoadAll(env, EMPTY, es[..k]).0;
      && Exact(env, t) && (forall id :: id in t.events <==> id in ids[..k])
      && forall id | id in t.events :: id in s.events && t.events[id] == s.events[id]
  {
    hide LoadAll, Exact, Sound, Listing, Keyed, AuthorSound, AuthorComplete, Within;
    ListingShape(s, ids, es);
    var t, evs := LoadAll(env, EMPTY, es[..k]).0, set ev | ev in es[..k];
    LoadedKeeps(env, evs, es[..k]);
    ExactIsKeyed(env, t);
    SoundIsKeyed(env, s);
    PrefixHeld(s, ids, es, k, t);
  }

  lemma PrefixHeld(s: LState, ids: seq<string>, es: seq<Event>, k: nat, t: LState)
    requires Keyed(s.events) && Keyed(t.events) && |es| == |ids| && k <= |ids|
    requires forall i | 0 <= i < |ids| :: ids[i] in s.events && es[i] == s.events[ids[i]]
    requires Within(t, set ev | ev in es[..k]) && forall ev | ev in es[..k] :: ev.id in t.events
    ensures forall id :: id in t.events <==> id in ids[..k]
    ensures forall id | id in t.events :: id in s.events && t.events[id] == s.events[id]
  {
    forall i | 0 <= i < k ensures ids[i] in t.events {
      assert es[..k][i] == es[i] && es[i] in es[..k];
    }
    forall id | id in t.events ensures id in ids[..k] && id in s.events && t.events[id] == s.events[id] {
      assert t.events[id] in es[..k];
      var i :| 0 <= i < k && es[..k][i] == t.events[id];
      assert es[i] == s.events[ids[i]] && ids[..k][i] == ids[i];
    }
  }

  lemma ExactIsKeyed(env: Env, t: LState)
    requires Exact(env, t)
    ensures Keyed(t.events) && AuthorSound(t) && AuthorComplete(t)
  {
    hide MissingExact, MarksExact;
  }

  lemma SoundIsKeyed(env: Env, s: LState)
    requires Sound(env, s)
    ensures Keyed(s.events) && AllValid(env, s)
  {
    hide MarksSound, MissingSound, AuthorSound, HeadsBetween;
  }

  /** The event at position `k` has the author and number of an earlier one. */
  ghost predicate HasTwin(es: seq<Event>, k: int) {
    exists j :: 0 <= j < k < |es| && es[j].author == es[k].author && es[j].seqNo == es[k].seqNo
  }

  /** The next event of a listing is accepted exactly if it has no twin before it and its link fits. */
  lemma NextLoads(env: Env, s: LState, ids: seq<string>, es: seq<Event>, k: nat)
    requires Sound(env, s) && Listing(s, ids, es) && k < |ids| && LoadAll(env, EMPTY, es[..k]).1 == None
    ensures AddEvent(env, LoadAll(env, EMPTY, es[..k]).0, es[k]).1 == None
            <==> !HasTwin(es, k) && OldLinkFits(s, ids[k])
  {
    hide LoadAll, Exact, Sound, SortedSet, OlderFirst, HasTwin, Stored, Validates, Conflicts, Listing,
      Keyed, Distinct, Ordered, AllValid;
    ListingShape(s, ids, es);
    var t, ev := LoadAll(env, EMPTY, es[..k]).0, es[k];
    PrefixLoaded(env, s, ids, es, k);
    ListingFacts(s, ids, es);
    SoundIsKeyed(env, s);
    ListedIsValid(env, s, ids[k]);
    NotYet(ids, k);
    TwinsConflict(env, s, t, ids, es, k);
    if ev.prev in s.events {
      PrecedingIsOlder(s, ids, es, k, ev.prev);
    }
  }

  lemma ListedIsValid(env: Env, s: LState, id: string)
    requires Keyed(s.events) && AllValid(env, s) && id in s.events
    ensures s.events[id].id == id && Validates(env, s.events[id])
  {
    hide Validates;
  }

  lemma NotYet(ids: seq<string>, k: nat)
    requires Distinct(ids) && k < |ids|
    ensures ids[k] !in ids[..k]
  {
  }

  lemma TwinsConflict(env: Env, s: LState, t: LState, ids: seq<string>, es: seq<Event>, k: nat)
    requires Exact(env, t) && Listing(s, ids, es) && k < |ids| && Distinct(ids) && es[k].id == ids[k]
    requires forall id :: id in t.events <==> id in ids[..k]
    requires forall id | id in t.events :: id in s.events && t.events[id] == s.events[id]
    ensures Conflicts(t, es[k]) <==> HasTwin(es, k)
  {
    hide Exact, Listing, HasTwin, Conflicts, Keyed, AuthorSound, AuthorComplete, Distinct;
    ListingShape(s, ids, es);
    ExactIsKeyed(env, t);
    if HasTwin(es, k) {
      var j := TwinOf(es, k);
      assert ids[..k][j] == ids[j];
      DistinctPair(ids, j, k);
      TwinIsIndexed(t, ids[j], es[k]);
    }
    if Conflicts(t, es[k]) {
      var id := ConflictIsStored(t, es[k]);
      var j :| 0 <= j < k && ids[..k][j] == id;
      assert es[j] == t.events[id];
      TwinAt(es, j, k);
    }
  }

  lemma DistinctPair(ids: seq<string>, j: nat, k: nat)
    requires Distinct(ids) && j < k < |ids|
    ensures ids[j] != ids[k]
  {
  }

  lemma TwinIsIndexed(t: LState, id: string, ev: Event)
    requires AuthorComplete(t) && id in t.events && id != ev.id
    requires t.events[id].author == ev.author && t.events[id].seqNo == ev.seqNo
    ensures Conflicts(t, ev)
  {
  }

  lemma ConflictIsStored(t: LState, ev: Event) returns (id: string)
    requires AuthorSound(t) && Conflicts(t, ev)
    ensures id in t.events && t.events[id].author == ev.author && t.events[id].seqNo == ev.seqNo
  {
    id := t.authorSeq[(ev.author, ev.seqNo as nat)];
  }

  lemma TwinAt(es: seq<Event>, j: nat, k: nat)
    requires j < k < |es| && es[j].author == es[k].author && es[j].seqNo == es[k].seqNo
    ensures HasTwin(es, k)
  {
  }

  lemma {:induction false} PrefixLoadsIff(env: Env, s: LState, ids: seq<string>, es: seq<Event>, k: nat)
    requires Sound(env, s) && Listing(s, ids, es) && k <= |ids|
    ensures LoadAll(env, EMPTY, es[..k]).1 == None <==>
      forall i | 0 <= i < k :: !HasTwin(es, i) && OldLinkFits(s, ids[i])
  {
    hide Sound, Listing, AddEvent, HasTwin, OldLinkFits, SortedSet;
    ListingShape(s, ids, es);
    if k > 0 {
      PrefixLoadsIff(env, s, ids, es, k - 1);
      assert es[..k][..k - 1] == es[..k - 1] && es[..k][k - 1] == es[k - 1];
      if LoadAll(env, EMPTY, es[..k - 1]).1 == None {
        NextLoads(env, s, ids, es, k - 1);
      }
    }
  }

  lemma ListingShape(s: LState, ids: seq<string>, es: seq<Event>)
    requires Listing(s, ids, es)
    ensures |es| == |ids| && forall k | 0 <= k < |ids| :: ids[k] in s.events && es[k] == s.events[ids[k]]
  {
    hide SortedSet;
  }

  /** No event of the listing has a twin exactly if each author and number names one event. */
  lemma NoTwinsIff(s: LState, ids: seq<string>, es: seq<Event>)
    requires Distinct(ids) && Elements(ids) == s.events.Keys && |es| == |ids|
    requires forall k | 0 <= k < |ids| :: ids[k] in s.events && es[k] == s.events[ids[k]]
    ensures (forall i | 0 <= i < |es| :: !HasTwin(es, i)) <==> OneEventPerNumber(s)
  {
    hide HasTwin;
    if !OneEventPerNumber(s) {
      var a, b :| a in s.events && b in s.events && a != b && s.events[a].author == s.events[b].author
        && s.events[a].seqNo == s.events[b].seqNo;
      assert a in Elements(ids) && b in Elements(ids);
      var i :| 0 <= i < |ids| && ids[i] == a;
      var j :| 0 <= j < |ids| && ids[j] == b;
      SomeTwin(es, i, j);
    }
    if i :| 0 <= i < |es| && HasTwin(es, i) {
      var j := TwinOf(es, i);
      assert ids[j] != ids[i];
    }
  }

  lemma SomeTwin(es: seq<Event>, i: nat, j: nat)
    requires i < |es| && j < |es| && i != j && es[i].author == es[j].author && es[i].seqNo == es[j].seqNo
    ensures HasTwin(es, i) || HasTwin(es, j)
  {
  }

  lemma TwinOf(es: seq<Event>, i: nat) returns (j: nat)
    requires i < |es| && HasTwin(es, i)
    ensures j < i && es[j].author == es[i].author && es[j].seqNo == es[i].seqNo
  {
    j :| 0 <= j < i && es[j].author == es[i].author && es[j].seqNo == es[i].seqNo;
  }

  lemma AllLinksIff(s: LState, ids: seq<string>)
    requires Elements(ids) == s.events.Keys && forall k | 0 <= k < |ids| :: ids[k] in s.events
    ensures (forall i | 0 <= i < |ids| :: OldLinkFits(s, ids[i])) <==> OldLinksFit(s)
  {
    hide OldLinkFits;
    if forall i | 0 <= i < |ids| :: OldLinkFits(s, ids[i]) {
      forall id | id in s.events ensures OldLinkFits(s, id) {
        assert id in Elements(ids);
      }
    }
  }

  /**
   * The snapshot of a sound ledger can be reloaded if and only if each author and number names one event and
   * every link to an event that sorts before its successor fits.
   */
  lemma ReloadWorksExactly(env: Env, s: LState)
    requires Sound(env, s)
    ensures Load(env, SnapshotOf(s)).Ok? <==> OneEventPerNumber(s) && OldLinksFit(s)
  {
    hide Sound, LoadAll, SnapshotOf, SortedSet, OneEventPerNumber, OldLinksFit, HasTwin, OldLinkFits, Listing, Ordered,
      Distinct, Elements;
    var ids, es := SortedSet(s.events.Keys, OlderFirst(s.events)), SnapshotOf(s).events;
    SnapshotFields(s);
    SnapshotListing(s);
    ListingShape(s, ids, es);
    assert es[..|ids|] == es;
    PrefixLoadsIff(env, s, ids, es, |ids|);
    ListingFacts(s, ids, es);
    NoTwinsIff(s, ids, es);
    AllLinksIff(s, ids);
  }

  /**
   * A ledger reloaded from the snapshot of a sound one is sound again and holds the same events. Its indexes are
   * exact even if pruning had emptied them, but the compromised keys are forgotten.
   */
  lemma ReloadStartsSound(env: Env, s: LState)
    requires Sound(env, s) && OneEventPerNumber(s) && OldLinksFit(s)
    ensures var loaded := Load(env, SnapshotOf(s));
      && loaded.Ok?
      && var r := loaded.value;
         && Sound(env, r) && Exact(env, r) && r.events == s.events && r.anchors == s.anchors && r.compromised == {}
         && (s.heads != {} ==> r.heads == s.heads)
  {
    hide Sound, Exact, LoadAll, SnapshotOf, Within, OneEventPerNumber, OldLinksFit;
    var snap, evs := SnapshotOf(s), s.events.Values;
    ReloadWorksExactly(env, s);
    SnapshotEvents(s, snap);
    SnapshotFields(s);
    LoadedKeeps(env, evs, snap.events);
    var t := LoadAll(env, EMPTY, snap.events).0;
    LoadedEvents(env, s, t);
    HeadsPlain(env, s);
    var known := set h | h in snap.heads && h != "" && h in t.events;
    assert known == s.heads;
    var r := Load(env, snap).value;
    ReheadedExact(env, t, r);
    ReheadedSound(env, s, t, r);
  }

  lemma HeadsPlain(env: Env, s: LState)
    requires Sound(env, s)
    ensures forall h | h in s.heads :: h != "" && h in s.events
  {
    hide MarksSound, MissingSound, AuthorSound, TrimSpace, Genuine, RecomputedHeads, AffectsHeads;
    forall h | h in s.heads ensures h != "" && h in s.events {
      assert Validates(env, s.events[h]) && s.events[h].id == h;
      EmptyTrims();
    }
  }

  lemma ReheadedSound(env: Env, s: LState, t: LState, r: LState)
    requires Sound(env, s) && Sound(env, t) && t.events == s.events
    requires r == t.(heads := r.heads, anchors := r.anchors) && (r.heads == s.heads || r.heads == t.heads)
    ensures Sound(env, r)
  {
    hide RefCount, MarkOf, Validates, RecomputedHeads, AffectsHeads;
  }

  /** Runs of a restarted node keep what runs of a new one keep. */
  lemma RestartedRun(env: Env, s: LState, steps: seq<Step>)
    requires Sound(env, s) && OneEventPerNumber(s) && OldLinksFit(s)
    ensures var loaded := Load(env, SnapshotOf(s));
      && loaded.Ok?
      && var r := loaded.value;
         && Sound(env, Exec(env, r, steps))
         && (NothingDropped(env, r, steps) ==>
               Exact(env, Exec(env, r, steps)) && OneEventPerNumber(Exec(env, r, steps)))
         && (PlainIds(env) && ChainOk(s) && (forall i | 0 <= i < |steps| :: Strict(Exec(env, r, steps[..i]), steps[i]))
             ==> ChainOk(Exec(env, r, steps)))
  {
    hide Sound, Exact, Load, SnapshotOf, Exec, NothingDropped, ChainOk, PlainIds, Strict, OneEventPerNumber,
      OldLinksFit;
    ReloadStartsSound(env, s);
    var r := Load(env, SnapshotOf(s)).value;
    RunIsSound(env, r, steps);
    if NothingDropped(env, r, steps) {
      ExactUntilPruned(env, r, steps);
    }
    if PlainIds(env) && ChainOk(s) && forall i | 0 <= i < |steps| :: Strict(Exec(env, r, steps[..i]), steps[i]) {
      SameEventsChain(s, r);
      RunKeepsChain(env, r, steps);
    }
  }

  /** Unbroken chains leave no link that does not fit. */
  lemma ChainsFit(s: LState)
    requires ChainOk(s)
    ensures OldLinksFit(s)
  {
    hide OlderFirst;
    forall id | id in s.events ensures OldLinkFits(s, id) {
      assert Linked(s, s.events[id]);
    }
  }

  /** A node that demands known previous events can restart from its snapshot at any time before its first pruning. */
  lemma StrictRunReloads(env: Env, steps: seq<Step>)
    requires PlainIds(env) && NothingDropped(env, EMPTY, steps)
    requires forall i | 0 <= i < |steps| :: Strict(Exec(env, EMPTY, steps[..i]), steps[i])
    ensures var s := Exec(env, EMPTY, steps);
      Load(env, SnapshotOf(s)).Ok? && Load(env, SnapshotOf(s)).value.events == s.events
  {
    hide Sound, Exact, Load, SnapshotOf, Exec, NothingDropped, ChainOk, PlainIds, Strict, OneEventPerNumber,
      OldLinksFit;
    EmptyStart(env);
    RunIsSound(env, EMPTY, steps);
    ExactUntilPruned(env, EMPTY, steps);
    RunKeepsChain(env, EMPTY, steps);
    ChainsFit(Exec(env, EMPTY, steps));
    ReloadStartsSound(env, Exec(env, EMPTY, steps));
  }
}
