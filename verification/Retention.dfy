/** Retention: which events may be dropped, which are, and how the drop is anchored. */
module Retention {
  import opened LedgerModel
  import opened Sorting
  import opened Strings

  datatype RetentionPolicy = RetentionPolicy(maxEvents: int, maxAge: int, criticalOnly: bool)

  /** Creation time first, identifier second. */
  function OlderFirst(events: map<string, Event>): (r: (string, string) -> bool) {
    (a, b) => CreatedAt(events, a) < CreatedAt(events, b)
         || (CreatedAt(events, a) == CreatedAt(events, b) && Less(a, b))
  }

  function CreatedAt(events: map<string, Event>, id: string): (r: int) {
    if id in events then events[id].createdAt else 0
  }

  ghost predicate Protected(s: LState, pol: RetentionPolicy, id: string) {
    || id in s.heads
    || Referenced(s.events, id)
    || (pol.criticalOnly && id in s.events && IsCriticalKind(s.events[id].kind))
  }

  /** Unprotected events past the age limit. */
  ghost function Expired(s: LState, pol: RetentionPolicy, now: int): (r: set<string>) {
    set id | id in s.events && pol.maxAge > 0 && s.events[id].createdAt < now - pol.maxAge && !Protected(s, pol, id)
  }

  ghost function CandidateSet(s: LState, pol: RetentionPolicy, now: int): (r: set<string>) {
    set id | id in s.events && id !in Expired(s, pol, now) && !Protected(s, pol, id)
  }

  /** Unprotected events left after the age limit was applied, oldest first. */
  ghost function Candidates(s: LState, pol: RetentionPolicy, now: int): (r: seq<string>)
    ensures Distinct(r) && Elements(r) == CandidateSet(s, pol, now)
  {
    SortedSet(CandidateSet(s, pol, now), OlderFirst(s.events))
  }

  /** How many events exceed the size limit after the age limit was applied. */
  ghost function Excess(s: LState, pol: RetentionPolicy, now: int): (r: nat) {
    var left := |s.events.Keys - Expired(s, pol, now)|;
    if pol.maxEvents > 0 && left > pol.maxEvents then left - pol.maxEvents else 0
  }

  /** The oldest candidates that are dropped for size. */
  ghost function Surplus(s: LState, pol: RetentionPolicy, now: int): (r: seq<string>) {
    var c, k := Candidates(s, pol, now), Excess(s, pol, now);
    if k < |c| then c[..k] else c
  }

  ghost function Pruned(s: LState, pol: RetentionPolicy, now: int): (r: set<string>) {
    Expired(s, pol, now) + Elements(Surplus(s, pol, now))
  }

  /** The anchor over the pruned events; it depends on them as a set. */
  ghost function AnchorOf(env: Env, s: LState, pruned: set<string>, now: int): (a: Anchor)
    requires pruned != {} && pruned <= s.events.Keys
  {
    var ids := SortedSet(pruned, OlderFirst(s.events));
    assert forall k | 0 <= k < |ids| :: ids[k] in Elements(ids);
    assert |ids| == |pruned| > 0;
    var first, last := s.events[ids[0]].createdAt, s.events[ids[|ids| - 1]].createdAt;
    var prev := if s.anchors == [] then "" else s.anchors[|s.anchors| - 1].anchorHash;
    var root := env.rootHash(ids);
    Anchor(SCHEMA_V1, now, |ids|, first, last, root, prev, env.anchorHash(prev, root, |ids|, first, last, now))
  }

  lemma PrunedStored(s: LState, pol: RetentionPolicy, now: int)
    ensures Pruned(s, pol, now) <= s.events.Keys
    ensures forall id | id in Pruned(s, pol, now) :: !Protected(s, pol, id)
  {
    hide Protected, Candidates, Distinct;
    var c := Candidates(s, pol, now);
    forall id | id in Surplus(s, pol, now) ensures id in s.events && !Protected(s, pol, id) {
      assert id in Elements(c);
    }
  }

  /** The whole operation. */
  ghost function Retain(env: Env, s: LState, pol: RetentionPolicy, now: int): (r: LState) {
    var pruned := Pruned(s, pol, now);
    PrunedStored(s, pol, now);
    if (pol.maxEvents <= 0 && pol.maxAge <= 0) || pruned == {} then s
    else Rebuilt(s, s.events - pruned).(anchors := s.anchors + [AnchorOf(env, s, pruned, now)])
  }

  /** Pruning of short-lived kinds: unprotected events older than the retention time of their kind. */
  ghost function PrunedByKind(s: LState, p: Policy, now: int): (r: set<string>) {
    set id | id in s.events && s.events[id].kind in p.retentionByKind && p.retentionByKind[s.events[id].kind] > 0
             && s.events[id].createdAt < now - p.retentionByKind[s.events[id].kind]
             && id !in s.heads && !Referenced(s.events, id)
  }

  ghost function RetainByKind(s: LState, p: Policy, now: int): (r: LState) {
    var pruned := PrunedByKind(s, p, now);
    if pruned == {} then s else Rebuilt(s, s.events - pruned)
  }

  // ---------------------------------------------------------------- what retention guarantees

  lemma OlderFirstIsOrder(events: map<string, Event>)
    ensures WeakOrder(OlderFirst(events))
    ensures TotalOn(events.Keys, OlderFirst(events))
  {
    hide Less;
    var less := OlderFirst(events);
    forall a, b, c
      ensures !less(a, a)
      ensures less(a, b) && less(b, c) ==> less(a, c)
      ensures less(a, c) ==> less(a, b) || less(b, c)
      ensures a != b ==> less(a, b) || less(b, a)
    {
      LessLaws(a, b, c); LessLaws(a, c, b); LessLaws(b, c, a);
    }
  }

  /** Survivors keep every reference they had, for any set of removed events that spares referenced ones. */
  lemma SurvivorsKeepReferences(events: map<string, Event>, gone: set<string>, id: string, ref: string)
    requires forall x | x in gone :: !Referenced(events, x)
    requires id in events - gone && ref in HeadRefs(events[id]) && ref in events
    ensures ref in events - gone
  {
    assert Referenced(events, ref);
  }

  /**
   * Retention drops only unprotected events, everything unprotected past the age limit, and of the rest
   * the oldest unprotected ones until the size limit is met or nothing unprotected is left.
   */
  lemma RetentionEffect(env: Env, s: LState, pol: RetentionPolicy, now: int)
    requires pol.maxEvents > 0 || pol.maxAge > 0
    ensures var t := Retain(env, s, pol, now);
      && t.events.Keys <= s.events.Keys && (forall id | id in t.events :: t.events[id] == s.events[id])
      && (forall id | id in s.events && id !in t.events :: !Protected(s, pol, id))
      && (pol.maxAge > 0 ==> forall id | id in t.events && s.events[id].createdAt < now - pol.maxAge ::
           Protected(s, pol, id))
      && (pol.maxEvents > 0 ==> |t.events.Keys| <= pol.maxEvents || forall id | id in t.events :: Protected(s, pol, id))
  {
    hide Protected, Surplus, AnchorOf, Rebuilt;
    PrunedStored(s, pol, now);
    RetainEvents(env, s, pol, now);
    if pol.maxEvents > 0 {
      SizeReached(s, pol, now);
    }
  }

  lemma RetainEvents(env: Env, s: LState, pol: RetentionPolicy, now: int)
    requires pol.maxEvents > 0 || pol.maxAge > 0
    ensures var t := Retain(env, s, pol, now);
      t.events == s.events - Pruned(s, pol, now) && t.events.Keys == s.events.Keys - Pruned(s, pol, now)
  {
    hide Pruned, AnchorOf, RecomputedHeads;
  }

  lemma TakeSize<T>(left: set<T>, c: seq<T>, k: nat)
    requires Distinct(c) && Elements(c) <= left && k <= |c|
    ensures |left - Elements(c[..k])| == |left| - k
  {
    var dropped := c[..k];
    DistinctSize(dropped);
    forall x | x in dropped ensures x in left {
      assert x in Elements(c);
    }
    assert left == (left - Elements(dropped)) + Elements(dropped);
  }

  lemma SizeReached(s: LState, pol: RetentionPolicy, now: int)
    requires pol.maxEvents > 0
    ensures |s.events.Keys - Pruned(s, pol, now)| <= pol.maxEvents
            || forall id | id in s.events && id !in Pruned(s, pol, now) :: Protected(s, pol, id)
  {
    hide Protected, Candidates, Distinct, Elements;
    var expired, c, k := Expired(s, pol, now), Candidates(s, pol, now), Excess(s, pol, now);
    var left := s.events.Keys - expired;
    if k < |c| {
      TakeSize(left, c, k);
      assert s.events.Keys - Pruned(s, pol, now) == left - Elements(c[..k]);
    }
  }

  /** Of two unprotected, unexpired events the younger one is never dropped for size while the older one stays. */
  lemma OldestGoFirst(s: LState, pol: RetentionPolicy, now: int, gone: string, kept: string)
    requires gone in Surplus(s, pol, now)
    requires kept in s.events && kept !in Pruned(s, pol, now) && !Protected(s, pol, kept)
    ensures OlderFirst(s.events)(gone, kept)
  {
    hide Protected, OlderFirst, Candidates, WeakOrder;
    var less, c, k := OlderFirst(s.events), Candidates(s, pol, now), Excess(s, pol, now);
    OlderFirstIsOrder(s.events);
    CandidatesOrdered(s, pol, now);
    assert kept in Elements(c);
    var j :| 0 <= j < |c| && c[j] == kept;
    var i :| 0 <= i < |Surplus(s, pol, now)| && Surplus(s, pol, now)[i] == gone;
    assert c[i] == gone;
    assert i < j by { assert j >= |Surplus(s, pol, now)|; }
    assert !less(kept, gone) && gone != kept;
    assert gone in Elements(c);
  }

  lemma CandidatesOrdered(s: LState, pol: RetentionPolicy, now: int)
    ensures Ordered(Candidates(s, pol, now), OlderFirst(s.events))
  {
    hide CandidateSet, OlderFirst, WeakOrder;
    OlderFirstIsOrder(s.events);
    SortedSetOrdered(CandidateSet(s, pol, now), OlderFirst(s.events));
  }

  // ---------------------------------------------------------------- what is due

  /** A stored event names `id` as its previous event or as a parent. */
  ghost predicate Named(events: map<string, Event>, id: string) {
    exists x :: x in events && ((events[x].prev == id && id != "") || id in events[x].parents)
  }

  lemma NamedIsReferenced(events: map<string, Event>, id: string)
    ensures Named(events, id) <==> Referenced(events, id)
  {
    if Referenced(events, id) {
      var x :| x in events && id in HeadRefs(events[x]);
      assert (events[x].prev == id && id != "") || id in events[x].parents;
    }
    if Named(events, id) {
      var x :| x in events && ((events[x].prev == id && id != "") || id in events[x].parents);
      assert id in HeadRefs(events[x]);
    }
  }

  /** Nothing keeps the event: it is no head, no stored event names it, and it is not spared as critical. */
  ghost predicate Disposable(s: LState, pol: RetentionPolicy, id: string)
    requires id in s.events
  {
    id !in s.heads && !Named(s.events, id) && !(pol.criticalOnly && IsCriticalKind(s.events[id].kind))
  }

  lemma DisposableIsUnprotected(s: LState, pol: RetentionPolicy, id: string)
    requires id in s.events
    ensures Disposable(s, pol, id) <==> !Protected(s, pol, id)
  {
    hide Named, Referenced, IsCriticalKind;
    NamedIsReferenced(s.events, id);
  }

  /** The event is older than the age limit, if there is one. */
  ghost predicate Overaged(s: LState, pol: RetentionPolicy, now: int, id: string)
    requires id in s.events
  {
    pol.maxAge > 0 && now - s.events[id].createdAt > pol.maxAge
  }

  lemma OveragedExpires(s: LState, pol: RetentionPolicy, now: int, id: string)
    requires id in s.events
    ensures id in Expired(s, pol, now) <==> Overaged(s, pol, now, id) && Disposable(s, pol, id)
  {
    hide Protected, Disposable;
    DisposableIsUnprotected(s, pol, id);
  }

  /** Created earlier, or at the same time under a smaller identifier. */
  ghost predicate GoesBefore(events: map<string, Event>, a: string, b: string)
    requires a in events && b in events
  {
    var first, second := events[a].createdAt, events[b].createdAt;
    first < second || (first == second && Less(a, b))
  }

  lemma OlderGoesBefore(events: map<string, Event>, a: string, b: string)
    requires a in events && b in events
    ensures OlderFirst(events)(a, b) <==> GoesBefore(events, a, b)
  {
    hide Less;
    assert CreatedAt(events, a) == events[a].createdAt && CreatedAt(events, b) == events[b].createdAt;
  }

  lemma SurplusLeavesEnough(s: LState, pol: RetentionPolicy, now: int)
    requires Surplus(s, pol, now) != []
    ensures pol.maxEvents > 0 && |s.events.Keys - Pruned(s, pol, now)| >= pol.maxEvents
  {
    hide Protected, Candidates, Distinct, Elements;
    var expired, c, k := Expired(s, pol, now), Candidates(s, pol, now), Excess(s, pol, now);
    var left := s.events.Keys - expired;
    var taken := if k < |c| then k else |c|;
    CandidatesAreLeft(s, pol, now);
    TakeSize(left, c, taken);
    assert c[..|c|] == c;
    assert Surplus(s, pol, now) == c[..taken];
    assert s.events.Keys - Pruned(s, pol, now) == left - Elements(c[..taken]);
  }

  lemma CandidatesAreLeft(s: LState, pol: RetentionPolicy, now: int)
    ensures Elements(Candidates(s, pol, now)) <= s.events.Keys - Expired(s, pol, now)
  {
    hide Protected, Candidates, Elements;
  }

  /**
   * What retention does, event by event. What goes was disposable, and it was past the age limit or the ledger still
   * holds at least as many events as the size limit allows. Every disposable event past the age limit goes. Of two
   * disposable events within the age limit the younger one does not go before the older one.
   */
  lemma RetentionDropsWhatIsDue(env: Env, s: LState, pol: RetentionPolicy, now: int, id: string)
    requires id in s.events
    ensures var t := Retain(env, s, pol, now);
      && (id !in t.events ==>
            && Disposable(s, pol, id)
            && (Overaged(s, pol, now, id) || (pol.maxEvents > 0 && |t.events| >= pol.maxEvents)))
      && (Disposable(s, pol, id) && Overaged(s, pol, now, id) ==> id !in t.events)
      && (forall kept | id !in t.events && !Overaged(s, pol, now, id) && kept in t.events && Disposable(s, pol, kept) ::
            GoesBefore(s.events, id, kept))
  {
    hide GoesBefore, OlderFirst, Disposable, Overaged, Expired, Surplus, Protected, AnchorOf, Rebuilt, Less;
    OveragedExpires(s, pol, now, id);
    DisposableIsUnprotected(s, pol, id);
    PrunedStored(s, pol, now);
    if pol.maxEvents <= 0 && pol.maxAge <= 0 {
      NoLimitNoAge(s, pol, now, id);
    } else {
      RetainEvents(env, s, pol, now);
      var t := Retain(env, s, pol, now);
      assert |t.events.Keys| == |t.events|;
      if id in Surplus(s, pol, now) {
        SurplusLeavesEnough(s, pol, now);
        forall kept | kept in t.events && Disposable(s, pol, kept) ensures GoesBefore(s.events, id, kept) {
          DisposableIsUnprotected(s, pol, kept);
          OldestGoFirst(s, pol, now, id, kept);
          OlderGoesBefore(s.events, id, kept);
        }
      }
    }
  }

  lemma NoLimitNoAge(s: LState, pol: RetentionPolicy, now: int, id: string)
    requires pol.maxAge <= 0 && id in s.events
    ensures !Overaged(s, pol, now, id)
  {
  }

  /** Pruning by kind drops exactly the disposable events older than the retention time of their kind. */
  lemma KindPruningDropsWhatIsDue(s: LState, p: Policy, now: int, id: string)
    requires id in s.events
    ensures var kind := s.events[id].kind;
      id !in RetainByKind(s, p, now).events <==>
        && kind in p.retentionByKind && p.retentionByKind[kind] > 0
        && now - s.events[id].createdAt > p.retentionByKind[kind]
        && id !in s.heads && !Named(s.events, id)
  {
    hide Named, Referenced, Rebuilt;
    NamedIsReferenced(s.events, id);
    KindPruningEvents(s, p, now);
  }

  lemma KindPruningEvents(s: LState, p: Policy, now: int)
    ensures RetainByKind(s, p, now).events.Keys == s.events.Keys - PrunedByKind(s, p, now)
  {
    hide PrunedByKind, RecomputedHeads;
    var pruned := PrunedByKind(s, p, now);
    assert (s.events - pruned).Keys == s.events.Keys - pruned;
  }

  /**
   * The anchor counts the dropped events, spans their creation times, continues the chain of anchors and carries the
   * hash of their identifiers, oldest first, and the hash of all that.
   */
  ghost predicate Covers(env: Env, s: LState, gone: set<string>, now: int, a: Anchor)
    requires gone <= s.events.Keys
  {
    && a.prunedCount == |gone| && a.createdAt == now
    && (forall id | id in gone :: a.firstCreatedAt <= s.events[id].createdAt <= a.lastCreatedAt)
    && (exists id :: id in gone && s.events[id].createdAt == a.firstCreatedAt)
    && (exists id :: id in gone && s.events[id].createdAt == a.lastCreatedAt)
    && a.prevAnchorHash == (if s.anchors == [] then "" else s.anchors[|s.anchors| - 1].anchorHash)
    && (exists ids: seq<string> :: InAge(s.events, gone, ids) && a.rootHash == env.rootHash(ids))
    && a.anchorHash
       == env.anchorHash(a.prevAnchorHash, a.rootHash, a.prunedCount, a.firstCreatedAt, a.lastCreatedAt, now)
  }

  /** The list holds each identifier of the set once, in the order of their age. */
  ghost predicate InAge(events: map<string, Event>, gone: set<string>, ids: seq<string>)
    requires gone <= events.Keys
  {
    && Elements(ids) == gone
    && forall i, j | 0 <= i < j < |ids| ::
         ids[i] in events && ids[j] in events && GoesBefore(events, ids[i], ids[j])
  }

  /** Retention that drops something adds one anchor that covers what is gone, and otherwise changes nothing. */
  lemma AnchorCovers(env: Env, s: LState, pol: RetentionPolicy, now: int)
    ensures var t := Retain(env, s, pol, now);
      if t.events == s.events then t == s
      else
        |t.anchors| == |s.anchors| + 1 && t.anchors[..|s.anchors|] == s.anchors
        && Covers(env, s, s.events.Keys - t.events.Keys, now, t.anchors[|s.anchors|])
  {
    hide Pruned, AnchorOf, RecomputedHeads, Covers;
    PrunedStored(s, pol, now);
    var pruned, t := Pruned(s, pol, now), Retain(env, s, pol, now);
    if (pol.maxEvents > 0 || pol.maxAge > 0) && pruned != {} {
      RestKeys(s.events, pruned);
      AnchorSpans(env, s, pruned, now);
    }
  }

  lemma RestKeys(events: map<string, Event>, gone: set<string>)
    requires gone <= events.Keys && gone != {}
    ensures events.Keys - (events - gone).Keys == gone && events - gone != events
  {
    assert (events - gone).Keys == events.Keys - gone;
    var id :| id in gone;
    assert id in events.Keys && id !in (events - gone).Keys;
  }

  lemma AnchorSpans(env: Env, s: LState, pruned: set<string>, now: int)
    requires pruned != {} && pruned <= s.events.Keys
    ensures Covers(env, s, pruned, now, AnchorOf(env, s, pruned, now))
  {
    hide OlderFirst, SortedSet, Distinct, InAge;
    var ids := SortedSet(pruned, OlderFirst(s.events));
    SortedSpans(s.events, pruned);
    SortedInAge(s.events, pruned);
    assert ids[0] in Elements(ids) && ids[|ids| - 1] in Elements(ids);
  }

  lemma TotalPair(events: map<string, Event>, a: string, b: string)
    requires a in events && b in events && a != b
    ensures OlderFirst(events)(a, b) || OlderFirst(events)(b, a)
  {
    hide OlderFirst, WeakOrder;
    OlderFirstIsOrder(events);
    assert a in events.Keys && b in events.Keys;
  }

  lemma SortedInAge(events: map<string, Event>, ids: set<string>)
    requires ids <= events.Keys
    ensures InAge(events, ids, SortedSet(ids, OlderFirst(events)))
  {
    hide WeakOrder, OlderFirst, SortedSet, TotalOn, GoesBefore;
    var sorted := SortedSet(ids, OlderFirst(events));
    OlderFirstIsOrder(events);
    SortedSetOrdered(ids, OlderFirst(events));
    SubsetTotal(ids, events);
    forall i, j | 0 <= i < j < |sorted|
      ensures sorted[i] in events && sorted[j] in events && GoesBefore(events, sorted[i], sorted[j])
    {
      assert sorted[i] in Elements(sorted) && sorted[j] in Elements(sorted);
      OlderGoesBefore(events, sorted[i], sorted[j]);
      OlderGoesBefore(events, sorted[j], sorted[i]);
      TotalPair(events, sorted[i], sorted[j]);
    }
  }

  /** Oldest first means that the first and the last one span all creation times. */
  lemma SortedSpans(events: map<string, Event>, ids: set<string>)
    requires ids <= events.Keys
    ensures var sorted := SortedSet(ids, OlderFirst(events));
      forall id | id in ids ::
        && sorted != [] && sorted[0] in events && sorted[|sorted| - 1] in events
        && events[sorted[0]].createdAt <= events[id].createdAt <= events[sorted[|sorted| - 1]].createdAt
  {
    hide WeakOrder, OlderFirst, SortedSet, Distinct, TotalOn;
    var sorted := SortedSet(ids, OlderFirst(events));
    OlderFirstIsOrder(events);
    SortedSetOrdered(ids, OlderFirst(events));
    forall k | 0 <= k < |sorted| ensures sorted[k] in ids {
      assert sorted[k] in Elements(sorted);
    }
    forall id | id in ids
      ensures sorted != []
      ensures events[sorted[0]].createdAt <= events[id].createdAt <= events[sorted[|sorted| - 1]].createdAt
    {
      assert id in Elements(sorted);
      var k :| 0 <= k < |sorted| && sorted[k] == id;
      SortedPair(events, sorted, 0, k);
      SortedPair(events, sorted, k, |sorted| - 1);
    }
  }

  lemma SortedPair(events: map<string, Event>, ids: seq<string>, i: nat, j: nat)
    requires Ordered(ids, OlderFirst(events)) && i <= j < |ids| && ids[i] in events && ids[j] in events
    ensures events[ids[i]].createdAt <= events[ids[j]].createdAt
  {
    hide OlderFirst;
    if i < j {
      OlderGoesBefore(events, ids[j], ids[i]);
    }
  }

  // ---------------------------------------------------------------- how the loops reach those sets

  /** The unprotected identifiers of a list, in order. */
  ghost function Droppable(s: LState, pol: RetentionPolicy, ids: seq<string>): (r: seq<string>)
    ensures forall id :: id in r <==> id in ids && !Protected(s, pol, id)
    ensures |r| <= |ids|
  {
    if ids == [] then []
    else
      var init, last := ids[..|ids| - 1], ids[|ids| - 1];
      assert forall id :: id in ids <==> id in init || id == last;
      var r := Droppable(s, pol, init);
      if Protected(s, pol, last) then r else r + [last]
  }

  lemma {:induction false} DroppableOrdered(s: LState, pol: RetentionPolicy, ids: seq<string>, less: (string,
                                            string) -> bool)
    requires Ordered(ids, less) && Distinct(ids)
    ensures Ordered(Droppable(s, pol, ids), less) && Distinct(Droppable(s, pol, ids))
  {
    hide Protected;
    if ids != [] {
      var k := |ids| - 1;
      var init, last := ids[..k], ids[k];
      DroppableOrdered(s, pol, init, less);
      var r := Droppable(s, pol, init);
      forall i | 0 <= i < |r| ensures !less(last, r[i]) && r[i] != last {
        assert r[i] in init;
        var j :| 0 <= j < k && init[j] == r[i];
        assert ids[j] == r[i];
      }
    }
  }

  lemma {:induction false} DroppablePrefix(s: LState, pol: RetentionPolicy, ids: seq<string>, i: nat)
    requires i <= |ids|
    ensures Droppable(s, pol, ids[..i]) <= Droppable(s, pol, ids)
  {
    hide Protected;
    if i < |ids| {
      DroppablePrefix(s, pol, ids[..|ids| - 1], i);
      assert ids[..|ids| - 1][..i] == ids[..i];
    } else {
      assert ids[..i] == ids;
    }
  }

  /** Filtering the sorted remainder gives the sorted candidates. */
  lemma DroppableIsCandidates(s: LState, pol: RetentionPolicy, now: int, ids: seq<string>)
    requires ids == SortedSet(s.events.Keys - Expired(s, pol, now), OlderFirst(s.events))
    ensures Droppable(s, pol, ids) == Candidates(s, pol, now)
  {
    hide Protected, OlderFirst, WeakOrder, TotalOn, SortedSet, Expired, Candidates;
    var less := OlderFirst(s.events);
    OlderFirstIsOrder(s.events);
    SortedSetOrdered(s.events.Keys - Expired(s, pol, now), less);
    DroppableOrdered(s, pol, ids, less);
    CandidatesOrdered(s, pol, now);
    var r := Droppable(s, pol, ids);
    forall id ensures id in Elements(r) <==> id in CandidateSet(s, pol, now) {
      assert id in ids <==> id in Elements(ids);
    }
    assert Elements(r) == CandidateSet(s, pol, now);
    SubsetTotal(Elements(r), s.events);
    SortedUnique(r, Candidates(s, pol, now), less);
  }

  lemma SubsetTotal(ids: set<string>, events: map<string, Event>)
    requires ids <= events.Keys
    ensures TotalOn(ids, OlderFirst(events))
  {
    hide OlderFirst, WeakOrder;
    OlderFirstIsOrder(events);
  }
}
