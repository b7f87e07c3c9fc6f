/** The incremental indexes equal their definitions over the stored events, whatever the arrival order. */
module LedgerIndexes {
  import opened FiniteSums
  import opened LedgerModel
  import opened Results

  // ---------------------------------------------------------------- definitions over the event set

  /** Every event is stored under its own identifier. */
  ghost predicate Keyed(events: map<string, Event>) {
    forall id | id in events :: events[id].id == id
  }

  ghost function RefsTo(env: Env, events: map<string, Event>, x: string): (r: string -> int) {
    id => if id in events then multiset(Refs(env, events[id]))[x] else 0
  }

  /** How often the stored events refer to `x`. */
  ghost function RefCount(env: Env, events: map<string, Event>, x: string): (r: int) {
    Sum(events.Keys, RefsTo(env, events, x))
  }

  ghost predicate MissingExact(env: Env, s: LState) {
    forall x: string :: MissingExactAt(env, s, x)
  }

  ghost predicate MissingExactAt(env: Env, s: LState, x: string) {
    && (x in s.missing <==> x !in s.events && RefCount(env, s.events, x) > 0)
    && (x in s.missing ==> s.missing[x] == RefCount(env, s.events, x))
  }

  ghost predicate MarksExact(env: Env, s: LState) {
    forall m: Mark :: m in s.marks <==> exists id :: id in s.events && MarkOf(env, s.events[id]) == Some(m)
  }

  ghost predicate AuthorSound(s: LState) {
    forall k | k in s.authorSeq ::
      s.authorSeq[k] in s.events && s.events[s.authorSeq[k]].author == k.0 && s.events[s.authorSeq[k]].seqNo == k.1
  }

  ghost predicate AuthorComplete(s: LState) {
    forall id | id in s.events ::
      (s.events[id].author, s.events[id].seqNo as nat) in s.authorSeq
           && s.authorSeq[(s.events[id].author, s.events[id].seqNo as nat)] == id
  }

  /** All indexes equal their definitions. */
  ghost predicate Exact(env: Env, s: LState) {
    Keyed(s.events) && AuthorSound(s) && AuthorComplete(s) && MissingExact(env, s) && MarksExact(env, s)
  }

  // ---------------------------------------------------------------- one insertion

  /** Tracking adds, for every absent identifier, the number of its occurrences. */
  lemma {:induction false} TrackCounts(missing: map<string, nat>, events: map<string, Event>, refs: seq<string>,
                                       x: string)
    ensures var m, k := Track(missing, events, refs), multiset(refs)[x];
      if x in events || k == 0 then (x in m <==> x in missing) && (x in m ==> m[x] == missing[x])
      else x in m && m[x] == (if x in missing then missing[x] else 0) + k
  {
    if refs != [] {
      var init, last := refs[..|refs| - 1], refs[|refs| - 1];
      assert refs == init + [last];
      TrackCounts(missing, events, init, x);
    }
  }

  lemma RefCountInsert(env: Env, events: map<string, Event>, ev: Event, x: string)
    requires ev.id !in events
    ensures RefCount(env, events[ev.id := ev], x) == RefCount(env, events, x) + multiset(Refs(env, ev))[x]
  {
    hide Refs, Sum;
    var more := events[ev.id := ev];
    assert more.Keys == events.Keys + {ev.id};
    SumInsert(events.Keys, RefsTo(env, more, x), ev.id);
    SumEq(events.Keys, RefsTo(env, events, x), RefsTo(env, more, x));
  }

  /** What is counted is referred to by some event, and the other way round. */
  lemma CountedIsReferred(env: Env, events: map<string, Event>, x: string) returns (from: string)
    requires RefCount(env, events, x) > 0
    ensures from in events && x in Refs(env, events[from])
  {
    hide Refs, Sum;
    SumNonnegative(events.Keys, RefsTo(env, events, x));
    from :| from in events.Keys && RefsTo(env, events, x)(from) != 0;
  }

  lemma ReferredIsCounted(env: Env, events: map<string, Event>, id: string, ref: string)
    requires id in events && ref in Refs(env, events[id])
    ensures RefCount(env, events, ref) > 0
  {
    hide Refs;
    SumRemove(events.Keys, RefsTo(env, events, ref), id);
    SumNonnegative(events.Keys - {id}, RefsTo(env, events, ref));
  }

  lemma RefCountNonnegative(env: Env, events: map<string, Event>, x: string)
    ensures RefCount(env, events, x) >= 0
  {
    hide Refs;
    SumNonnegative(events.Keys, RefsTo(env, events, x));
  }

  lemma StoredMissing(env: Env, s: LState, ev: Event)
    requires MissingExact(env, s) && ev.id !in s.events
    ensures MissingExact(env, Stored(env, s, ev))
  {
    hide Refs, MarkOf, RefCount, Track, Heads;
    var t := Stored(env, s, ev);
    forall x: string
      ensures MissingExactAt(env, t, x)
    {
      assert MissingExactAt(env, s, x);
      RefCountInsert(env, s.events, ev, x);
      RefCountNonnegative(env, s.events, x);
      TrackCounts(s.missing - {ev.id}, t.events, Refs(env, ev), x);
    }
  }

  lemma StoredMarks(env: Env, s: LState, ev: Event)
    requires MarksExact(env, s) && ev.id !in s.events
    ensures MarksExact(env, Stored(env, s, ev))
  {
    hide Refs, MarkOf, Track, Heads;
    var t := Stored(env, s, ev);
    forall m: Mark
      ensures m in t.marks <==> exists id :: id in t.events && MarkOf(env, t.events[id]) == Some(m)
    {
      if MarkOf(env, ev) == Some(m) {
        assert ev.id in t.events && MarkOf(env, t.events[ev.id]) == Some(m);
      }
      if id :| id in s.events && MarkOf(env, s.events[id]) == Some(m) {
        assert id in t.events && MarkOf(env, t.events[id]) == Some(m);
      }
    }
  }

  lemma StoredAuthors(env: Env, s: LState, ev: Event)
    requires Keyed(s.events) && AuthorSound(s) && ev.id !in s.events
    ensures Keyed(Stored(env, s, ev).events) && AuthorSound(Stored(env, s, ev))
    ensures AuthorComplete(s) && !Conflicts(s, ev) ==> AuthorComplete(Stored(env, s, ev))
  {
    hide Refs, MarkOf, Track, Heads, AuthorComplete, AuthorSound;
    StoredSoundly(env, s, ev);
    if AuthorComplete(s) && !Conflicts(s, ev) {
      StoredCompletely(env, s, ev);
    }
  }

  lemma StoredSoundly(env: Env, s: LState, ev: Event)
    requires AuthorSound(s) && ev.id !in s.events
    ensures AuthorSound(Stored(env, s, ev))
  {
    hide Refs, MarkOf, Track, Heads;
  }

  lemma StoredCompletely(env: Env, s: LState, ev: Event)
    requires Keyed(s.events) && AuthorComplete(s) && ev.id !in s.events && !Conflicts(s, ev)
    ensures AuthorComplete(Stored(env, s, ev))
  {
    hide Refs, MarkOf, Track, Heads;
  }

  /** Storing a new, conflict-free event keeps every index exact. */
  lemma StoredExact(env: Env, s: LState, ev: Event)
    requires Exact(env, s) && ev.id !in s.events && !Conflicts(s, ev)
    ensures Exact(env, Stored(env, s, ev))
  {
    hide MissingExact, MarksExact, AuthorSound, AuthorComplete, Stored, Keyed;
    StoredMissing(env, s, ev); StoredMarks(env, s, ev); StoredAuthors(env, s, ev);
  }

  /** Exact indexes are a function of the stored events. */
  lemma ExactIsUnique(env: Env, s: LState, t: LState)
    requires Exact(env, s) && Exact(env, t) && s.events == t.events
    ensures s.authorSeq == t.authorSeq && s.missing == t.missing && s.marks == t.marks
  {
    hide RefCount, MarkOf;
    forall x: string
      ensures x in s.missing <==> x in t.missing
      ensures x in s.missing ==> s.missing[x] == t.missing[x]
    {
      assert MissingExactAt(env, s, x) && MissingExactAt(env, t, x);
    }
    assert s.missing == t.missing;
    forall m: Mark ensures m in s.marks <==> m in t.marks {
    }
    assert s.marks == t.marks;
    forall k ensures k in s.authorSeq <==> k in t.authorSeq {
    }
    assert s.authorSeq == t.authorSeq;
  }

  lemma EmptyExact(env: Env)
    ensures Exact(env, EMPTY)
  {
  }

  // ---------------------------------------------------------------- arrival order does not matter

  /** Events that are valid at every clock reading, without author/sequence conflicts, whose links fit together. */
  ghost predicate Compatible(env: Env, p: Policy, clock: set<int>, evs: set<Event>) {
    && (forall ev, now | ev in evs && now in clock :: Acceptable(env, p, now, ev))
    && LinkConsistent(evs)
  }

  ghost predicate LinkConsistent(evs: set<Event>) {
    && (forall a, b | a in evs && b in evs && a.id == b.id :: a == b)
    && (forall a, b | a in evs && b in evs && a.author == b.author && a.seqNo == b.seqNo :: a == b)
    && (forall a, b | a in evs && b in evs && a.seqNo > 1 && a.prev == b.id ::
         b.author == a.author && (b.seqNo + 1) % TWO_64 == a.seqNo)
  }

  /** The events stored so far come from `evs`. */
  ghost predicate Within(s: LState, evs: set<Event>) {
    forall id | id in s.events :: s.events[id] in evs
  }

  lemma NoConflictWithin(s: LState, evs: set<Event>, ev: Event)
    requires Keyed(s.events) && AuthorSound(s) && Within(s, evs) && LinkConsistent(evs) && ev in evs
    requires ev.id !in s.events
    ensures !Conflicts(s, ev) && (ev.author, ev.seqNo as nat) !in s.authorSeq && LinkFault(s, ev) == None
  {
  }

  /** An event, the context it arrives in and the clock reading at its arrival. */
  datatype Arrival = Arrival(ev: Event, context: string, now: int)

  ghost function EventsOf(arrivals: seq<Arrival>): (r: set<Event>) {
    set a | a in arrivals :: a.ev
  }

  lemma EventsOfMore(arrivals: seq<Arrival>, a: Arrival)
    ensures EventsOf(arrivals + [a]) == EventsOf(arrivals) + {a.ev}
  {
    assert forall x :: x in arrivals + [a] <==> x in arrivals || x == a;
  }

  /** Arrivals of compatible events at clock readings that accept them. */
  ghost predicate Timely(arrivals: seq<Arrival>, clock: set<int>, evs: set<Event>) {
    forall i | 0 <= i < |arrivals| :: arrivals[i].ev in evs && arrivals[i].now in clock
  }

  /** Applies a sequence without an observer. */
  ghost function ApplySeq(env: Env, s: LState, arrivals: seq<Arrival>, p: Policy): (r: LState)
    decreases |arrivals|
  {
    if arrivals == [] then s
    else
      var a := arrivals[|arrivals| - 1];
      Apply(env, ApplySeq(env, s, arrivals[..|arrivals| - 1], p), a.ev, a.context, p, None, a.now).0
  }

  /** The link of an event does not keep it out of a ledger that holds these identifiers. */
  predicate Free(p: Policy, ev: Event, held: set<string>) {
    p.requireKnownPrev && ev.seqNo > 1 ==> ev.prev in held
  }

  /** A compatible event whose link is not free is refused. */
  lemma ApplyBlocked(env: Env, s: LState, evs: set<Event>, ev: Event, context: string, p: Policy, clock: set<int>,
                     now: int)
    requires Exact(env, s) && Within(s, evs) && Compatible(env, p, clock, evs) && now in clock && ev in evs
    requires ev.id !in s.events && !Free(p, ev, s.events.Keys)
    ensures Apply(env, s, ev, context, p, None, now) == (s, Some(PrevNotFound))
  {
    hide Exact, Conflicts, LinkFault, VerdictOf, Stored, LinkConsistent;
    assert Acceptable(env, p, now, ev);
    NoConflictExact(env, s, evs, ev);
  }

  /** One application of a compatible event whose link is free, with any context and no observer. */
  lemma ApplyCompatible(env: Env, s: LState, evs: set<Event>, ev: Event, context: string, p: Policy, clock: set<int>,
                        now: int)
    requires Exact(env, s) && Within(s, evs) && Compatible(env, p, clock, evs) && now in clock && ev in evs
    requires Free(p, ev, s.events.Keys)
    ensures var (t, refusal) := Apply(env, s, ev, context, p, None, now);
      && refusal == None
      && Exact(env, t) && Within(t, evs)
      && t.events == s.events[ev.id := ev]
      && t.compromised == s.compromised && t.anchors == s.anchors
  {
    hide Exact, Conflicts, LinkFault, VerdictOf, Stored, LinkConsistent;
    assert Acceptable(env, p, now, ev);
    if ev.id in s.events {
      IdentifierDecides(evs, s.events[ev.id], ev) by { HeldUnderId(env, s, ev.id); }
    } else {
      NoConflictExact(env, s, evs, ev);
      StoredExact(env, s, ev);
      StoredFields(env, s, ev);
    }
  }

  lemma HeldUnderId(env: Env, s: LState, id: string)
    requires Exact(env, s) && id in s.events
    ensures s.events[id].id == id
  {
    hide MissingExact, MarksExact, AuthorComplete, AuthorSound;
  }

  lemma NoConflictExact(env: Env, s: LState, evs: set<Event>, ev: Event)
    requires Exact(env, s) && Within(s, evs) && LinkConsistent(evs) && ev in evs && ev.id !in s.events
    ensures !Conflicts(s, ev) && LinkFault(s, ev) == None
  {
    hide MissingExact, MarksExact, AuthorComplete;
    NoConflictWithin(s, evs, ev);
  }

  lemma StoredFields(env: Env, s: LState, ev: Event)
    ensures var t := Stored(env, s, ev);
      t.events == s.events[ev.id := ev] && t.compromised == s.compromised && t.anchors == s.anchors
  {
    hide Refs, MarkOf, Track, Heads;
  }

  /** The arrival at position `i` is accepted. */
  ghost predicate AcceptedAt(env: Env, arrivals: seq<Arrival>, p: Policy, i: int) {
    0 <= i < |arrivals| ==>
      var a := arrivals[i];
      Apply(env, ApplySeq(env, EMPTY, arrivals[..i], p), a.ev, a.context, p, None, a.now).1 == None
  }

  /**
   * Every application order, at any clock readings, accepts all events of a compatible set and leaves exact
   * indexes.
   */
  lemma {:induction false} AnyOrderAccepts(env: Env, evs: set<Event>, clock: set<int>, arrivals: seq<Arrival>,
                                           p: Policy)
    requires Compatible(env, p, clock, evs) && !p.requireKnownPrev && Timely(arrivals, clock, evs)
    ensures var s := ApplySeq(env, EMPTY, arrivals, p);
      && Exact(env, s) && Within(s, evs)
      && (forall ev | ev in evs :: ev.id in s.events <==> ev in EventsOf(arrivals))
      && forall i | 0 <= i < |arrivals| :: AcceptedAt(env, arrivals, p, i)
    decreases |arrivals|
  {
    hide Exact, Compatible, Apply, EventsOf, Within;
    if arrivals == [] {
      EmptyOrder(env, evs);
    } else {
      var k := |arrivals| - 1;
      var init, a := arrivals[..k], arrivals[k];
      AnyOrderAccepts(env, evs, clock, init, p);
      var s := ApplySeq(env, EMPTY, init, p);
      ApplyCompatible(env, s, evs, a.ev, a.context, p, clock, a.now);
      forall i | 0 <= i < |arrivals| ensures AcceptedAt(env, arrivals, p, i) {
        if i < k {
          assert AcceptedAt(env, init, p, i);
          assert arrivals[..i] == init[..i] && arrivals[i] == init[i];
        } else {
          assert arrivals[..i] == init;
        }
      }
      CompatibleLinks(env, p, clock, evs);
      assert arrivals == init + [a];
      EventsOfMore(init, a);
      IdsDecide(evs, EventsOf(init), a.ev, s);
    }
  }

  lemma EmptyOrder(env: Env, evs: set<Event>)
    ensures Exact(env, EMPTY) && Within(EMPTY, evs) && EventsOf([]) == {}
  {
    EmptyExact(env);
  }

  lemma IdsDecide(evs: set<Event>, seen: set<Event>, last: Event, s: LState)
    requires LinkConsistent(evs) && last in evs
    requires forall ev | ev in evs :: ev.id in s.events <==> ev in seen
    ensures forall ev | ev in evs :: ev.id in s.events[last.id := last] <==> ev in seen + {last}
  {
  }

  /** Two application orders of the same compatible events end with the same events and the same indexes. */
  lemma OrderIndependence(env: Env, evs: set<Event>, clock: set<int>, one: seq<Arrival>, other: seq<Arrival>, p: Policy)
    requires Compatible(env, p, clock, evs) && !p.requireKnownPrev
    requires Timely(one, clock, evs) && EventsOf(one) == evs
    requires Timely(other, clock, evs) && EventsOf(other) == evs
    ensures var s, t := ApplySeq(env, EMPTY, one, p), ApplySeq(env, EMPTY, other, p);
      && s.events == t.events && s.authorSeq == t.authorSeq && s.missing == t.missing && s.marks == t.marks
      && s.events.Values == evs
  {
    hide Exact, ApplySeq, AcceptedAt, Compatible, Within, EventsOf, Timely;
    AnyOrderAccepts(env, evs, clock, one, p);
    AnyOrderAccepts(env, evs, clock, other, p);
    var s, t := ApplySeq(env, EMPTY, one, p), ApplySeq(env, EMPTY, other, p);
    CompatibleLinks(env, p, clock, evs);
    SameContents(env, s, t, evs);
    ExactIsUnique(env, s, t);
  }

  lemma CompatibleLinks(env: Env, p: Policy, clock: set<int>, evs: set<Event>)
    requires Compatible(env, p, clock, evs)
    ensures LinkConsistent(evs)
  {
  }

  lemma SameContents(env: Env, s: LState, t: LState, evs: set<Event>)
    requires Exact(env, s) && Exact(env, t) && Within(s, evs) && Within(t, evs) && LinkConsistent(evs)
    requires forall ev | ev in evs :: ev.id in s.events && ev.id in t.events
    ensures s.events == t.events && s.events.Values == evs
  {
    hide Exact, Within, LinkConsistent;
    ContentsAre(env, s, evs);
    ContentsAre(env, t, evs);
    forall id ensures id in s.events <==> id in t.events {
    }
    forall id | id in s.events ensures s.events[id] == t.events[id] {
      IdentifierDecides(evs, s.events[id], t.events[id]);
    }
  }

  lemma IdentifierDecides(evs: set<Event>, a: Event, b: Event)
    requires LinkConsistent(evs) && a in evs && b in evs && a.id == b.id
    ensures a == b
  {
  }

  lemma ContentsAre(env: Env, s: LState, evs: set<Event>)
    requires Exact(env, s) && Within(s, evs) && LinkConsistent(evs)
    requires forall ev | ev in evs :: ev.id in s.events
    ensures s.events.Values == evs
    ensures forall id :: id in s.events <==> exists ev :: ev in evs && ev.id == id
    ensures forall id | id in s.events :: s.events[id] in evs && s.events[id].id == id
  {
    hide MissingExact, MarksExact, AuthorSound, AuthorComplete;
    forall ev | ev in evs ensures ev in s.events.Values {
      assert s.events[ev.id] in evs && s.events[ev.id].id == ev.id;
      assert s.events[ev.id] == ev;
    }
  }
}
