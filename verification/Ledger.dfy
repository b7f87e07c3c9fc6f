/** The ledger object: its map fields are updated in place by every operation. */
module Ledger {
  import opened Confirmation
  import opened FiniteSums
  import opened LedgerIndexes
  import opened LedgerModel
  import opened Results
  import opened Retention
  import opened SnapshotReload
  import opened Sorting
  import opened Strings

  class Ledger {
    const env: Env
    var events: map<string, Event>
    var heads: set<string>
    var authorSeq: map<(string, nat), string>
    var missingRefs: map<string, nat>
    var compromised: set<string>
    var marks: set<Mark>
    var anchors: seq<Anchor>

    function State(): (s: LState)
      reads this
    {
      LState(events, heads, authorSeq, missingRefs, compromised, marks, anchors)
    }

    /** Every event is stored under its own identifier. */
    ghost predicate Valid()
      reads this
    {
      Keyed(events)
    }

    constructor (env: Env)
      ensures this.env == env && State() == EMPTY && Valid()
    {
      this.env := env;
      events, heads, authorSeq, missingRefs, compromised, marks, anchors := map[], {}, map[], map[], {}, {}, [];
    }

    // -------------------------------------------------------------- storing one event

    method BumpMissing(x: string)
      modifies this`missingRefs
      ensures missingRefs == if x in events then old(missingRefs) else Bump(old(missingRefs), x)
    {
      if x !in events {
        var n := if x in missingRefs then missingRefs[x] else 0;
        missingRefs := missingRefs[x := n + 1];
      }
    }

    /** Counts the references of a newly stored event that are not stored. */
    method TrackMissingRefs(ev: Event, requireKnownPrev: bool)
      requires requireKnownPrev && ev.seqNo > 1 ==> ev.prev in events
      modifies this`missingRefs
      ensures missingRefs == Track(old(missingRefs), events, Refs(env, ev))
    {
      hide Track, Bump, AttestedId;
      ghost var m := missingRefs;
      ghost var link := if ev.seqNo > 1 && ev.prev != "" then [ev.prev] else [];
      if ev.seqNo > 1 && ev.prev != "" && !requireKnownPrev {
        BumpMissing(ev.prev);
      }
      assert missingRefs == Track(m, events, link) by { TrackOne(m, events, ev.prev); }
      assert link + ev.parents[..0] == link;
      for i := 0 to |ev.parents|
        invariant missingRefs == Track(m, events, link + ev.parents[..i])
      {
        TrackAppend(m, events, link + ev.parents[..i], ev.parents[i]);
        assert link + ev.parents[..i + 1] == link + ev.parents[..i] + [ev.parents[i]];
        BumpMissing(ev.parents[i]);
      }
      assert ev.parents[..|ev.parents|] == ev.parents;
      var attested := AttestedId(env, ev);
      OneAttested(env, ev);
      if |attested| > 0 {
        TrackAppend(m, events, link + ev.parents, attested[0]);
        assert Refs(env, ev) == link + ev.parents + [attested[0]];
        BumpMissing(attested[0]);
      } else {
        assert Refs(env, ev) == link + ev.parents;
      }
    }

    method IndexEvent(ev: Event)
      modifies this`marks
      ensures marks == if MarkOf(env, ev).Some? then old(marks) + {MarkOf(env, ev).value} else old(marks)
    {
      var mark := MarkOf(env, ev);
      if mark.Some? {
        marks := marks + {mark.value};
      }
    }

    /** Takes referenced events off the heads and makes a head-affecting event one. */
    method UpdateHeads(ev: Event)
      modifies this`heads
      ensures heads == Heads(old(heads), ev)
    {
      if AffectsHeads(ev.kind) {
        if ev.prev != "" {
          heads := heads - {ev.prev};
        }
        ghost var h := heads;
        for i := 0 to |ev.parents|
          invariant heads == h - set p | p in ev.parents[..i]
        {
          heads := heads - {ev.parents[i]};
        }
        assert ev.parents[..|ev.parents|] == ev.parents;
        heads := heads + {ev.id};
      }
    }

    method StoreEvent(ev: Event, requireKnownPrev: bool)
      requires Valid()
      requires requireKnownPrev && ev.seqNo > 1 ==> ev.prev in events
      modifies this
      ensures Valid() && State() == Stored(env, old(State()), ev)
    {
      hide Track, Refs, MarkOf, Heads;
      authorSeq := authorSeq[(ev.author, ev.seqNo as nat) := ev.id];
      events := events[ev.id := ev];
      missingRefs := missingRefs - {ev.id};
      IndexEvent(ev);
      TrackMissingRefs(ev, requireKnownPrev);
      UpdateHeads(ev);
    }

    method AddLocked(ev: Event, requireKnownPrev: bool) returns (refusal: Option<Refusal>)
      requires Valid()
      modifies this
      ensures Valid() && (State(), refusal) == LedgerModel.AddLocked(env, old(State()), ev, requireKnownPrev)
    {
      hide Stored;
      if ev.id in events {
        return None;
      }
      if ev.seqNo > 1 && requireKnownPrev && ev.prev !in events {
        return Some(PrevNotFound);
      }
      if Conflicts(State(), ev) {
        return Some(SeqConflict);
      }
      StoreEvent(ev, requireKnownPrev);
      return None;
    }

    /** The path that reloads snapshots: no policy, but links and conflicts are checked. */
    method Add(ev: Event) returns (refusal: Option<Refusal>)
      requires Valid()
      modifies this
      ensures Valid() && (State(), refusal) == AddEvent(env, old(State()), ev)
    {
      hide Stored, Validates;
      if !Validates(env, ev) {
        return Some(Rejected(Malformed));
      }
      if ev.id in events {
        return None;
      }
      if Conflicts(State(), ev) {
        return Some(SeqConflict);
      }
      var fault := LinkFault(State(), ev);
      if fault.Some? {
        return fault;
      }
      StoreEvent(ev, false);
      return None;
    }

    // -------------------------------------------------------------- own events

    /** The author's highest sequence number and the event that carries it. */
    method HighestSeq(author: string) returns (max: nat, maxId: string)
      ensures max == MaxOf(SeqsOf(State(), author))
      ensures max > 0 ==> (author, max) in authorSeq && authorSeq[(author, max)] == maxId
    {
      hide MaxOf, SeqsOf;
      max, maxId := 0, "";
      var rest: set<(string, nat)> := authorSeq.Keys;
      while rest != {}
        invariant rest <= authorSeq.Keys
        invariant forall k | k in authorSeq.Keys - rest && k.0 == author :: k.1 <= max
        invariant max > 0 ==> (author, max) in authorSeq && authorSeq[(author, max)] == maxId
        decreases rest
      {
        var k: (string, nat) :| k in rest;
        rest := rest - {k};
        if k.0 == author && k.1 > max {
          max, maxId := k.1, authorSeq[k];
        }
      }
      MaxIs(State(), author, max);
    }

    method NextSeq(author: string) returns (link: (U64, string), parents: seq<string>)
      ensures link == NextLink(State(), author) && parents == NextParents(State())
    {
      hide SortedSet, Sort, MaxOf, SeqsOf;
      var max, maxId := HighestSeq(author);
      link := (1, "");
      if max > 0 {
        link := ((max + 1) % TWO_64, maxId);
      }
      var all := Enumerate(heads);
      HeadOrder(all, heads);
      parents := Sort(all, Less);
      if |parents| > MAX_PARENTS {
        parents := parents[..MAX_PARENTS];
      }
    }

    /** Trims, drops blanks and repetitions, sorts. */
    static method NormalizeIds(ids: seq<string>) returns (r: seq<string>)
      ensures r == Normalized(ids)
    {
      hide TrimSpace, Sort, SortedSet;
      var out: seq<string> := [];
      for i := 0 to |ids|
        invariant Distinct(out) && Elements(out) == Trims(Elements(ids[..i])) - {""}
      {
        var id := TrimSpace(ids[i]);
        assert Elements(ids[..i + 1]) == Elements(ids[..i]) + {ids[i]};
        assert Elements(out + [id]) == Elements(out) + {id};
        if id != "" && id !in out {
          out := out + [id];
        }
      }
      assert ids[..|ids|] == ids;
      HeadOrder(out, Elements(out));
      r := Sort(out, Less);
    }

    /** Signs, validates and stores an own event. */
    method EmitOwn(p: Policy, obs: Observer, kind: string, payload: Payload, now: int)
      requires Valid()
      modifies this
      ensures Valid() && State() == Emit(env, old(State()), p, obs, kind, payload, now)
    {
      hide LedgerModel.AddLocked, Acceptable, NextLink, NextParents, Normalized;
      var link, heads := NextSeq(obs.author);
      var parents := NormalizeIds(heads);
      var ev := Draft(env, obs, link, parents, kind, payload, now);
      if obs.valid && Acceptable(env, p, now, ev) {
        var ignored := AddLocked(ev, false);
      }
    }

    method AutoWitnessAfterApply(ev: Event, context: string, p: Policy, obs: Option<Observer>, now: int)
      requires Valid()
      modifies this
      ensures Valid() && State() == AutoWitness(env, old(State()), ev, context, p, obs, now)
    {
      hide Emit, TrimSpace;
      if obs.None? || !obs.value.valid {
        return;
      }
      var ctx, o := TrimSpace(context), obs.value;
      if ctx == "" || p.trust.Weight(ctx, o.key) <= 0 || o.key in compromised {
        return;
      }
      if ev.kind in {KIND_WITNESS_ATTEST, KIND_WITNESS_CHECKPOINT, KIND_SYNC_SUMMARY} {
        return;
      }
      if !IsCriticalKind(ev.kind) {
        return;
      }
      if Attested(ev.id, ctx, o.key) !in marks {
        EmitOwn(p, o, KIND_WITNESS_ATTEST, Attestation(ev.id, ctx), now);
      }
      if !AffectsHeads(ev.kind) || heads == {} {
        return;
      }
      var h := env.headsHash(heads);
      if Checkpointed(ctx, h, o.key) in marks {
        return;
      }
      EmitOwn(p, o, KIND_WITNESS_CHECKPOINT, Checkpoint(ctx, h), now);
    }

    // -------------------------------------------------------------- applying events

    method InsertValidated(ev: Event, context: string, p: Policy, obs: Option<Observer>, now: int)
        returns (refusal: Option<Refusal>)
      requires Valid()
      modifies this
      ensures Valid() && (State(), refusal) == LedgerModel.Insert(env, old(State()), ev, context, p, obs, now)
    {
      hide Emit, AutoWitness, Stored;
      if ev.id in events {
        return None;
      }
      if Conflicts(State(), ev) {
        var id := authorSeq[(ev.author, ev.seqNo as nat)];
        compromised := compromised + (if id in events then {events[id].authorKey} else {""});
        compromised := compromised + {ev.authorKey};
        assert State() == Compromise(old(State()), ev);
        if obs.Some? {
          EmitOwn(p, obs.value, KIND_MISBEHAVIOR_EQUIVOC, Other, now);
        }
        return Some(Equivocation);
      }
      if ev.seqNo > 1 && p.requireKnownPrev && ev.prev !in events {
        return Some(PrevNotFound);
      }
      var fault := LinkFault(State(), ev);
      if fault.Some? {
        return fault;
      }
      refusal := AddLocked(ev, p.requireKnownPrev);
      AutoWitnessAfterApply(ev, context, p, obs, now);
    }

    /** Validates an event and inserts it; an outdated one may be reported by the observer. */
    method ApplyWithContext(ev: Event, context: string, p: Policy, obs: Option<Observer>, now: int)
        returns (refusal: Option<Refusal>)
      requires Valid()
      modifies this
      ensures Valid() && (State(), refusal) == Apply(env, old(State()), ev, context, p, obs, now)
    {
      hide Emit, LedgerModel.Insert, VerdictOf;
      var v := VerdictOf(env, p, now, ev);
      if v != Fine {
        if v == TooOld && obs.Some? && TrimSpace(context) != "" {
          EmitOwn(p, obs.value, KIND_MISBEHAVIOR_REPLAY, Other, now);
        }
        return Some(Rejected(v));
      }
      refusal := InsertValidated(ev, context, p, obs, now);
    }

    /** Like ApplyWithContext, but the caller has checked the signature. */
    method ApplyVerifiedWithContext(ev: Event, context: string, p: Policy, obs: Option<Observer>, now: int)
        returns (refusal: Option<Refusal>)
      requires Valid()
      modifies this
      ensures Valid() && (State(), refusal) == ApplyVerified(env, old(State()), ev, context, p, obs, now)
    {
      hide Emit, LedgerModel.Insert, NoCryptoVerdict;
      var v := NoCryptoVerdict(env, p, now, ev);
      if v != Fine {
        if v == TooOld && obs.Some? && TrimSpace(context) != "" {
          EmitOwn(p, obs.value, KIND_MISBEHAVIOR_REPLAY, Other, now);
        }
        return Some(Rejected(v));
      }
      if ev.id != env.contentId(ev) {
        return Some(Rejected(Malformed));
      }
      refusal := InsertValidated(ev, context, p, obs, now);
    }

    // -------------------------------------------------------------- rebuilding

    /** Marks every head-affecting event, then unmarks what such events refer to. */
    method RecomputeHeads()
      requires Valid()
      modifies this`heads
      ensures heads == RecomputedHeads(events)
    {
      hide AffectsHeads, HeadRefs;
      heads := {};
      var rest := events.Keys;
      while rest != {}
        invariant rest <= events.Keys
        invariant heads == set id | id in events && id !in rest && AffectsHeads(events[id].kind)
        decreases rest
      {
        var id :| id in rest;
        rest := rest - {id};
        if AffectsHeads(events[id].kind) {
          heads := heads + {id};
        }
      }
      rest := events.Keys;
      while rest != {}
        invariant rest <= events.Keys
        invariant forall id :: id in heads <==> StaysHead(events, rest, id)
        decreases rest
      {
        var other :| other in rest;
        ghost var before := rest;
        rest := rest - {other};
        if AffectsHeads(events[other].kind) {
          heads := heads - HeadRefs(events[other]);
        }
        forall id ensures ReferredOutside(events, rest, id) <==>
            ReferredOutside(events, before, id) || (AffectsHeads(events[other].kind) && id in HeadRefs(events[other])) {
          ReferredOneMore(events, before, other, id);
        }
      }
      assert heads == RecomputedHeads(events) by { RecomputedIs(events, heads); }
    }

    /** Clears the indexes and adds every event again; since the events are still stored, each addition is a no-op. */
    method Rebuild()
      requires Valid()
      modifies this
      ensures Valid() && State() == Rebuilt(old(State()), old(events))
    {
      hide Stored;
      var ids := Enumerate(events.Keys);
      authorSeq, heads, missingRefs, marks := map[], {}, map[], {};
      ghost var cleared := State();
      for i := 0 to |ids|
        invariant Valid() && State() == cleared
      {
        assert ids[i] in Elements(ids);
        var ignored := AddLocked(events[ids[i]], false);
      }
      RecomputeHeads();
    }

    // -------------------------------------------------------------- retention

    method ReferencedIds() returns (r: set<string>)
      ensures forall id :: id in r <==> Referenced(events, id)
    {
      hide HeadRefs;
      r := {};
      var rest := events.Keys;
      while rest != {}
        invariant rest <= events.Keys
        invariant forall id :: id in r <==> exists other ::
            other in events && other !in rest && id in HeadRefs(events[other])
        decreases rest
      {
        var other :| other in rest;
        rest := rest - {other};
        r := r + HeadRefs(events[other]);
      }
    }

    predicate Guarded(referenced: set<string>, pol: RetentionPolicy, id: string, ev: Event)
      reads this
    {
      id in heads || id in referenced || (pol.criticalOnly && IsCriticalKind(ev.kind))
    }

    /** Drops the expired events, in whatever order the map yields them. */
    method DropExpired(referenced: set<string>, pol: RetentionPolicy, now: int) returns (gone: seq<string>)
      requires forall id :: id in referenced <==> Referenced(events, id)
      modifies this`events
      ensures Distinct(gone) && Elements(gone) == Expired(old(State()), pol, now)
      ensures events == old(events) - Elements(gone)
    {
      hide Referenced, IsCriticalKind;
      ghost var s := State();
      gone := [];
      if pol.maxAge <= 0 {
        return;
      }
      var all, rest := events, events.Keys;
      while rest != {}
        invariant rest <= s.events.Keys && all == s.events && heads == s.heads
        invariant Distinct(gone) && Elements(gone) == Expired(s, pol, now) - rest
        invariant events == s.events - Elements(gone)
        decreases rest
      {
        var id :| id in rest;
        assert id !in Elements(gone);
        rest := rest - {id};
        if all[id].createdAt < now - pol.maxAge && !Guarded(referenced, pol, id, all[id]) {
          assert Elements(gone + [id]) == Elements(gone) + {id};
          gone := gone + [id];
          events := events - {id};
        }
      }
    }

    /** Walks the remaining events oldest first and drops unprotected ones until the size fits. */
    method DropSurplus(ghost s: LState, referenced: set<string>, pol: RetentionPolicy, ghost now: int)
        returns (gone: seq<string>)
      requires forall id :: id in referenced <==> Referenced(s.events, id)
      requires heads == s.heads && events == s.events - Expired(s, pol, now)
      modifies this`events
      ensures gone == Surplus(s, pol, now)
      ensures events == old(events) - Elements(gone)
    {
      hide *;
      gone := [];
      var all := events;
      RemainderSize(s, pol, now, all);
      if pol.maxEvents <= 0 || |events.Keys| <= pol.maxEvents {
        return;
      }
      var listed := Enumerate(events.Keys);
      var ids := Sort(listed, OlderFirst(all));
      RemainderSorted(s, pol, now, all, listed, ids);
      DroppingNothing(s, pol, ids, all);
      var i := 0;
      while i < |ids| && |events.Keys| > pol.maxEvents
        invariant 0 <= i <= |ids|
        invariant gone == Droppable(s, pol, ids[..i])
        invariant Dropping(all, gone, events)
        invariant |events.Keys| == |all.Keys| - |gone| && |events.Keys| >= pol.maxEvents
      {
        var id := ids[i];
        DroppableOne(s, pol, ids, i, all);
        RemainderHolds(s, pol, now, all, id);
        GuardedIs(s, referenced, pol, id, all[id]);
        if !(id in heads || id in referenced || (pol.criticalOnly && IsCriticalKind(all[id].kind))) {
          DropOne(all, gone, events, id);
          gone := gone + [id];
          events := events - {id};
        }
        i := i + 1;
      }
      SurplusReached(s, pol, now, all, ids, i, gone);
      DroppingEvents(all, gone, events);
    }

    /** The anchor over the dropped events, which arrive in no particular order. */
    method AnchorFor(ghost s: LState, before: map<string, Event>, gone: seq<string>, now: int) returns (a: Anchor)
      requires before == s.events && anchors == s.anchors
      requires Elements(gone) != {} && Distinct(gone) && Elements(gone) <= before.Keys
      ensures a == AnchorOf(env, s, Elements(gone), now)
    {
      hide SortedSet, Sort, OlderFirst, Distinct;
      assert forall k | 0 <= k < |gone| :: gone[k] in Elements(gone);
      var first, last := before[gone[0]].createdAt, before[gone[0]].createdAt;
      for i := 0 to |gone|
        invariant forall k | 0 <= k < i :: first <= before[gone[k]].createdAt <= last
        invariant exists k | 0 <= k < |gone| :: before[gone[k]].createdAt == first
        invariant exists k | 0 <= k < |gone| :: before[gone[k]].createdAt == last
      {
        if before[gone[i]].createdAt < first {
          first := before[gone[i]].createdAt;
        }
        if before[gone[i]].createdAt > last {
          last := before[gone[i]].createdAt;
        }
      }
      var ids := Sort(gone, OlderFirst(before));
      GoneSorted(before, gone, ids);
      Extremes(before, gone, ids, first, last);
      var prev := if |anchors| == 0 then "" else anchors[|anchors| - 1].anchorHash;
      var root := env.rootHash(ids);
      a := Anchor(SCHEMA_V1, now, |gone|, first, last, root, prev,
          env.anchorHash(prev, root, |gone|, first, last, now));
    }

    /** Applies the age limit, then the size limit, anchors what was dropped and rebuilds. */
    method ApplyRetention(now: int, pol: RetentionPolicy) returns (count: nat)
      requires Valid()
      modifies this
      ensures Valid() && State() == Retain(env, old(State()), pol, now)
      ensures count == if pol.maxEvents <= 0 && pol.maxAge <= 0 then 0 else |Pruned(old(State()), pol, now)|
    {
      hide Retain, Pruned, Surplus, Expired, AnchorOf, RecomputedHeads, Referenced, Distinct, Elements;
      ghost var s := State();
      RetainCases(env, s, pol, now);
      if pol.maxEvents <= 0 && pol.maxAge <= 0 {
        return 0;
      }
      var before := events;
      var referenced := ReferencedIds();
      var expired := DropExpired(referenced, pol, now);
      ghost var left := events;
      var surplus := DropSurplus(s, referenced, pol, now);
      var gone := expired + surplus;
      GoneIsPruned(s, pol, now, expired, surplus, left, events);
      count := |gone|;
      if count > 0 {
        var a := AnchorFor(s, before, gone, now);
        anchors := anchors + [a];
        Rebuild();
      }
    }

    /** Drops the outdated events of short-lived kinds that are neither heads nor referenced. */
    method DropOutdated(referenced: set<string>, p: Policy, now: int) returns (count: nat)
      requires forall id :: id in referenced <==> Referenced(events, id)
      modifies this`events
      ensures events == old(events) - PrunedByKind(old(State()), p, now)
      ensures count == |PrunedByKind(old(State()), p, now)|
    {
      hide Referenced, PrunedByKind, RetainByKind, Outdated;
      ghost var s := State();
      PrunedByKindIs(s, p, now);
      count := 0;
      var all, rest := events, events.Keys;
      ghost var gone: set<string> := {};
      while rest != {}
        invariant rest <= all.Keys && events == all - gone && heads == s.heads
        invariant gone <= all.Keys - rest && count == |gone|
        invariant forall id | id in all && id !in rest :: id in gone <==> id in PrunedByKind(s, p, now)
        decreases rest
      {
        var id :| id in rest;
        rest := rest - {id};
        if Outdated(p, now, all[id]) && id !in heads && id !in referenced {
          gone := gone + {id};
          events := events - {id};
          count := count + 1;
        }
      }
      assert gone == PrunedByKind(s, p, now);
    }

    /** Drops outdated events of short-lived kinds and rebuilds. */
    method Prune(now: int, p: Policy) returns (count: nat)
      requires Valid()
      modifies this
      ensures Valid() && State() == RetainByKind(old(State()), p, now)
      ensures count == |PrunedByKind(old(State()), p, now)|
    {
      hide Referenced, PrunedByKind, RetainByKind, RecomputedHeads;
      PrunedByKindIs(State(), p, now);
      if |p.retentionByKind| == 0 {
        return 0;
      }
      var referenced := ReferencedIds();
      count := DropOutdated(referenced, p, now);
      if count > 0 {
        Rebuild();
      }
    }

    // -------------------------------------------------------------- reading

    /** Adds up witness weights in arbitrary order and stops as soon as the threshold is reached. */
    method Confirmed(id: string, ctx: string, p: Policy) returns (score: int, ok: bool)
      ensures ok <==> IsConfirmed(State(), id, ctx, p.trust)
      ensures ok ==> p.trust.Threshold(ctx) <= score <= Score(State(), id, ctx, p.trust)
      ensures !ok && p.trust.Threshold(ctx) > 0 && id in events ==> score == Score(State(), id, ctx, p.trust)
    {
      hide Sum, Witnesses;
      ghost var s := State();
      ghost var f := PositiveWeight(p.trust, ctx);
      SumOfNothing(f);
      score, ok := 0, false;
      var threshold := p.trust.Threshold(ctx);
      if threshold <= 0 || id !in events {
        return;
      }
      var rest := Witnesses(State(), id, ctx);
      ghost var counted: set<string> := {};
      while rest != {}
        invariant rest <= Witnesses(s, id, ctx)
        invariant counted == Honest(s, id, ctx) - rest
        invariant score == Sum(counted, f) && score < threshold
        decreases rest
      {
        var key :| key in rest;
        rest := rest - {key};
        if key !in compromised {
          SumInsert(counted, f, key);
          counted := counted + {key};
          var w := p.trust.Weight(ctx, key);
          if w > 0 {
            score := score + w;
            if score >= threshold {
              SumMonotone(counted, Honest(s, id, ctx), f);
              return score, true;
            }
          }
        }
      }
      assert counted == Honest(s, id, ctx);
    }

    /** The events oldest first, the heads in order, and the anchors. */
    method TakeSnapshot() returns (snap: Snapshot)
      ensures snap == SnapshotOf(State())
    {
      hide SortedSet, Sort, OlderFirst;
      var listed := Enumerate(events.Keys);
      var ids := Sort(listed, OlderFirst(events));
      GoneSorted(events, listed, ids);
      var evs: seq<Event> := [];
      for i := 0 to |ids|
        invariant |evs| == i
        invariant forall k | 0 <= k < i :: ids[k] in events && evs[k] == events[ids[k]]
      {
        assert ids[i] in Elements(ids);
        evs := evs + [events[ids[i]]];
      }
      var tips := Enumerate(heads);
      HeadOrder(tips, heads);
      snap := Snapshot(SCHEMA_V1, evs, Sort(tips, Less), anchors);
    }

    /** Adds events to an empty ledger one by one and stops at the first refusal. */
    static method AddAll(env: Env, es: seq<Event>) returns (l: Ledger, refusal: Option<Refusal>)
      ensures fresh(l) && l.env == env && l.Valid() && refusal == LoadAll(env, EMPTY, es).1
      ensures refusal == None ==> l.State() == LoadAll(env, EMPTY, es).0
    {
      hide LoadAll, AddEvent;
      l := new Ledger(env);
      LoadNone(env, es);
      for i := 0 to |es|
        invariant fresh(l) && l.env == env && l.Valid() && (l.State(), None) == LoadAll(env, EMPTY, es[..i])
      {
        LoadMore(env, es, i);
        refusal := l.Add(es[i]);
        if refusal.Some? {
          LoadStops(env, es, i + 1, refusal);
          return;
        }
      }
      refusal := None;
    }

    /** Takes over the listed heads that are stored, or recomputes the heads if there are none. */
    method RestoreHeads(listed: seq<string>)
      requires Valid()
      modifies this`heads
      ensures var known := set h | h in listed && h != "" && h in events;
        heads == if known == {} then RecomputedHeads(events) else known
    {
      hide RecomputedHeads, Keyed;
      heads := {};
      for i := 0 to |listed|
        invariant heads == set h | h in listed[..i] && h != "" && h in events
      {
        var h := listed[i];
        if h != "" && h in events {
          heads := heads + {h};
        }
      }
      assert listed[..|listed|] == listed;
      if heads == {} {
        RecomputeHeads();
      }
    }

    /** Adds the events of a snapshot, then restores heads and anchors. */
    static method FromSnapshot(env: Env, snap: Snapshot) returns (r: Result<Ledger, Refusal>)
      ensures r.Ok? <==> Load(env, snap).Ok?
      ensures r.Ok? ==> fresh(r.value) && r.value.env == env && r.value.Valid()
      ensures r.Ok? ==> r.value.State() == Load(env, snap).value
      ensures r.Err? ==> r.error == Load(env, snap).error
    {
      hide LoadAll, RecomputedHeads, Keyed;
      if snap.schema != 0 && snap.schema != SCHEMA_V1 {
        return Err(Rejected(Malformed));
      }
      var l, refusal := AddAll(env, snap.events);
      if refusal.Some? {
        return Err(refusal.value);
      }
      if |snap.heads| > 0 {
        l.RestoreHeads(snap.heads);
      }
      if |snap.anchors| > 0 {
        l.anchors := snap.anchors;
      }
      return Ok(l);
    }
  }

  lemma LoadNone(env: Env, es: seq<Event>)
    ensures LoadAll(env, EMPTY, es[..0]) == (EMPTY, None) && es[..|es|] == es
  {
    hide AddEvent;
  }

  lemma LoadMore(env: Env, es: seq<Event>, i: nat)
    requires i < |es| && LoadAll(env, EMPTY, es[..i]).1 == None
    ensures LoadAll(env, EMPTY, es[..i + 1]) == AddEvent(env, LoadAll(env, EMPTY, es[..i]).0, es[i])
  {
    hide AddEvent;
    assert es[..i + 1][..i] == es[..i];
  }

  // ---------------------------------------------------------------- facts about the retention loops

  predicate Outdated(p: Policy, now: int, ev: Event) {
    ev.kind in p.retentionByKind && p.retentionByKind[ev.kind] > 0 && ev.createdAt < now - p.retentionByKind[ev.kind]
  }

  lemma PrunedByKindIs(s: LState, p: Policy, now: int)
    ensures PrunedByKind(s, p, now) <= s.events.Keys
    ensures forall id | id in s.events ::
      id in PrunedByKind(s, p, now) <==> Outdated(p, now, s.events[id]) && id !in s.heads && !Referenced(s.events, id)
    ensures |p.retentionByKind| == 0 ==> PrunedByKind(s, p, now) == {}
    ensures PrunedByKind(s, p, now) == {} ==> RetainByKind(s, p, now) == s
    ensures PrunedByKind(s, p, now) != {} ==> RetainByKind(s, p, now) == Rebuilt(s, s.events - PrunedByKind(s, p, now))
  {
    hide Referenced, Rebuilt;
  }

  lemma GoneSorted(events: map<string, Event>, gone: seq<string>, ids: seq<string>)
    requires Distinct(gone) && Elements(gone) <= events.Keys && ids == Sort(gone, OlderFirst(events))
    ensures ids == SortedSet(Elements(gone), OlderFirst(events)) && |ids| == |gone|
  {
    hide WeakOrder, TotalOn;
    OlderFirstIsOrder(events);
    SubsetTotal(Elements(gone), events);
    SortForgetsOrder(gone, Elements(gone), OlderFirst(events));
  }

  /** The first and last of the sorted events carry the smallest and largest creation time. */
  lemma Extremes(events: map<string, Event>, gone: seq<string>, ids: seq<string>, first: int, last: int)
    requires gone != [] && Elements(gone) <= events.Keys && ids == SortedSet(Elements(gone), OlderFirst(events))
    requires forall k | 0 <= k < |gone| :: gone[k] in events && first <= events[gone[k]].createdAt <= last
    requires exists k | 0 <= k < |gone| :: events[gone[k]].createdAt == first
    requires exists k | 0 <= k < |gone| :: events[gone[k]].createdAt == last
    ensures ids != [] && ids[0] in events && events[ids[0]].createdAt == first
    ensures ids[|ids| - 1] in events && events[ids[|ids| - 1]].createdAt == last
  {
    hide SortedSet, WeakOrder, Less;
    var less := OlderFirst(events);
    OlderFirstIsOrder(events);
    SortedSetOrdered(Elements(gone), less);
    var i :| 0 <= i < |gone| && events[gone[i]].createdAt == first;
    var j :| 0 <= j < |gone| && events[gone[j]].createdAt == last;
    assert gone[i] in Elements(ids) && gone[j] in Elements(ids);
    var a :| 0 <= a < |ids| && ids[a] == gone[i];
    var b :| 0 <= b < |ids| && ids[b] == gone[j];
    assert ids[0] in Elements(gone) && ids[|ids| - 1] in Elements(gone) by {
      assert ids[0] in Elements(ids) && ids[|ids| - 1] in Elements(ids);
    }
    OrderLaws(less, ids[a], ids[a], ids[a]);
    OrderLaws(less, ids[b], ids[b], ids[b]);
    assert !less(ids[a], ids[0]) && !less(ids[|ids| - 1], ids[b]);
    assert CreatedAt(events, ids[a]) >= CreatedAt(events, ids[0]);
    assert CreatedAt(events, ids[|ids| - 1]) >= CreatedAt(events, ids[b]);
    var c :| 0 <= c < |gone| && gone[c] == ids[0];
    var d :| 0 <= d < |gone| && gone[d] == ids[|ids| - 1];
  }

  lemma RetainCases(env: Env, s: LState, pol: RetentionPolicy, now: int)
    ensures Pruned(s, pol, now) <= s.events.Keys
    ensures (pol.maxEvents <= 0 && pol.maxAge <= 0) || Pruned(s, pol, now) == {} ==> Retain(env, s, pol, now) == s
    ensures (pol.maxEvents > 0 || pol.maxAge > 0) && Pruned(s, pol, now) != {} ==>
      Retain(env, s, pol, now) ==
        Rebuilt(s, s.events - Pruned(s, pol, now)).(anchors := s.anchors + [AnchorOf(env, s, Pruned(s, pol, now), now)])
  {
    hide Pruned, Rebuilt, AnchorOf;
    PrunedStored(s, pol, now);
  }

  lemma GoneIsPruned(s: LState, pol: RetentionPolicy, now: int, expired: seq<string>, surplus: seq<string>,
                     left: map<string, Event>, events: map<string, Event>)
    requires Distinct(expired) && Elements(expired) == Expired(s, pol, now) && surplus == Surplus(s, pol, now)
    requires left == s.events - Elements(expired) && events == left - Elements(surplus)
    ensures Distinct(expired + surplus) && Elements(expired + surplus) == Pruned(s, pol, now)
    ensures |expired + surplus| == |Pruned(s, pol, now)| && events == s.events - Pruned(s, pol, now)
  {
    hide Expired, Surplus, Distinct;
    SurplusApart(s, pol, now, surplus);
    JoinDistinct(expired, surplus);
    DistinctSize(expired + surplus);
    assert Elements(expired + surplus) == Elements(expired) + Elements(surplus);
  }

  lemma SurplusApart(s: LState, pol: RetentionPolicy, now: int, surplus: seq<string>)
    requires surplus == Surplus(s, pol, now)
    ensures Distinct(surplus) && Elements(surplus) !! Expired(s, pol, now)
  {
    hide Expired, Protected, Candidates;
    forall x | x in surplus ensures x !in Expired(s, pol, now) {
      assert x in Elements(Candidates(s, pol, now));
    }
  }

  lemma JoinDistinct(a: seq<string>, b: seq<string>)
    requires Distinct(a) && Distinct(b) && Elements(a) !! Elements(b)
    ensures Distinct(a + b)
  {
    forall i, j | 0 <= i < j < |a + b| ensures (a + b)[i] != (a + b)[j] {
      if i < |a| <= j {
        assert a[i] in Elements(a) && b[j - |a|] in Elements(b);
      }
    }
  }

  /** `events` is what dropping `gone` leaves of `all`. */
  ghost predicate Dropping(all: map<string, Event>, gone: seq<string>, events: map<string, Event>) {
    Distinct(gone) && Elements(gone) <= all.Keys && events == all - Elements(gone)
  }

  lemma DroppingNothing(s: LState, pol: RetentionPolicy, ids: seq<string>, all: map<string, Event>)
    ensures Dropping(all, [], all) && Droppable(s, pol, ids[..0]) == []
  {
    hide Protected;
  }

  lemma DroppingEvents(all: map<string, Event>, gone: seq<string>, events: map<string, Event>)
    requires Dropping(all, gone, events)
    ensures events == all - Elements(gone)
  {
  }

  lemma DropOne(all: map<string, Event>, gone: seq<string>, events: map<string, Event>, id: string)
    requires Dropping(all, gone, events) && id in all && id !in gone
    ensures Dropping(all, gone + [id], events - {id}) && |(events - {id}).Keys| == |events.Keys| - 1
  {
    assert Elements(gone + [id]) == Elements(gone) + {id};
    assert (events - {id}).Keys == events.Keys - {id};
    assert id in events;
  }

  lemma RemainderSize(s: LState, pol: RetentionPolicy, now: int, all: map<string, Event>)
    requires all == s.events - Expired(s, pol, now)
    ensures all.Keys == s.events.Keys - Expired(s, pol, now)
    ensures pol.maxEvents <= 0 || |all.Keys| <= pol.maxEvents ==>
        Surplus(s, pol, now) == [] && all == all - Elements([])
  {
    hide Expired, Candidates;
    assert all.Keys == s.events.Keys - Expired(s, pol, now);
  }

  lemma RemainderHolds(s: LState, pol: RetentionPolicy, now: int, all: map<string, Event>, id: string)
    requires all == s.events - Expired(s, pol, now) && id in all
    ensures id in s.events && s.events[id] == all[id]
  {
    hide Expired;
  }

  /** The walk stopped exactly where the surplus ends. */
  lemma SurplusReached(s: LState, pol: RetentionPolicy, now: int, all: map<string, Event>, ids: seq<string>, i: nat,
                       gone: seq<string>)
    requires all.Keys == s.events.Keys - Expired(s, pol, now) && pol.maxEvents > 0 && |all.Keys| > pol.maxEvents
    requires ids == SortedSet(s.events.Keys - Expired(s, pol, now), OlderFirst(s.events)) && i <= |ids|
    requires gone == Droppable(s, pol, ids[..i]) && |all.Keys| - |gone| >= pol.maxEvents
    requires i == |ids| || |all.Keys| - |gone| == pol.maxEvents
    ensures gone == Surplus(s, pol, now)
  {
    hide Expired, Candidates, SortedSet, OlderFirst, Droppable;
    DroppableIsCandidates(s, pol, now, ids);
    DroppablePrefix(s, pol, ids, i);
    if i == |ids| {
      assert ids[..i] == ids;
    }
    assert |gone| <= Excess(s, pol, now);
  }

  lemma DroppableOne(s: LState, pol: RetentionPolicy, ids: seq<string>, i: nat, all: map<string, Event>)
    requires i < |ids| && Distinct(ids) && Elements(ids) == all.Keys
    ensures ids[i] in all && ids[i] !in Droppable(s, pol, ids[..i])
    ensures Droppable(s, pol, ids[..i + 1]) == Droppable(s, pol, ids[..i]) + if Protected(s, pol, ids[i])
        then [] else [ids[i]]
  {
    hide Protected;
    assert ids[..i + 1][..i] == ids[..i];
    assert ids[i] in Elements(ids);
  }

  lemma GuardedIs(s: LState, referenced: set<string>, pol: RetentionPolicy, id: string, ev: Event)
    requires forall x :: x in referenced <==> Referenced(s.events, x)
    requires id in s.events && s.events[id] == ev
    ensures Protected(s, pol, id) <==>
      id in s.heads || id in referenced || (pol.criticalOnly && IsCriticalKind(ev.kind))
  {
    hide Referenced, IsCriticalKind;
  }

  lemma RemainderSorted(s: LState, pol: RetentionPolicy, now: int, all: map<string, Event>, listed: seq<string>,
                        ids: seq<string>)
    requires all == s.events - Expired(s, pol, now) && Distinct(listed) && Elements(listed) == all.Keys
    requires ids == Sort(listed, OlderFirst(all))
    ensures ids == SortedSet(s.events.Keys - Expired(s, pol, now), OlderFirst(s.events))
    ensures Distinct(ids) && Elements(ids) == all.Keys
  {
    hide Expired, WeakOrder, TotalOn;
    OlderFirstIsOrder(s.events);
    SubsetTotal(all.Keys, s.events);
    SortForgetsOrder(listed, all.Keys, OlderFirst(s.events));
    SameComparisons(s.events, all, listed);
    DistinctPermutation(listed, ids);
    SameElements(listed, ids);
  }

  /** Sorting only compares elements of the list, so the smaller map orders them alike. */
  lemma {:induction false} SameComparisons(events: map<string, Event>, some: map<string, Event>, ids: seq<string>)
    requires (forall id | id in some :: id in events && events[id] == some[id]) && forall id | id in ids :: id in some
    ensures Sort(ids, OlderFirst(some)) == Sort(ids, OlderFirst(events))
  {
    if ids != [] {
      var init, last := ids[..|ids| - 1], ids[|ids| - 1];
      SameComparisons(events, some, init);
      var r := Sort(init, OlderFirst(some));
      SameElements(init, r);
      forall id | id in r ensures id in some {
        assert id in Elements(init);
      }
      SameInsertions(events, some, last, r);
    }
  }

  lemma {:induction false} SameInsertions(events: map<string, Event>, some: map<string, Event>, x: string,
                                          ids: seq<string>)
    requires (forall id | id in some :: id in events && events[id] == some[id]) && x in some
        && forall id | id in ids :: id in some
    ensures Sorting.Insert(x, ids, OlderFirst(some)) == Sorting.Insert(x, ids, OlderFirst(events))
  {
    if ids != [] {
      var init, last := ids[..|ids| - 1], ids[|ids| - 1];
      assert last in ids && forall id | id in init :: id in ids;
      SameInsertions(events, some, x, init);
      assert CreatedAt(some, x) == CreatedAt(events, x) && CreatedAt(some, last) == CreatedAt(events, last);
      assert OlderFirst(some)(x, last) == OlderFirst(events)(x, last);
    }
  }

  // ---------------------------------------------------------------- supporting facts

  ghost predicate ReferredOutside(events: map<string, Event>, rest: set<string>, id: string) {
    exists other :: other in events && other !in rest && AffectsHeads(events[other].kind)
        && id in HeadRefs(events[other])
  }

  /** Head-affecting, and not referred to by the head-affecting events visited so far. */
  ghost predicate StaysHead(events: map<string, Event>, rest: set<string>, id: string) {
    id in events && AffectsHeads(events[id].kind) && !ReferredOutside(events, rest, id)
  }

  lemma ReferredOneMore(events: map<string, Event>, before: set<string>, other: string, id: string)
    requires other in before && other in events
    ensures ReferredOutside(events, before - {other}, id) <==>
      ReferredOutside(events, before, id) || (AffectsHeads(events[other].kind) && id in HeadRefs(events[other]))
  {
    hide AffectsHeads, HeadRefs;
  }

  lemma RecomputedIs(events: map<string, Event>, heads: set<string>)
    requires forall id :: id in heads <==> StaysHead(events, {}, id)
    ensures heads == RecomputedHeads(events)
  {
    hide AffectsHeads, HeadRefs;
    forall id ensures id in heads <==> id in RecomputedHeads(events) {
    }
  }

  lemma MaxIs(s: LState, author: string, max: nat)
    requires forall k | k in s.authorSeq && k.0 == author :: k.1 <= max
    requires max > 0 ==> (author, max) in s.authorSeq
    ensures max == MaxOf(SeqsOf(s, author))
  {
    if max > 0 {
      assert max in SeqsOf(s, author);
    }
  }

  lemma HeadOrder(all: seq<string>, heads: set<string>)
    requires Distinct(all) && Elements(all) == heads
    ensures Sort(all, Less) == SortedSet(heads, Less)
  {
    hide WeakOrder, TotalOn;
    LessIsOrder();
    SortForgetsOrder(all, heads, Less);
  }

  lemma OneAttested(env: Env, ev: Event)
    ensures |AttestedId(env, ev)| <= 1
  {
    hide TrimSpace;
  }

  lemma TrackOne(m: map<string, nat>, events: map<string, Event>, x: string)
    ensures Track(m, events, []) == m
    ensures Track(m, events, [x]) == if x in events then m else Bump(m, x)
  {
    assert [x][..0] == [];
  }

  lemma TrackAppend(m: map<string, nat>, events: map<string, Event>, refs: seq<string>, x: string)
    ensures Track(m, events, refs + [x]) ==
      if x in events then Track(m, events, refs) else Bump(Track(m, events, refs), x)
  {
    assert (refs + [x])[..|refs|] == refs;
  }
}
