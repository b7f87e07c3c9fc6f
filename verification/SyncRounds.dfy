/** Rounds of plan, transfer and application bring a ledger up to its peer. */
module SyncRounds {
  import opened LedgerIndexes
  import opened LedgerInvariants
  import opened LedgerModel
  import opened LedgerRuns
  import opened PruningEffects
  import opened Results
  import opened Sorting
  import opened Strings
  import opened Sync
  import opened SyncModel

  /** One exchange: the peer's inventory, the limits, urgency weights and context in force, and the clock reading. */
  datatype Round = Round(inv: Inventory, maxWant: int, maxEvents: int, weight: string -> int, context: string, now: int)

  /** The events the peer sends in a round, in the order they are applied. */
  ghost function Batch(s: LState, peer: LState, r: Round): (es: seq<Event>) {
    OrderedBatch(Requested(peer.events, Plan(s, r.inv, r.maxWant, r.weight), r.maxEvents))
  }

  ghost function DoRound(env: Env, s: LState, peer: LState, r: Round, p: Policy): (t: LState) {
    ApplyAll(env, s, Batch(s, peer, r), r.context, p, None, r.now).0
  }

  ghost function DoRounds(env: Env, s: LState, peer: LState, rounds: seq<Round>, p: Policy): (t: LState)
    decreases |rounds|
  {
    if rounds == [] then s else DoRounds(env, DoRound(env, s, peer, rounds[0], p), peer, rounds[1..], p)
  }

  // ---------------------------------------------------------------- reachability

  /** A walk from a head along references to stored events. */
  ghost predicate RefPath(env: Env, peer: LState, path: seq<string>) {
    && path != [] && path[0] in peer.heads
    && (forall i | 0 <= i < |path| :: path[i] in peer.events)
    && forall i | 0 < i < |path| :: path[i] in Refs(env, peer.events[path[i - 1]])
  }

  ghost predicate Reachable(env: Env, peer: LState, id: string) {
    exists path: seq<string> :: RefPath(env, peer, path) && path[|path| - 1] == id
  }

  /** Identifiers determine content. */
  ghost predicate Agree(s: LState, peer: LState) {
    forall id | id in s.events && id in peer.events :: s.events[id] == peer.events[id]
  }

  // ---------------------------------------------------------------- when the plan is empty

  /** Nothing the peer holds is a known missing reference or a missing head. */
  ghost predicate Settled(s: LState, peer: LState) {
    && peer.heads <= s.events.Keys
    && forall x | x in s.missing && TrimSpace(x) in peer.events :: TrimSpace(x) in s.events
  }

  /** A full inventory of a sound peer claims exactly the stored events. */
  lemma PeerHasIsEvents(env: Env, peer: LState, inv: Inventory)
    requires PlainIds(env) && Sound(env, peer) && FullInventory(peer, inv)
    ensures PeerHas(inv) == peer.events.Keys && Trims(Elements(inv.heads)) == peer.heads
    ensures peer.heads <= peer.events.Keys
  {
    hide TrimSpace, Elements, PlainIds, MarksSound, MissingSound, AuthorSound, RecomputedHeads, AllValid, Keyed,
        AffectsHeads;
    forall id | id in peer.events ensures TrimSpace(id) == id && id != "" {
      StoredPlain(env, peer, id);
    }
    TrimsSame(peer.events.Keys);
    TrimsSame(peer.heads);
  }

  lemma TrimsSame(ids: set<string>)
    requires forall id | id in ids :: TrimSpace(id) == id
    ensures Trims(ids) == ids
  {
    hide TrimSpace;
    forall id | id in ids ensures id in Trims(ids) {
      assert TrimSpace(id) == id;
    }
  }

  lemma TakeEmpty(a: seq<string>, b: seq<string>, cap: nat)
    requires cap > 0
    ensures Take(a + b, cap) == [] <==> a == [] && b == []
  {
  }

  /** `a` weighs more than `b`, or as much and is missing more often, or also as often and has the smaller name. */
  ghost predicate Outranks(s: LState, weight: string -> int, a: string, b: string) {
    var many, few := MissingCount(s.missing, a), MissingCount(s.missing, b);
    weight(a) > weight(b) || (weight(a) == weight(b) && (many > few || (many == few && Less(a, b))))
  }

  /**
   * Only the limit, by default 256, keeps wanted identifiers out of the plan, and then it holds the most urgent ones:
   * whatever is asked for outranks what is left out, and heads are asked for only after all missing references.
   */
  lemma PlanIsUrgent(s: LState, inv: Inventory, maxWant: int, weight: string -> int, out: string, asked: string)
    requires out in WantedRefs(s, inv) + WantedHeads(s, inv) && out !in Plan(s, inv, maxWant, weight)
    requires asked in Plan(s, inv, maxWant, weight)
    ensures |Plan(s, inv, maxWant, weight)| == if maxWant > 0 then maxWant else 256
    ensures out in WantedRefs(s, inv) ==> asked in WantedRefs(s, inv)
    ensures (asked in WantedRefs(s, inv) && out !in WantedRefs(s, inv)) || Outranks(s, weight, asked, out)
  {
    hide MoreUrgent, SortedSet, WantedRefs, WantedHeads, WeakOrder, TotalOn, Distinct, Elements, Outranks, Ordered;
    var order, refs := MoreUrgent(s.missing, weight), WantedRefs(s, inv);
    var heads := WantedHeads(s, inv) - refs;
    var a, b := SortedSet(refs, order), SortedSet(heads, order);
    MoreUrgentIsOrder(s.missing, weight);
    SortedSetOrdered(refs, order);
    SortedSetOrdered(heads, order);
    CutKeepsOrder(a, b, Cap(maxWant), out, asked, refs, heads, order);
    OutranksIs(s, weight, asked, out);
  }

  lemma OutranksIs(s: LState, weight: string -> int, a: string, b: string)
    ensures MoreUrgent(s.missing, weight)(a, b) <==> Outranks(s, weight, a, b)
  {
    hide Less, MissingCount;
  }

  /** Cutting one sorted list behind another. */
  lemma CutKeepsOrder(a: seq<string>, b: seq<string>, cap: nat, out: string, asked: string, first: set<string>,
                      second: set<string>, order: (string, string) -> bool)
    requires TotalOn(first, order) && TotalOn(second, order) && Ordered(a, order) && Ordered(b, order)
    requires Elements(a) == first && Elements(b) == second && first !! second
    requires out in first + second && out !in Take(a + b, cap) && asked in Take(a + b, cap)
    ensures |Take(a + b, cap)| == cap
    ensures out in first ==> asked in first
    ensures (asked in first && out in second) || order(asked, out)
  {
    hide TotalOn, Ordered, Elements;
    InElements(a, out);
    InElements(b, out);
    var j: nat;
    if out in a {
      j := IndexIn(a, out);
    } else {
      j := IndexIn(b, out);
      j := |a| + j;
    }
    var i := IndexIn(Take(a + b, cap), asked);
    assert (a + b)[j] == out && (a + b)[i] == asked && Take(a + b, cap)[i] == asked;
    TakeHolds(a + b, cap, j);
    assert i < cap <= j;
    if j < |a| {
      InElements(a, asked);
      assert a[i] == asked && a[j] == out;
      EarlierLeads(a, order, i, j);
    } else if i < |a| {
      InElements(a, asked);
      assert a[i] == asked;
    } else {
      assert b[i - |a|] == asked && b[j - |a|] == out;
      EarlierLeads(b, order, i - |a|, j - |a|);
    }
  }

  lemma InElements(s: seq<string>, x: string)
    ensures x in Elements(s) <==> x in s
  {
  }

  lemma IndexIn(s: seq<string>, x: string) returns (i: nat)
    requires x in s
    ensures i < |s| && s[i] == x
  {
    i :| i < |s| && s[i] == x;
  }

  lemma TakeHolds(s: seq<string>, n: nat, j: nat)
    requires j < |s|
    ensures j < n ==> s[j] in Take(s, n)
    ensures n <= j ==> |Take(s, n)| == n
  {
    if j < n {
      assert Take(s, n)[j] == s[j];
    }
  }

  lemma EarlierLeads(s: seq<string>, order: (string, string) -> bool, i: nat, j: nat)
    requires Ordered(s, order) && TotalOn(Elements(s), order) && i < j < |s| && s[i] != s[j]
    ensures order(s[i], s[j])
  {
    assert s[i] in Elements(s) && s[j] in Elements(s);
  }

  /** The plan is empty exactly when the ledger is settled against the peer, whatever limit and weights are used. */
  lemma PlanEmptyIffSettled(env: Env, s: LState, peer: LState, inv: Inventory, maxWant: int, weight: string -> int)
    requires PlainIds(env) && Sound(env, peer) && FullInventory(peer, inv)
    ensures Plan(s, inv, maxWant, weight) == [] <==> Settled(s, peer)
  {
    hide *;
    PeerHasIsEvents(env, peer, inv);
    PlanEmptySets(s, inv, maxWant, weight);
    SettledSets(s, peer, inv);
  }

  lemma PlanEmptySets(s: LState, inv: Inventory, maxWant: int, weight: string -> int)
    ensures Plan(s, inv, maxWant, weight) == [] <==> WantedRefs(s, inv) == {} && WantedHeads(s, inv) == {}
  {
    hide SortedSet, MoreUrgent, Elements, Distinct, WantedRefs, WantedHeads, Take;
    var order, refs, heads := MoreUrgent(s.missing, weight), WantedRefs(s, inv), WantedHeads(s, inv);
    TakeEmpty(SortedSet(refs, order), SortedSet(heads - refs, order), Cap(maxWant));
    assert |SortedSet(refs, order)| == |refs| && |SortedSet(heads - refs, order)| == |heads - refs|;
    if refs == {} {
      assert heads - refs == heads;
    }
  }

  lemma SettledSets(s: LState, peer: LState, inv: Inventory)
    requires PeerHas(inv) == peer.events.Keys && Trims(Elements(inv.heads)) == peer.heads
    requires peer.heads <= peer.events.Keys
    ensures WantedRefs(s, inv) == {} && WantedHeads(s, inv) == {} <==> Settled(s, peer)
  {
    hide TrimSpace, Elements, PeerHas;
    assert WantedHeads(s, inv) == peer.heads - s.events.Keys;
    if x :| x in WantedRefs(s, inv) {
      var y :| y in s.missing && TrimSpace(y) == x;
      assert TrimSpace(y) in peer.events && TrimSpace(y) !in s.events;
    }
    if WantedRefs(s, inv) == {} {
      forall x | x in s.missing && TrimSpace(x) in peer.events ensures TrimSpace(x) in s.events {
        assert TrimSpace(x) in Trims(s.missing.Keys);
        assert TrimSpace(x) !in WantedRefs(s, inv);
      }
      forall h | h in peer.heads && WantedHeads(s, inv) == {} ensures h in s.events.Keys {
        assert h !in peer.heads - s.events.Keys;
      }
    }
  }

  /**
   * Either pruning, if it changes something, empties the missing index, so afterwards the plan is empty exactly
   * when the peer's heads are held, whatever other references are absent.
   */
  lemma PrunedLedgerAsksForHeadsOnly(env: Env, s: LState, step: Step, peer: LState, inv: Inventory, maxWant: int,
                                     weight: string -> int)
    requires PlainIds(env) && Sound(env, peer) && FullInventory(peer, inv)
    requires step.Prunes() && Do(env, s, step) != s
    ensures var t := Do(env, s, step);
      Plan(t, inv, maxWant, weight) == [] <==> peer.heads <= t.events.Keys
  {
    hide Plan, Do, Sound, PlainIds, FullInventory, TrimSpace;
    PlanEmptyIffSettled(env, Do(env, s, step), peer, inv, maxWant, weight);
    PruningForgets(env, s, step);
  }

  /** A settled ledger with exact indexes holds everything on a reference path of the peer. */
  lemma {:induction false} SettledHoldsPath(env: Env, s: LState, peer: LState, path: seq<string>)
    requires PlainIds(env) && Sound(env, peer) && Exact(env, s) && Agree(s, peer) && Settled(s, peer)
    requires RefPath(env, peer, path)
    ensures path[|path| - 1] in s.events
  {
    hide TrimSpace, Refs, RefCount, PlainIds, Sound, AuthorSound, AuthorComplete, MarksExact, Keyed;
    var k := |path| - 1;
    if k > 0 {
      var from, ref := path[k - 1], path[k];
      assert path[..k][k - 1] == from;
      SettledHoldsPath(env, s, peer, path[..k]);
      if ref !in s.events {
        ReferredIsCounted(env, s.events, from, ref);
        assert MissingExactAt(env, s, ref);
        StoredPlain(env, peer, ref);
        assert false;
      }
    }
  }

  /**
   * An empty plan means the ledger holds every peer event that is reachable from the peer's heads along
   * previous, parent and attested references.
   */
  lemma EmptyPlanMeansCaughtUp(env: Env, s: LState, peer: LState, inv: Inventory, maxWant: int, weight: string -> int,
                               id: string)
    requires PlainIds(env) && Sound(env, peer) && Exact(env, s) && Agree(s, peer) && FullInventory(peer, inv)
    requires Plan(s, inv, maxWant, weight) == [] && Reachable(env, peer, id)
    ensures id in s.events && id in peer.events && s.events[id] == peer.events[id]
  {
    hide Plan, Sound, Exact, PlainIds, Settled, FullInventory;
    PlanEmptyIffSettled(env, s, peer, inv, maxWant, weight);
    var path: seq<string> :| RefPath(env, peer, path) && path[|path| - 1] == id;
    SettledHoldsPath(env, s, peer, path);
  }

  // ---------------------------------------------------------------- one round

  ghost function Ids(es: seq<Event>): (r: set<string>) {
    set ev | ev in es :: ev.id
  }

  /**
   * Compatible events are applied in any order: what is stored is among them, nothing changes exactly if every new
   * one is kept out by its link, and a set of identifiers that holds every free one is never left. Without a demand
   * for previous events all of them are stored.
   */
  lemma {:induction false} ApplyAllCompatible(env: Env, s: LState, evs: set<Event>, es: seq<Event>, context: string,
                                              p: Policy, clock: set<int>, now: int, bound: set<string>)
    requires Exact(env, s) && Within(s, evs) && Compatible(env, p, clock, evs) && now in clock
    requires forall ev | ev in es :: ev in evs
    ensures var (t, rep) := ApplyAll(env, s, es, context, p, None, now);
      && Exact(env, t) && Within(t, evs) && s.events.Keys <= t.events.Keys <= s.events.Keys + Ids(es)
      && (if AllBlocked(p, s, es) then t == s else s.events.Keys < t.events.Keys)
      && (s.events.Keys <= bound && Covers(p, bound, es) ==> t.events.Keys <= bound)
      && (!p.requireKnownPrev ==> t.events.Keys == s.events.Keys + Ids(es) && rep.rejected == 0)
  {
    hide *;
    IdsOne(es);
    if es == [] {
      ApplyNothing(env, s, es, context, p, None, now);
      assert es[..0] == es;
      NothingBlocked(p, s);
    } else {
      var init, last := es[..|es| - 1], es[|es| - 1];
      ApplyAllCompatible(env, s, evs, init, context, p, clock, now, bound);
      ApplyOneMore(env, s, es, |es| - 1, context, p, None, now);
      assert es[..|es|] == es;
      var (t, rep) := ApplyAll(env, s, init, context, p, None, now);
      ApplyOneCompatible(env, t, rep, evs, last, context, p, clock, now);
      BlockedOne(p, s, es);
      CoversOne(p, bound, es);
      if t.events.Keys <= bound && Covers(p, bound, es) {
        FreeGrows(p, last, t.events.Keys, bound);
      }
      AlwaysFree(p, last, t.events.Keys);
    }
  }

  /** Every event of the list is held or kept out by its link. */
  ghost predicate AllBlocked(p: Policy, s: LState, es: seq<Event>) {
    forall ev | ev in es :: ev.id in s.events || !Free(p, ev, s.events.Keys)
  }

  /** The set holds every event of the list whose link it leaves free. */
  ghost predicate Covers(p: Policy, bound: set<string>, es: seq<Event>) {
    forall ev | ev in es && Free(p, ev, bound) :: ev.id in bound
  }

  lemma NothingBlocked(p: Policy, s: LState)
    ensures AllBlocked(p, s, [])
  {
  }

  lemma BlockedOne(p: Policy, s: LState, es: seq<Event>)
    requires es != []
    ensures var last := es[|es| - 1];
      AllBlocked(p, s, es) <==>
        AllBlocked(p, s, es[..|es| - 1]) && (last.id in s.events || !Free(p, last, s.events.Keys))
  {
    hide Free;
    assert forall ev :: ev in es <==> ev in es[..|es| - 1] || ev == es[|es| - 1];
  }

  lemma CoversOne(p: Policy, bound: set<string>, es: seq<Event>)
    requires es != []
    ensures var last := es[|es| - 1];
      Covers(p, bound, es) <==> Covers(p, bound, es[..|es| - 1]) && (Free(p, last, bound) ==> last.id in bound)
  {
    hide Free;
    assert forall ev :: ev in es <==> ev in es[..|es| - 1] || ev == es[|es| - 1];
  }

  lemma FreeGrows(p: Policy, ev: Event, a: set<string>, b: set<string>)
    requires a <= b
    ensures Free(p, ev, a) ==> Free(p, ev, b)
  {
  }

  lemma AlwaysFree(p: Policy, ev: Event, held: set<string>)
    ensures !p.requireKnownPrev ==> Free(p, ev, held)
  {
  }

  lemma IdsOne(es: seq<Event>)
    ensures if es == [] then Ids(es) == {} else Ids(es) == Ids(es[..|es| - 1]) + {es[|es| - 1].id}
  {
    if es != [] {
      assert forall ev :: ev in es <==> ev in es[..|es| - 1] || ev == es[|es| - 1];
    }
  }

  lemma ApplyOneCompatible(env: Env, s: LState, rep: Report, evs: set<Event>, ev: Event, context: string, p: Policy,
                           clock: set<int>, now: int)
    requires Exact(env, s) && Within(s, evs) && Compatible(env, p, clock, evs) && now in clock && ev in evs
    ensures var (t, after) := ApplyOne(env, s, rep, ev, context, p, None, now);
      && Exact(env, t) && Within(t, evs)
      && (if ev.id in s.events || !Free(p, ev, s.events.Keys) then t == s
          else t.events.Keys == s.events.Keys + {ev.id})
      && (Free(p, ev, s.events.Keys) ==> after.rejected == rep.rejected)
  {
    hide Exact, Compatible, Within, Apply, Free;
    if Free(p, ev, s.events.Keys) {
      ApplyCompatible(env, s, evs, ev, context, p, clock, now);
    } else if ev.id !in s.events {
      ApplyBlocked(env, s, evs, ev, context, p, clock, now);
    }
  }

  lemma {:induction false} LookupAll(events: map<string, Event>, want: seq<string>)
    requires forall id | id in want :: id in events && TrimSpace(id) == id && id != ""
    ensures |Lookup(events, want)| == |want|
    ensures forall k | 0 <= k < |want| :: Lookup(events, want)[k] == events[want[k]]
  {
    hide TrimSpace;
    if want != [] {
      assert want[|want| - 1] in want;
      LookupAll(events, want[..|want| - 1]);
    }
  }

  lemma PlanIsWanted(s: LState, inv: Inventory, maxWant: int, weight: string -> int, id: string)
    requires id in Plan(s, inv, maxWant, weight)
    ensures id in WantedRefs(s, inv) + WantedHeads(s, inv) && id in Obtainable(s, inv)
  {
    hide SortedSet, MoreUrgent, Obtainable, Trims, Distinct;
    var order, refs := MoreUrgent(s.missing, weight), WantedRefs(s, inv);
    var a, b := SortedSet(refs, order), SortedSet(WantedHeads(s, inv) - refs, order);
    assert id in a + b;
    assert id in Elements(a) || id in Elements(b);
  }

  /** The batch is drawn from the wanted events, all of them new to this ledger, and empty only with the plan. */
  lemma BatchIsWanted(env: Env, s: LState, peer: LState, r: Round)
    requires PlainIds(env) && Sound(env, peer) && FullInventory(peer, r.inv)
    ensures var want, batch := Plan(s, r.inv, r.maxWant, r.weight), Batch(s, peer, r);
      && (want == [] <==> batch == [])
      && (forall ev | ev in batch :: ev.id in peer.events && peer.events[ev.id] == ev && ev.id !in s.events)
      && Ids(batch) <= Elements(want) && (Cap(r.maxEvents) >= |want| ==> Ids(batch) == Elements(want))
  {
    hide TrimSpace, Plan, OrderedBatch, Lookup, PlainIds, Sound, FullInventory, PeerHas, Elements, Ids;
    var want, batch := Plan(s, r.inv, r.maxWant, r.weight), Batch(s, peer, r);
    PeerHasIsEvents(env, peer, r.inv);
    forall id | id in want
      ensures id in peer.events && id !in s.events && TrimSpace(id) == id && id != "" && peer.events[id].id == id
    {
      PlanIsWanted(s, r.inv, r.maxWant, r.weight, id);
      StoredPlain(env, peer, id);
      StoredUnderId(env, peer, id);
    }
    LookupAll(peer.events, want);
    var sent := Requested(peer.events, want, r.maxEvents);
    SameElements(sent, batch);
    SentIsWanted(s, peer.events, want, sent, batch);
  }

  lemma SentIsWanted(s: LState, events: map<string, Event>, want: seq<string>, sent: seq<Event>, batch: seq<Event>)
    requires forall id | id in want :: id in events && id !in s.events && events[id].id == id
    requires |sent| <= |want| && forall k | 0 <= k < |sent| :: sent[k] == events[want[k]]
    requires Elements(sent) == Elements(batch)
    ensures forall ev | ev in batch :: ev.id in events && events[ev.id] == ev && ev.id !in s.events
    ensures Ids(batch) <= Elements(want) && (|sent| == |want| ==> Ids(batch) == Elements(want))
  {
    forall ev | ev in batch
      ensures ev.id in events && events[ev.id] == ev && ev.id !in s.events && ev.id in Elements(want)
    {
      assert ev in Elements(sent);
      var k :| 0 <= k < |sent| && sent[k] == ev;
      assert want[k] in want;
    }
    if |sent| == |want| {
      forall id | id in Elements(want) ensures id in Ids(batch) {
        var k :| 0 <= k < |want| && want[k] == id;
        assert sent[k] in Elements(sent) && want[k] in want;
      }
    }
  }

  lemma StoredUnderId(env: Env, peer: LState, id: string)
    requires Sound(env, peer) && id in peer.events
    ensures peer.events[id].id == id
  {
    hide MarksSound, MissingSound, AuthorSound, HeadsBetween, AllValid;
  }

  /** A compatible union that both ledgers draw their events from. */
  ghost predicate Joint(env: Env, s: LState, peer: LState, evs: set<Event>, p: Policy, clock: set<int>) {
    Compatible(env, p, clock, evs) && Within(s, evs) && Within(peer, evs) && Exact(env, s) && Sound(env, peer)
        && PlainIds(env)
  }

  /**
   * A round keeps exact indexes and only adds events of the peer. It changes nothing exactly if every event of its
   * batch is kept out by its link, which takes a policy that demands known previous events or an empty batch.
   */
  lemma RoundProgress(env: Env, s: LState, peer: LState, evs: set<Event>, r: Round, p: Policy, clock: set<int>)
    requires Joint(env, s, peer, evs, p, clock) && FullInventory(peer, r.inv) && r.now in clock
    ensures var t := DoRound(env, s, peer, r, p);
      && Joint(env, t, peer, evs, p, clock)
      && s.events.Keys <= t.events.Keys <= s.events.Keys + peer.events.Keys
      && (t == s <==> AllBlocked(p, s, Batch(s, peer, r)))
      && (t != s ==> |peer.events.Keys - t.events.Keys| < |peer.events.Keys - s.events.Keys|)
      && (Settled(s, peer) ==> t == s)
      && (!p.requireKnownPrev && t == s ==> Settled(s, peer))
  {
    hide *;
    var batch := Batch(s, peer, r);
    JointParts(env, s, peer, evs, p, clock);
    BatchIsWanted(env, s, peer, r);
    PlanEmptyIffSettled(env, s, peer, r.inv, r.maxWant, r.weight);
    BatchIsJoint(peer, evs, batch);
    ApplyAllCompatible(env, s, evs, batch, r.context, p, clock, r.now, {});
    RoundIs(env, s, peer, r, p);
    var t := DoRound(env, s, peer, r, p);
    JointAgain(env, s, t, peer, evs, p, clock);
    if batch == [] {
      NothingBlocked(p, s);
    }
    NewOnesBlocked(p, s, batch);
    if t != s {
      Shrinks(peer.events.Keys, s.events.Keys, t.events.Keys);
    }
  }

  /** New events are kept out only under a policy that demands known previous events. */
  lemma NewOnesBlocked(p: Policy, s: LState, es: seq<Event>)
    requires forall ev | ev in es :: ev.id !in s.events
    ensures AllBlocked(p, s, es) && !p.requireKnownPrev ==> es == []
  {
    if es != [] {
      assert es[0] in es;
    }
  }

  lemma JointParts(env: Env, s: LState, peer: LState, evs: set<Event>, p: Policy, clock: set<int>)
    requires Joint(env, s, peer, evs, p, clock)
    ensures Compatible(env, p, clock, evs) && Within(s, evs) && Within(peer, evs)
    ensures Exact(env, s) && Sound(env, peer) && PlainIds(env)
  {
    hide Compatible, Within, Exact, Sound, PlainIds;
  }

  lemma JointAgain(env: Env, s: LState, t: LState, peer: LState, evs: set<Event>, p: Policy, clock: set<int>)
    requires Joint(env, s, peer, evs, p, clock) && Exact(env, t) && Within(t, evs)
    ensures Joint(env, t, peer, evs, p, clock)
  {
    hide Compatible, Within, Exact, Sound, PlainIds;
  }

  lemma RoundIs(env: Env, s: LState, peer: LState, r: Round, p: Policy)
    ensures DoRound(env, s, peer, r, p) == ApplyAll(env, s, Batch(s, peer, r), r.context, p, None, r.now).0
  {
    hide ApplyAll, Batch;
  }

  lemma BatchIsJoint(peer: LState, evs: set<Event>, batch: seq<Event>)
    requires Within(peer, evs) && forall ev | ev in batch :: ev.id in peer.events && peer.events[ev.id] == ev
    ensures (forall ev | ev in batch :: ev in evs) && Ids(batch) <= peer.events.Keys
  {
  }

  lemma Shrinks(all: set<string>, a: set<string>, b: set<string>)
    requires a < b && b <= a + all
    ensures |all - b| < |all - a|
  {
    var x :| x in b && x !in a;
    SubsetSize(all - b, all - a - {x});
    assert |all - a - {x}| == |all - a| - 1;
  }
}
