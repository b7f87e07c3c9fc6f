/** What an exchange of rounds ends with, whatever limits, weights and order it used. */
module SyncConvergence {
  import opened LedgerIndexes
  import opened LedgerInvariants
  import opened LedgerModel
  import opened SnapshotReload
  import opened Sorting
  import opened Strings
  import opened Sync
  import opened SyncModel
  import opened SyncRounds

  // ---------------------------------------------------------------- what is on offer

  /** What the peer holds and one can know of: its heads, and what held events refer to. */
  ghost predicate Offered(env: Env, evs: set<Event>, peer: LState, held: set<string>, id: string) {
    id in peer.events && (id in peer.heads || Mentioned(env, evs, held, id))
  }

  /** Everything on offer whose link is free is held. */
  ghost predicate Closed(env: Env, p: Policy, evs: set<Event>, peer: LState, held: set<string>) {
    forall id | Offered(env, evs, peer, held, id) && Free(p, peer.events[id], held) :: id in held
  }

  /** If links can be refused, the limits of a round do not cut off any wanted event. */
  ghost predicate Roomy(p: Policy, peer: LState, r: Round) {
    p.requireKnownPrev ==> Cap(r.maxWant) >= |peer.events| && Cap(r.maxEvents) >= |peer.events|
  }

  lemma WantedParts(s: LState, inv: Inventory, id: string)
    ensures id in WantedRefs(s, inv) + WantedHeads(s, inv) <==>
      id in PeerHas(inv) && id !in s.events && (id in Trims(s.missing.Keys) || id in Trims(Elements(inv.heads)))
  {
    hide Trims, PeerHas, Elements;
  }

  /** The held events that refer to an identifier put it on offer. */
  ghost predicate Mentioned(env: Env, evs: set<Event>, held: set<string>, id: string) {
    exists ev :: ev in evs && ev.id in held && id in Trims(Elements(Refs(env, ev)))
  }

  lemma MentionedBy(env: Env, evs: set<Event>, held: set<string>, id: string, ev: Event)
    requires ev in evs && ev.id in held && id in Trims(Elements(Refs(env, ev)))
    ensures Mentioned(env, evs, held, id)
  {
    hide Trims, Refs, Elements;
  }

  lemma OfferGrows(env: Env, evs: set<Event>, peer: LState, a: set<string>, b: set<string>, id: string)
    requires a <= b && Offered(env, evs, peer, a, id)
    ensures Offered(env, evs, peer, b, id)
  {
    hide Trims, Refs, Elements;
  }

  lemma TrimsHolds(ids: set<string>, ref: string)
    requires ref in ids
    ensures TrimSpace(ref) in Trims(ids)
  {
    hide TrimSpace;
  }

  lemma Untrimmed(ids: set<string>, id: string) returns (ref: string)
    requires id in Trims(ids)
    ensures ref in ids && TrimSpace(ref) == id
  {
    hide TrimSpace;
    ref :| ref in ids && TrimSpace(ref) == id;
  }

  /** What is missing is absent and some stored event refers to it. */
  lemma MissingIsReferred(env: Env, s: LState, ref: string) returns (from: string)
    requires Exact(env, s) && ref in s.missing
    ensures ref !in s.events && from in s.events && ref in Refs(env, s.events[from])
    ensures s.events[from].id == from
  {
    hide Refs, RefCount, MarksExact, AuthorSound, AuthorComplete;
    assert MissingExactAt(env, s, ref);
    from := CountedIsReferred(env, s.events, ref);
  }

  lemma ReferredIsMissing(env: Env, s: LState, from: string, ref: string)
    requires Exact(env, s) && from in s.events && ref in Refs(env, s.events[from]) && ref !in s.events
    ensures ref in s.missing
  {
    hide Refs, RefCount, MarksExact, AuthorSound, AuthorComplete;
    ReferredIsCounted(env, s.events, from, ref);
    assert MissingExactAt(env, s, ref);
  }

  /** A held identifier names the event of the joint set, and it carries no blanks. */
  lemma HeldIsJoint(env: Env, s: LState, peer: LState, evs: set<Event>, p: Policy, clock: set<int>, now: int,
                    id: string)
    requires Joint(env, s, peer, evs, p, clock) && now in clock && id in s.events
    ensures TrimSpace(id) == id && s.events[id].id == id && forall ev | ev in evs && ev.id == id :: s.events[id] == ev
  {
    hide TrimSpace, Exact, Sound, WellFormed, PolicyVerdict;
    HeldUnderId(env, s, id);
    assert Acceptable(env, p, now, s.events[id]);
    assert Validates(env, s.events[id]);
    assert TrimSpace(env.contentId(s.events[id])) == env.contentId(s.events[id]);
  }

  /** What is wanted from a peer is what is on offer and not held. */
  lemma WantedIsOffered(env: Env, s: LState, peer: LState, evs: set<Event>, inv: Inventory, p: Policy,
                        clock: set<int>, now: int, id: string)
    requires Joint(env, s, peer, evs, p, clock) && FullInventory(peer, inv) && now in clock
    ensures id in WantedRefs(s, inv) + WantedHeads(s, inv)
      <==> Offered(env, evs, peer, s.events.Keys, id) && id !in s.events
  {
    hide Joint, WantedRefs, WantedHeads, PeerHas, Trims, Elements, Mentioned, Sound, Exact, PlainIds, FullInventory,
      Within, Refs, Compatible, TrimSpace;
    JointParts(env, s, peer, evs, p, clock);
    PeerHasIsEvents(env, peer, inv);
    WantedParts(s, inv, id);
    if id in Trims(s.missing.Keys) {
      MissingIsMentioned(env, s, evs, id);
    }
    if Mentioned(env, evs, s.events.Keys, id) && id !in s.events {
      MentionedIsMissing(env, s, peer, evs, p, clock, now, id);
    }
  }

  lemma MissingIsMentioned(env: Env, s: LState, evs: set<Event>, id: string)
    requires Exact(env, s) && Within(s, evs) && id in Trims(s.missing.Keys)
    ensures Mentioned(env, evs, s.events.Keys, id)
  {
    hide Exact, Trims, Refs, TrimSpace, Mentioned;
    var ref := Untrimmed(s.missing.Keys, id);
    var from := MissingIsReferred(env, s, ref);
    TrimsHolds(Elements(Refs(env, s.events[from])), ref);
    MentionedBy(env, evs, s.events.Keys, id, s.events[from]);
  }

  lemma MentionedIsMissing(env: Env, s: LState, peer: LState, evs: set<Event>, p: Policy, clock: set<int>, now: int,
                           id: string)
    requires Joint(env, s, peer, evs, p, clock) && now in clock
    requires Mentioned(env, evs, s.events.Keys, id) && id !in s.events
    ensures id in Trims(s.missing.Keys)
  {
    hide Joint, Exact, Trims, Refs, TrimSpace;
    JointParts(env, s, peer, evs, p, clock);
    var ev :| ev in evs && ev.id in s.events.Keys && id in Trims(Elements(Refs(env, ev)));
    HeldIsJoint(env, s, peer, evs, p, clock, now, ev.id);
    var ref := Untrimmed(Elements(Refs(env, ev)), id);
    if ref in s.events {
      HeldIsJoint(env, s, peer, evs, p, clock, now, ref);
      assert false;
    }
    ReferredIsMissing(env, s, ev.id, ref);
    TrimsHolds(s.missing.Keys, ref);
  }

  // ---------------------------------------------------------------- one round

  /** The limits of a roomy round cut off nothing that is wanted. */
  lemma PlanHasWanted(env: Env, s: LState, peer: LState, inv: Inventory, maxWant: int, weight: string -> int)
    requires PlainIds(env) && Sound(env, peer) && FullInventory(peer, inv)
    ensures var want := Plan(s, inv, maxWant, weight);
      && |want| <= |peer.events|
      && (Cap(maxWant) >= |peer.events| ==> Elements(want) == WantedRefs(s, inv) + WantedHeads(s, inv))
  {
    hide *;
    PeerHasIsEvents(env, peer, inv);
    WantedOfPeer(s, inv);
    PlanParts(s, inv, maxWant, weight);
    SubsetSize(WantedRefs(s, inv) + WantedHeads(s, inv), peer.events.Keys);
    assert |peer.events.Keys| == |peer.events|;
  }

  lemma WantedOfPeer(s: LState, inv: Inventory)
    ensures WantedRefs(s, inv) + WantedHeads(s, inv) <= PeerHas(inv)
  {
    hide PeerHas, Trims, Elements;
  }

  lemma PlanParts(s: LState, inv: Inventory, maxWant: int, weight: string -> int)
    ensures var want, wanted := Plan(s, inv, maxWant, weight), WantedRefs(s, inv) + WantedHeads(s, inv);
      |want| <= |wanted| && (Cap(maxWant) >= |wanted| ==> Elements(want) == wanted)
  {
    hide SortedSet, MoreUrgent, Distinct, Elements, WantedRefs, WantedHeads, Cap;
    var order, refs := MoreUrgent(s.missing, weight), WantedRefs(s, inv);
    var heads := WantedHeads(s, inv) - refs;
    var a, b := SortedSet(refs, order), SortedSet(heads, order);
    assert refs + heads == refs + WantedHeads(s, inv) && |refs + heads| == |refs| + |heads|;
    assert |a + b| == |refs + heads|;
    ElementsBoth(a, b);
  }

  lemma ElementsBoth(a: seq<string>, b: seq<string>)
    ensures Elements(a + b) == Elements(a) + Elements(b)
  {
  }

  /** A roomy round changes nothing exactly if everything on offer whose link is free is held. */
  lemma RoundStopsExactly(env: Env, s: LState, peer: LState, evs: set<Event>, r: Round, p: Policy, clock: set<int>)
    requires Joint(env, s, peer, evs, p, clock) && FullInventory(peer, r.inv) && r.now in clock && Roomy(p, peer, r)
    ensures DoRound(env, s, peer, r, p) == s <==> Closed(env, p, evs, peer, s.events.Keys)
  {
    hide *;
    RoundProgress(env, s, peer, evs, r, p, clock);
    if Closed(env, p, evs, peer, s.events.Keys) {
      ClosedBlocks(env, s, peer, evs, r, p, clock);
    }
    if AllBlocked(p, s, Batch(s, peer, r)) {
      BlockedCloses(env, s, peer, evs, r, p, clock);
    }
  }

  lemma ClosedBlocks(env: Env, s: LState, peer: LState, evs: set<Event>, r: Round, p: Policy, clock: set<int>)
    requires Joint(env, s, peer, evs, p, clock) && FullInventory(peer, r.inv) && r.now in clock
    requires Closed(env, p, evs, peer, s.events.Keys)
    ensures AllBlocked(p, s, Batch(s, peer, r))
  {
    hide Joint, FullInventory, Batch, Offered, Free;
    forall ev | ev in Batch(s, peer, r) ensures !Free(p, ev, s.events.Keys) {
      BatchIsOffered(env, s, peer, evs, r, p, clock, ev);
    }
  }

  lemma BlockedCloses(env: Env, s: LState, peer: LState, evs: set<Event>, r: Round, p: Policy, clock: set<int>)
    requires Joint(env, s, peer, evs, p, clock) && FullInventory(peer, r.inv) && r.now in clock && Roomy(p, peer, r)
    requires AllBlocked(p, s, Batch(s, peer, r))
    ensures Closed(env, p, evs, peer, s.events.Keys)
  {
    hide Joint, FullInventory, Batch, Offered, Free, WantedRefs, WantedHeads, Roomy, AllBlocked;
    OfferedIsHeld(env, evs, peer, s.events.Keys);
    forall id | Offered(env, evs, peer, s.events.Keys, id) && Free(p, peer.events[id], s.events.Keys)
      ensures id in s.events.Keys
    {
      WantedIsOffered(env, s, peer, evs, r.inv, p, clock, r.now, id);
      if id !in s.events {
        WantedIsSent(env, s, peer, evs, r, p, clock, id);
      }
    }
  }

  /** In a roomy round whose batch is kept out, every wanted event is kept out. */
  lemma WantedIsSent(env: Env, s: LState, peer: LState, evs: set<Event>, r: Round, p: Policy, clock: set<int>,
                     id: string)
    requires Joint(env, s, peer, evs, p, clock) && FullInventory(peer, r.inv) && r.now in clock && Roomy(p, peer, r)
    requires AllBlocked(p, s, Batch(s, peer, r)) && id in WantedRefs(s, r.inv) + WantedHeads(s, r.inv)
    ensures id in peer.events && !Free(p, peer.events[id], s.events.Keys)
  {
    hide *;
    JointParts(env, s, peer, evs, p, clock);
    var want, batch := Plan(s, r.inv, r.maxWant, r.weight), Batch(s, peer, r);
    BatchIsWanted(env, s, peer, r);
    PlanHasWanted(env, s, peer, r.inv, r.maxWant, r.weight);
    PlanEmptySets(s, r.inv, r.maxWant, r.weight);
    NewOnesBlocked(p, s, batch);
    RoomyCaps(p, peer, r);
    var ev := NamedBy(batch, id);
    BlockedAt(p, s, batch, ev);
  }

  lemma RoomyCaps(p: Policy, peer: LState, r: Round)
    requires Roomy(p, peer, r) && p.requireKnownPrev
    ensures Cap(r.maxWant) >= |peer.events| && Cap(r.maxEvents) >= |peer.events|
  {
  }

  lemma BlockedAt(p: Policy, s: LState, es: seq<Event>, ev: Event)
    requires AllBlocked(p, s, es) && ev in es
    ensures ev.id in s.events || !Free(p, ev, s.events.Keys)
  {
    hide Free;
  }

  lemma OfferedIsHeld(env: Env, evs: set<Event>, peer: LState, held: set<string>)
    ensures forall id | Offered(env, evs, peer, held, id) :: id in peer.events
  {
    hide Mentioned;
  }

  lemma NamedBy(es: seq<Event>, id: string) returns (ev: Event)
    requires id in Ids(es)
    ensures ev in es && ev.id == id
  {
    ev :| ev in es && ev.id == id;
  }

  /** A round stays within every closed set that holds the ledger. */
  lemma RoundStays(env: Env, s: LState, peer: LState, evs: set<Event>, r: Round, p: Policy, clock: set<int>,
                   held: set<string>)
    requires Joint(env, s, peer, evs, p, clock) && FullInventory(peer, r.inv) && r.now in clock
    requires s.events.Keys <= held && Closed(env, p, evs, peer, held)
    ensures DoRound(env, s, peer, r, p).events.Keys <= held
  {
    hide *;
    var batch := Batch(s, peer, r);
    JointParts(env, s, peer, evs, p, clock);
    BatchIsWanted(env, s, peer, r);
    BatchIsJoint(peer, evs, batch);
    RoundIs(env, s, peer, r, p);
    ClosedCovers(env, s, peer, evs, r, p, clock, held);
    ApplyAllCompatible(env, s, evs, batch, r.context, p, clock, r.now, held);
  }

  lemma ClosedCovers(env: Env, s: LState, peer: LState, evs: set<Event>, r: Round, p: Policy, clock: set<int>,
                     held: set<string>)
    requires Joint(env, s, peer, evs, p, clock) && FullInventory(peer, r.inv) && r.now in clock
    requires s.events.Keys <= held && Closed(env, p, evs, peer, held)
    ensures Covers(p, held, Batch(s, peer, r))
  {
    hide Joint, FullInventory, Batch, Offered, Free, Ids, Elements, Plan;
    JointParts(env, s, peer, evs, p, clock);
    BatchIsWanted(env, s, peer, r);
    forall ev | ev in Batch(s, peer, r) && Free(p, ev, held) ensures ev.id in held {
      BatchIsOffered(env, s, peer, evs, r, p, clock, ev);
      OfferGrows(env, evs, peer, s.events.Keys, held, ev.id);
    }
  }

  lemma BatchIsOffered(env: Env, s: LState, peer: LState, evs: set<Event>, r: Round, p: Policy, clock: set<int>,
                       ev: Event)
    requires Joint(env, s, peer, evs, p, clock) && FullInventory(peer, r.inv) && r.now in clock
    requires ev in Batch(s, peer, r)
    ensures Offered(env, evs, peer, s.events.Keys, ev.id) && ev.id in peer.events && peer.events[ev.id] == ev
    ensures ev.id !in s.events
  {
    hide Joint, FullInventory, Batch, Offered, Plan, WantedRefs, WantedHeads;
    JointParts(env, s, peer, evs, p, clock);
    BatchIsWanted(env, s, peer, r);
    assert ev.id in Ids(Batch(s, peer, r));
    var want := Plan(s, r.inv, r.maxWant, r.weight);
    assert ev.id in Elements(want);
    PlanIsWanted(s, r.inv, r.maxWant, r.weight, ev.id);
    WantedIsOffered(env, s, peer, evs, r.inv, p, clock, r.now, ev.id);
  }

  // ---------------------------------------------------------------- whole exchanges

  /** No exchange leaves a closed set that holds the ledger. */
  lemma {:induction false} SyncStays(env: Env, s: LState, peer: LState, evs: set<Event>, rounds: seq<Round>, p: Policy,
                                     clock: set<int>, held: set<string>)
    requires Joint(env, s, peer, evs, p, clock)
    requires forall r | r in rounds :: FullInventory(peer, r.inv) && r.now in clock
    requires s.events.Keys <= held && Closed(env, p, evs, peer, held)
    ensures DoRounds(env, s, peer, rounds, p).events.Keys <= held
    decreases |rounds|
  {
    hide *;
    if rounds == [] {
      NoRounds(env, s, peer, rounds, p);
    } else {
      FirstRound(env, s, peer, rounds, p);
      RoundAdds(env, s, peer, evs, rounds[0], p, clock);
      RoundStays(env, s, peer, evs, rounds[0], p, clock, held);
      SyncStays(env, DoRound(env, s, peer, rounds[0], p), peer, evs, rounds[1..], p, clock, held);
    }
  }

  /** Rounds only add events of the peer. */
  lemma {:induction false} SyncAdds(env: Env, s: LState, peer: LState, evs: set<Event>, rounds: seq<Round>, p: Policy,
                                    clock: set<int>)
    requires Joint(env, s, peer, evs, p, clock)
    requires forall r | r in rounds :: FullInventory(peer, r.inv) && r.now in clock
    ensures var t := DoRounds(env, s, peer, rounds, p);
      Joint(env, t, peer, evs, p, clock) && Adds(s, t, peer)
    decreases |rounds|
  {
    hide *;
    if rounds == [] {
      NoRounds(env, s, peer, rounds, p);
      AddsNothing(s, peer);
    } else {
      var first := DoRound(env, s, peer, rounds[0], p);
      FirstRound(env, s, peer, rounds, p);
      RoundAdds(env, s, peer, evs, rounds[0], p, clock);
      SyncAdds(env, first, peer, evs, rounds[1..], p, clock);
      AddsMore(s, first, DoRounds(env, s, peer, rounds, p), peer);
    }
  }

  /** Only events of the peer are added, and without new events nothing has changed. */
  ghost predicate Adds(s: LState, t: LState, peer: LState) {
    s.events.Keys <= t.events.Keys <= s.events.Keys + peer.events.Keys && (t.events.Keys == s.events.Keys ==> t == s)
  }

  lemma AddsNothing(s: LState, peer: LState)
    ensures Adds(s, s, peer)
  {
  }

  lemma AddsParts(s: LState, t: LState, peer: LState)
    requires Adds(s, t, peer)
    ensures s.events.Keys <= t.events.Keys <= s.events.Keys + peer.events.Keys
    ensures t.events.Keys == s.events.Keys ==> t == s
  {
  }

  lemma AddsMore(s: LState, t: LState, u: LState, peer: LState)
    requires Adds(s, t, peer) && Adds(t, u, peer)
    ensures Adds(s, u, peer)
  {
    var a, b, c := s.events.Keys, t.events.Keys, u.events.Keys;
    if c == a {
      assert b == a;
    }
  }

  lemma RoundAdds(env: Env, s: LState, peer: LState, evs: set<Event>, r: Round, p: Policy, clock: set<int>)
    requires Joint(env, s, peer, evs, p, clock) && FullInventory(peer, r.inv) && r.now in clock
    ensures Joint(env, DoRound(env, s, peer, r, p), peer, evs, p, clock) && Adds(s, DoRound(env, s, peer, r, p), peer)
  {
    hide *;
    RoundProgress(env, s, peer, evs, r, p, clock);
    GrowthAdds(s, DoRound(env, s, peer, r, p), peer);
  }

  lemma GrowthAdds(s: LState, t: LState, peer: LState)
    requires s.events.Keys <= t.events.Keys <= s.events.Keys + peer.events.Keys
    requires t != s ==> |peer.events.Keys - t.events.Keys| < |peer.events.Keys - s.events.Keys|
    ensures Adds(s, t, peer)
  {
  }

  /** As many roomy rounds as the peer has events this ledger lacks close it. */
  lemma {:induction false} SyncCloses(env: Env, s: LState, peer: LState, evs: set<Event>, rounds: seq<Round>, p: Policy,
                                      clock: set<int>)
    requires Joint(env, s, peer, evs, p, clock)
    requires forall r | r in rounds :: FullInventory(peer, r.inv) && r.now in clock
    requires forall r | r in rounds :: Roomy(p, peer, r)
    requires |rounds| >= |peer.events.Keys - s.events.Keys| || Closed(env, p, evs, peer, s.events.Keys)
    ensures Closed(env, p, evs, peer, DoRounds(env, s, peer, rounds, p).events.Keys)
    decreases |rounds|
  {
    hide Joint, Closed, DoRound, FullInventory, Batch, AllBlocked, Settled, Roomy;
    if rounds == [] {
      if |peer.events.Keys - s.events.Keys| == 0 {
        AllHeldCloses(env, s, peer, evs, p);
      }
    } else {
      assert rounds[0] in rounds;
      RoundProgress(env, s, peer, evs, rounds[0], p, clock);
      RoundStopsExactly(env, s, peer, evs, rounds[0], p, clock);
      SyncCloses(env, DoRound(env, s, peer, rounds[0], p), peer, evs, rounds[1..], p, clock);
    }
  }

  lemma AllHeldCloses(env: Env, s: LState, peer: LState, evs: set<Event>, p: Policy)
    requires |peer.events.Keys - s.events.Keys| == 0
    ensures Closed(env, p, evs, peer, s.events.Keys)
  {
    hide Mentioned, Free;
    NothingLeft(peer.events.Keys, s.events.Keys);
  }

  /**
   * No link holds back what the peer can send: each absent event is a first one or its previous event is here,
   * if the policy asks for that.
   */
  ghost predicate NothingHeldBack(p: Policy, s: LState, peer: LState) {
    forall id | id in peer.events && id !in s.events :: Free(p, peer.events[id], s.events.Keys)
  }

  lemma StillNotHeldBack(p: Policy, s: LState, t: LState, peer: LState)
    requires NothingHeldBack(p, s, peer) && s.events.Keys <= t.events.Keys
    ensures NothingHeldBack(p, t, peer)
  {
    hide Free;
    forall id | id in peer.events && id !in t.events ensures Free(p, peer.events[id], t.events.Keys) {
      assert id !in s.events.Keys;
      FreeGrows(p, peer.events[id], s.events.Keys, t.events.Keys);
    }
  }

  /** A closed ledger is settled, if nothing is held back. */
  lemma ClosedSettles(env: Env, s: LState, peer: LState, evs: set<Event>, p: Policy, clock: set<int>)
    requires Joint(env, s, peer, evs, p, clock) && Closed(env, p, evs, peer, s.events.Keys)
    requires NothingHeldBack(p, s, peer)
    ensures Settled(s, peer)
  {
    hide Joint, Mentioned, TrimSpace, Sound, Exact, Compatible, PlainIds, Free;
    JointParts(env, s, peer, evs, p, clock);
    forall h | h in peer.heads ensures h in s.events.Keys {
      HeadsStored(env, peer, h);
      assert Offered(env, evs, peer, s.events.Keys, h);
    }
    forall x | x in s.missing && TrimSpace(x) in peer.events ensures TrimSpace(x) in s.events {
      TrimsHolds(s.missing.Keys, x);
      MissingIsMentioned(env, s, evs, TrimSpace(x));
      assert Offered(env, evs, peer, s.events.Keys, TrimSpace(x));
    }
  }

  /**
   * What an exchange ends with. After as many rounds as the peer has events this ledger lacks, the ledger holds
   * exactly the least set of identifiers that contains what it held before and everything on offer whose link is
   * free, and every index is exact. If no link held anything back at the start, nothing is left to ask for, and
   * whenever nothing is left to ask for, every reachable peer event is stored with its content.
   */
  lemma SyncConverges(env: Env, s: LState, peer: LState, evs: set<Event>, rounds: seq<Round>, p: Policy,
                      clock: set<int>)
    requires Joint(env, s, peer, evs, p, clock)
    requires forall r | r in rounds :: FullInventory(peer, r.inv) && r.now in clock
    requires forall r | r in rounds :: Roomy(p, peer, r)
    requires |rounds| >= |peer.events.Keys - s.events.Keys|
    ensures var t := DoRounds(env, s, peer, rounds, p);
      && Joint(env, t, peer, evs, p, clock) && s.events.Keys <= t.events.Keys <= s.events.Keys + peer.events.Keys
      && Closed(env, p, evs, peer, t.events.Keys)
      && (forall held | s.events.Keys <= held && Closed(env, p, evs, peer, held) :: t.events.Keys <= held)
      && (NothingHeldBack(p, s, peer) ==> Settled(t, peer))
      && (Settled(t, peer) ==>
            forall id | Reachable(env, peer, id) ::
              id in t.events && id in peer.events && t.events[id] == peer.events[id])
  {
    hide Joint, Settled, DoRounds, FullInventory, Reachable, Closed, Roomy, NothingHeldBack;
    var t := DoRounds(env, s, peer, rounds, p);
    SyncAdds(env, s, peer, evs, rounds, p, clock);
    SyncCloses(env, s, peer, evs, rounds, p, clock);
    forall held | s.events.Keys <= held && Closed(env, p, evs, peer, held) ensures t.events.Keys <= held {
      SyncStays(env, s, peer, evs, rounds, p, clock, held);
    }
    if NothingHeldBack(p, s, peer) {
      StillNotHeldBack(p, s, t, peer);
      ClosedSettles(env, t, peer, evs, p, clock);
    }
    if Settled(t, peer) {
      forall id | Reachable(env, peer, id)
        ensures id in t.events && id in peer.events && t.events[id] == peer.events[id]
      {
        SettledHoldsReachable(env, t, peer, evs, p, clock, id);
      }
    }
  }

  /** Long enough exchanges end with the same events and indexes, whatever limits, weights and order they used. */
  lemma SyncOutcomeIsUnique(env: Env, s: LState, peer: LState, evs: set<Event>, one: seq<Round>, two: seq<Round>,
                            p: Policy, clock: set<int>)
    requires Joint(env, s, peer, evs, p, clock)
    requires forall r | r in one :: FullInventory(peer, r.inv) && r.now in clock && Roomy(p, peer, r)
    requires forall r | r in two :: FullInventory(peer, r.inv) && r.now in clock && Roomy(p, peer, r)
    requires |one| >= |peer.events.Keys - s.events.Keys| && |two| >= |peer.events.Keys - s.events.Keys|
    ensures var t, u := DoRounds(env, s, peer, one, p), DoRounds(env, s, peer, two, p);
      && t.events == u.events && t.authorSeq == u.authorSeq && t.missing == u.missing && t.marks == u.marks
  {
    hide *;
    var t, u := DoRounds(env, s, peer, one, p), DoRounds(env, s, peer, two, p);
    OutcomeWithin(env, s, peer, evs, one, two, p, clock);
    OutcomeWithin(env, s, peer, evs, two, one, p, clock);
    OutcomeIsExact(env, s, peer, evs, one, p, clock);
    OutcomeIsExact(env, s, peer, evs, two, p, clock);
    SameKeysSameEvents(env, t, u, evs, p, clock);
    ExactIsUnique(env, t, u);
  }

  lemma OutcomeIsExact(env: Env, s: LState, peer: LState, evs: set<Event>, rounds: seq<Round>, p: Policy,
                       clock: set<int>)
    requires Joint(env, s, peer, evs, p, clock)
    requires forall r | r in rounds :: FullInventory(peer, r.inv) && r.now in clock
    ensures var t := DoRounds(env, s, peer, rounds, p);
      Exact(env, t) && Within(t, evs) && Compatible(env, p, clock, evs)
  {
    hide *;
    SyncAdds(env, s, peer, evs, rounds, p, clock);
    JointParts(env, DoRounds(env, s, peer, rounds, p), peer, evs, p, clock);
  }

  /** What one exchange stores, every long enough exchange stores. */
  lemma OutcomeWithin(env: Env, s: LState, peer: LState, evs: set<Event>, one: seq<Round>, two: seq<Round>, p: Policy,
                      clock: set<int>)
    requires Joint(env, s, peer, evs, p, clock)
    requires forall r | r in one :: FullInventory(peer, r.inv) && r.now in clock
    requires forall r | r in two :: FullInventory(peer, r.inv) && r.now in clock && Roomy(p, peer, r)
    requires |two| >= |peer.events.Keys - s.events.Keys|
    ensures DoRounds(env, s, peer, one, p).events.Keys <= DoRounds(env, s, peer, two, p).events.Keys
  {
    hide *;
    SyncAdds(env, s, peer, evs, two, p, clock);
    AddsParts(s, DoRounds(env, s, peer, two, p), peer);
    SyncCloses(env, s, peer, evs, two, p, clock);
    SyncStays(env, s, peer, evs, one, p, clock, DoRounds(env, s, peer, two, p).events.Keys);
  }

  lemma SameKeysSameEvents(env: Env, t: LState, u: LState, evs: set<Event>, p: Policy, clock: set<int>)
    requires Exact(env, t) && Exact(env, u) && Within(t, evs) && Within(u, evs) && Compatible(env, p, clock, evs)
    requires t.events.Keys == u.events.Keys
    ensures t.events == u.events
  {
    hide Exact, Acceptable;
    forall id | id in t.events ensures t.events[id] == u.events[id] {
      HeldUnderId(env, t, id);
      HeldUnderId(env, u, id);
      IdentifierDecides(evs, t.events[id], u.events[id]);
    }
  }

  // ---------------------------------------------------------------- stalled exchanges

  /** In a closed ledger an exchange changes nothing, however long it is and whatever its limits are. */
  lemma ClosedStalls(env: Env, s: LState, peer: LState, evs: set<Event>, rounds: seq<Round>, p: Policy, clock: set<int>)
    requires Joint(env, s, peer, evs, p, clock)
    requires forall r | r in rounds :: FullInventory(peer, r.inv) && r.now in clock
    requires Closed(env, p, evs, peer, s.events.Keys)
    ensures DoRounds(env, s, peer, rounds, p) == s
  {
    hide *;
    SyncAdds(env, s, peer, evs, rounds, p, clock);
    AddsParts(s, DoRounds(env, s, peer, rounds, p), peer);
    SyncStays(env, s, peer, evs, rounds, p, clock, s.events.Keys);
  }

  /** An exchange changes nothing exactly if the ledger is closed from the start. */
  lemma SyncStallsExactly(env: Env, s: LState, peer: LState, evs: set<Event>, rounds: seq<Round>, p: Policy,
                          clock: set<int>)
    requires Joint(env, s, peer, evs, p, clock)
    requires forall r | r in rounds :: FullInventory(peer, r.inv) && r.now in clock
    requires rounds != [] && Roomy(p, peer, rounds[0])
    ensures DoRounds(env, s, peer, rounds, p) == s <==> Closed(env, p, evs, peer, s.events.Keys)
  {
    hide *;
    if Closed(env, p, evs, peer, s.events.Keys) {
      ClosedStalls(env, s, peer, evs, rounds, p, clock);
    } else {
      FirstRoundAdds(env, s, peer, evs, rounds, p, clock);
    }
  }

  /** If the first round changes something, so does the exchange. */
  lemma FirstRoundAdds(env: Env, s: LState, peer: LState, evs: set<Event>, rounds: seq<Round>, p: Policy,
                       clock: set<int>)
    requires Joint(env, s, peer, evs, p, clock)
    requires forall r | r in rounds :: FullInventory(peer, r.inv) && r.now in clock
    requires rounds != [] && Roomy(p, peer, rounds[0]) && !Closed(env, p, evs, peer, s.events.Keys)
    ensures DoRounds(env, s, peer, rounds, p) != s
  {
    hide *;
    var first := DoRound(env, s, peer, rounds[0], p);
    FirstRound(env, s, peer, rounds, p);
    RoundStopsExactly(env, s, peer, evs, rounds[0], p, clock);
    RoundAdds(env, s, peer, evs, rounds[0], p, clock);
    SyncAdds(env, first, peer, evs, rounds[1..], p, clock);
    GrownStays(s, first, DoRounds(env, s, peer, rounds, p), peer);
  }

  lemma GrownStays(s: LState, t: LState, u: LState, peer: LState)
    requires Adds(s, t, peer) && Adds(t, u, peer) && t != s
    ensures u != s
  {
  }

  lemma FirstRound(env: Env, s: LState, peer: LState, rounds: seq<Round>, p: Policy)
    requires rounds != []
    ensures DoRounds(env, s, peer, rounds, p)
      == DoRounds(env, DoRound(env, s, peer, rounds[0], p), peer, rounds[1..], p)
    ensures rounds[0] in rounds && forall r | r in rounds[1..] :: r in rounds
  {
    hide DoRound;
  }

  function Repeated(r: Round, n: nat): (rounds: seq<Round>) {
    seq(n, i => r)
  }

  lemma RepeatedMore(r: Round, n: nat)
    ensures if n == 0 then Repeated(r, n) == []
            else Repeated(r, n) != [] && Repeated(r, n)[0] == r && Repeated(r, n)[1..] == Repeated(r, n - 1)
  {
  }

  /** The round changes nothing, because every event of its batch is kept out by its link. */
  ghost predicate Exhausted(env: Env, s: LState, peer: LState, r: Round, p: Policy) {
    AllBlocked(p, s, Batch(s, peer, r)) && DoRound(env, s, peer, r, p) == s
  }

  ghost function Lacking(s: LState, peer: LState): (r: nat) {
    |peer.events.Keys - s.events.Keys|
  }

  /** With any limits, repeating a round as often as the peer has events this ledger lacks exhausts it. */
  lemma {:induction false} RepeatedRoundEnds(env: Env, s: LState, peer: LState, evs: set<Event>, r: Round, n: nat,
                                             p: Policy, clock: set<int>)
    requires Joint(env, s, peer, evs, p, clock) && FullInventory(peer, r.inv) && r.now in clock
    requires n >= Lacking(s, peer) || Exhausted(env, s, peer, r, p)
    ensures Exhausted(env, DoRounds(env, s, peer, Repeated(r, n), p), peer, r, p)
    decreases n
  {
    hide *;
    RepeatedRound(env, s, peer, r, n, p);
    RoundCounts(env, s, peer, evs, r, p, clock);
    if n > 0 {
      RepeatedRoundEnds(env, DoRound(env, s, peer, r, p), peer, evs, r, n - 1, p, clock);
    }
  }

  lemma RoundCounts(env: Env, s: LState, peer: LState, evs: set<Event>, r: Round, p: Policy, clock: set<int>)
    requires Joint(env, s, peer, evs, p, clock) && FullInventory(peer, r.inv) && r.now in clock
    ensures var t := DoRound(env, s, peer, r, p);
      && Joint(env, t, peer, evs, p, clock)
      && (if Exhausted(env, s, peer, r, p) then t == s else Lacking(t, peer) < Lacking(s, peer))
  {
    hide Joint, FullInventory, Batch, AllBlocked, DoRound, Settled;
    RoundProgress(env, s, peer, evs, r, p, clock);
  }

  lemma RepeatedRound(env: Env, s: LState, peer: LState, r: Round, n: nat, p: Policy)
    ensures DoRounds(env, s, peer, Repeated(r, n), p) ==
      if n == 0 then s else DoRounds(env, DoRound(env, s, peer, r, p), peer, Repeated(r, n - 1), p)
  {
    hide *;
    RepeatedMore(r, n);
    if n == 0 {
      NoRounds(env, s, peer, Repeated(r, n), p);
    } else {
      FirstRound(env, s, peer, Repeated(r, n), p);
    }
  }

  lemma NoRounds(env: Env, s: LState, peer: LState, rounds: seq<Round>, p: Policy)
    requires rounds == []
    ensures DoRounds(env, s, peer, rounds, p) == s
  {
  }

  /** A new node that demands known previous events gets nothing exactly if no head of its peer is a first event. */
  lemma NewNodeStallsExactly(env: Env, peer: LState, evs: set<Event>, rounds: seq<Round>, p: Policy, clock: set<int>)
    requires Joint(env, EMPTY, peer, evs, p, clock) && p.requireKnownPrev
    requires forall r | r in rounds :: FullInventory(peer, r.inv) && r.now in clock
    requires rounds != [] && Roomy(p, peer, rounds[0])
    ensures DoRounds(env, EMPTY, peer, rounds, p) == EMPTY <==>
      forall h | h in peer.heads :: h in peer.events && peer.events[h].seqNo > 1
  {
    hide Joint, DoRounds, FullInventory, Roomy, Trims, Refs, Elements, Exact, Sound, Compatible, PlainIds, Within;
    SyncStallsExactly(env, EMPTY, peer, evs, rounds, p, clock);
    JointParts(env, EMPTY, peer, evs, p, clock);
    assert EMPTY.events.Keys == {};
    forall h | h in peer.heads ensures h in peer.events && Offered(env, evs, peer, {}, h) {
      HeadsStored(env, peer, h);
    }
  }

  // ---------------------------------------------------------------- what a settled ledger holds

  lemma NothingLeft(a: set<string>, b: set<string>)
    requires |a - b| == 0
    ensures a <= b
  {
    assert a - b == {};
    forall x | x in a ensures x in b {
      assert x !in a - b;
    }
  }

  lemma SettledHoldsReachable(env: Env, s: LState, peer: LState, evs: set<Event>, p: Policy, clock: set<int>,
                              id: string)
    requires Joint(env, s, peer, evs, p, clock) && Settled(s, peer) && Reachable(env, peer, id)
    ensures id in s.events && id in peer.events && s.events[id] == peer.events[id]
  {
    hide Compatible, Exact, Sound, PlainIds, Settled;
    JointAgrees(env, s, peer, evs, p, clock);
    var path: seq<string> :| RefPath(env, peer, path) && path[|path| - 1] == id;
    SettledHoldsPath(env, s, peer, path);
  }

  lemma JointAgrees(env: Env, s: LState, peer: LState, evs: set<Event>, p: Policy, clock: set<int>)
    requires Joint(env, s, peer, evs, p, clock)
    ensures Agree(s, peer)
  {
    hide LinkConsistent, Acceptable, PlainIds, MarksSound, MissingSound, AuthorSound, AllValid, HeadsBetween,
      MissingExact, MarksExact, AuthorComplete;
    forall id | id in s.events && id in peer.events ensures s.events[id] == peer.events[id] {
      IdentifierDecides(evs, s.events[id], peer.events[id]);
    }
  }

  // ---------------------------------------------------------------- what is reachable

  /** With acyclic references, every head-affecting event of a sound ledger is reachable from its heads. */
  lemma {:induction false} HeadAffectingReachable(env: Env, peer: LState, rank: map<string, nat>, top: nat, id: string)
    requires PlainIds(env) && Sound(env, peer) && Ranked(peer.events, rank) && (forall x | x in rank :: rank[x] <= top)
    requires id in peer.events && AffectsHeads(peer.events[id].kind)
    ensures Reachable(env, peer, id)
    decreases top - rank[id]
  {
    hide AffectsHeads, HeadRefs, Refs, PlainIds, Sound;
    if id in RecomputedHeads(peer.events) {
      HeadPath(env, peer, id);
    } else {
      var other :| other in peer.events && AffectsHeads(peer.events[other].kind) && id in HeadRefs(peer.events[other]);
      HeadAffectingReachable(env, peer, rank, top, other);
      var path: seq<string> :| RefPath(env, peer, path) && path[|path| - 1] == other;
      HeadRefIsRef(env, peer, other, id);
      ExtendPath(env, peer, path, id);
    }
  }

  lemma HeadPath(env: Env, peer: LState, id: string)
    requires Sound(env, peer) && id in RecomputedHeads(peer.events)
    ensures Reachable(env, peer, id)
  {
    hide AffectsHeads, HeadRefs, Refs, MarksSound, MissingSound, AuthorSound, AllValid, RecomputedHeads;
    assert RefPath(env, peer, [id]) by {
      assert id in peer.heads && id in peer.events;
    }
  }

  lemma ExtendPath(env: Env, peer: LState, path: seq<string>, id: string)
    requires RefPath(env, peer, path) && id in peer.events && id in Refs(env, peer.events[path[|path| - 1]])
    ensures Reachable(env, peer, id)
  {
    hide Refs;
    var longer := path + [id];
    assert RefPath(env, peer, longer);
  }

  lemma HeadRefIsRef(env: Env, peer: LState, other: string, id: string)
    requires PlainIds(env) && Sound(env, peer) && other in peer.events && id in peer.events
    requires id in HeadRefs(peer.events[other])
    ensures id in Refs(env, peer.events[other])
  {
    hide TrimSpace, AttestedId, MarksSound, MissingSound, AuthorSound, HeadsBetween, Genuine, PlainIds;
    var ev := peer.events[other];
    StoredPlain(env, peer, id);
    assert Validates(env, ev);
    if id in ev.parents {
      var k :| 0 <= k < |ev.parents| && ev.parents[k] == id;
    }
  }

  /** So, if nothing is held back, the rounds deliver every head-affecting event of a peer with acyclic references. */
  lemma SyncDeliversHistory(env: Env, s: LState, peer: LState, evs: set<Event>, rounds: seq<Round>, p: Policy,
                            clock: set<int>, id: string)
    requires Joint(env, s, peer, evs, p, clock) && Acyclic(peer.events) && NothingHeldBack(p, s, peer)
    requires forall r | r in rounds :: FullInventory(peer, r.inv) && r.now in clock && Roomy(p, peer, r)
    requires |rounds| >= |peer.events.Keys - s.events.Keys|
    requires id in peer.events && AffectsHeads(peer.events[id].kind)
    ensures var t := DoRounds(env, s, peer, rounds, p);
      id in t.events && t.events[id] == peer.events[id]
  {
    hide DoRounds, Exact, Compatible, Sound, PlainIds, Settled, Reachable, AffectsHeads, FullInventory, Closed, Roomy,
      NothingHeldBack;
    var rank: map<string, nat> :| Ranked(peer.events, rank);
    var ranks := set x | x in rank :: rank[x];
    forall x | x in rank ensures rank[x] <= MaxOf(ranks) {
      assert rank[x] in ranks;
    }
    HeadAffectingReachable(env, peer, rank, MaxOf(ranks), id);
    SyncConverges(env, s, peer, evs, rounds, p, clock);
  }
}
