/** What a pruning that drops something costs: the indexes are emptied and not rebuilt. */
module PruningEffects {
  import opened LedgerIndexes
  import opened LedgerInvariants
  import opened LedgerModel
  import opened LedgerRuns
  import opened Results
  import opened Retention
  import opened Strings

  /** Author, missing and witness indexes are empty, whatever is stored. */
  ghost predicate Forgotten(t: LState) {
    t.authorSeq == map[] && t.missing == map[] && t.marks == {}
  }

  lemma RetainForgets(env: Env, s: LState, pol: RetentionPolicy, now: int)
    requires Pruned(s, pol, now) != {}
    ensures var t := Retain(env, s, pol, now);
      && Forgotten(t) && t.events == s.events - Pruned(s, pol, now) && t.compromised == s.compromised
      && t.events != s.events
  {
    hide Pruned, AnchorOf, RecomputedHeads;
    PrunedStored(s, pol, now);
    PrunedNeedsLimit(s, pol, now);
    var id :| id in Pruned(s, pol, now);
    assert id in s.events && id !in s.events - Pruned(s, pol, now);
  }

  lemma PrunedNeedsLimit(s: LState, pol: RetentionPolicy, now: int)
    ensures Pruned(s, pol, now) != {} ==> pol.maxEvents > 0 || pol.maxAge > 0
  {
    hide Protected, Candidates;
  }

  lemma RetainByKindForgets(s: LState, p: Policy, now: int)
    requires PrunedByKind(s, p, now) != {}
    ensures var t := RetainByKind(s, p, now);
      && Forgotten(t) && t.events == s.events - PrunedByKind(s, p, now) && t.compromised == s.compromised
      && t.events != s.events
  {
    hide Referenced, RecomputedHeads;
    var id :| id in PrunedByKind(s, p, now);
    assert id in s.events && id !in s.events - PrunedByKind(s, p, now);
  }

  /** Both prunings either change nothing or forget the indexes. */
  lemma PruningForgets(env: Env, s: LState, step: Step)
    requires step.Prunes() && Do(env, s, step) != s
    ensures Forgotten(Do(env, s, step)) && Do(env, s, step).events.Keys <= s.events.Keys
    ensures forall id | id in Do(env, s, step).events :: Do(env, s, step).events[id] == s.events[id]
  {
    hide Pruned, PrunedByKind, AnchorOf, Rebuilt, Forgotten;
    if step.ApplyRetention? {
      RetainForgets(env, s, step.retention, step.when);
    } else {
      RetainByKindForgets(s, step.kinds, step.time);
    }
  }

  // ---------------------------------------------------------------- exactness

  /** Empty indexes are exact only for an empty ledger. */
  lemma ForgottenExactIff(env: Env, t: LState)
    requires Forgotten(t)
    ensures Exact(env, t) <==> t.events == map[]
  {
    hide RefCount, MarkOf;
    if t.events == map[] {
      forall x: string ensures MissingExactAt(env, t, x) {
        NothingRefers(env, t.events, x);
      }
    } else {
      var id :| id in t.events;
      assert !AuthorComplete(t);
    }
  }

  lemma NothingRefers(env: Env, events: map<string, Event>, x: string)
    requires events == map[]
    ensures RefCount(env, events, x) == 0
  {
    assert events.Keys == {};
  }

  /** Retention keeps exact indexes exact if and only if it drops nothing or everything. */
  lemma RetentionKeepsExactIff(env: Env, s: LState, pol: RetentionPolicy, now: int)
    requires Exact(env, s)
    ensures Exact(env, Retain(env, s, pol, now)) <==>
        Pruned(s, pol, now) == {} || Pruned(s, pol, now) == s.events.Keys
  {
    hide Exact, Pruned, AnchorOf, Rebuilt, Forgotten;
    PrunedStored(s, pol, now);
    if Pruned(s, pol, now) != {} {
      RetainForgets(env, s, pol, now);
      ForgottenExactIff(env, Retain(env, s, pol, now));
      AllRemoved(s.events, Pruned(s, pol, now));
    }
  }

  lemma KindPruningKeepsExactIff(env: Env, s: LState, p: Policy, now: int)
    requires Exact(env, s)
    ensures Exact(env, RetainByKind(s, p, now)) <==>
        PrunedByKind(s, p, now) == {} || PrunedByKind(s, p, now) == s.events.Keys
  {
    hide Exact, Rebuilt, Forgotten, Referenced;
    assert PrunedByKind(s, p, now) <= s.events.Keys;
    if PrunedByKind(s, p, now) != {} {
      RetainByKindForgets(s, p, now);
      ForgottenExactIff(env, RetainByKind(s, p, now));
      AllRemoved(s.events, PrunedByKind(s, p, now));
    }
  }

  lemma AllRemoved(events: map<string, Event>, gone: set<string>)
    requires gone <= events.Keys
    ensures events - gone == map[] <==> gone == events.Keys
  {
    var rest := events - gone;
    assert rest.Keys == events.Keys - gone;
    assert rest == map[] <==> rest.Keys == {};
    if events.Keys - gone == {} {
      forall id | id in events ensures id in gone {
        assert id !in events.Keys - gone;
      }
    }
  }

  /** A stored event that the author index misses is missed for ever, as long as nothing is dropped. */
  lemma MoveKeepsGap(env: Env, s: LState, m: Move, t: LState)
    requires Moved(env, s, m, t) && !m.Drop? && !AuthorComplete(s)
    ensures !AuthorComplete(t)
  {
    hide Refs, MarkOf, Track, Heads, Validates;
    var id :| id in s.events
      && !((s.events[id].author, s.events[id].seqNo as nat) in s.authorSeq
           && s.authorSeq[(s.events[id].author, s.events[id].seqNo as nat)] == id);
    assert id in t.events && t.events[id] == s.events[id];
  }

  lemma {:induction false} PathKeepsGap(env: Env, states: seq<LState>, moves: seq<Move>, i: nat)
    requires Path(env, states, moves) && i <= |moves| && !AuthorComplete(states[0])
    requires forall k | 0 <= k < |moves| :: !moves[k].Drop?
    ensures !AuthorComplete(states[i])
  {
    hide Moved, AuthorComplete;
    if i > 0 {
      PathKeepsGap(env, states, moves, i - 1);
      MoveKeepsGap(env, states[i - 1], moves[i - 1], states[i]);
    }
  }

  lemma StepKeepsGap(env: Env, s: LState, step: Step)
    requires !AuthorComplete(s) && !step.Prunes()
    ensures !AuthorComplete(Do(env, s, step))
  {
    hide Do, Moved, AuthorComplete, OwnMove, ReceivedMove;
    var states, moves := StepPath(env, s, step);
    forall k | 0 <= k < |moves| ensures !moves[k].Drop? {
      assert Allowed(env, s, states[k], moves[k], step);
      NotADrop(env, s, states[k], moves[k], step);
    }
    PathKeepsGap(env, states, moves, |moves|);
  }

  /** Nothing was dropped since the start, or the last drop left nothing. */
  ghost predicate Unpruned(env: Env, s: LState, steps: seq<Step>)
    decreases |steps|
  {
    if steps == [] then true
    else
      var init, step := steps[..|steps| - 1], steps[|steps| - 1];
      var t, u := Exec(env, s, init), Exec(env, s, steps);
      if step.Prunes() && u != t then u.events == map[] else Unpruned(env, s, init)
  }

  lemma ForgottenGap(t: LState)
    requires Forgotten(t) && t.events != map[]
    ensures !AuthorComplete(t)
  {
    var id :| id in t.events;
  }

  /**
   * Along every run from exact indexes, the indexes are exact if and only if nothing was dropped, or the last
   * drop left no event. In between the author index has a gap that no later arrival closes.
   */
  lemma {:induction false} ExactExactlyUntilPruned(env: Env, s: LState, steps: seq<Step>)
    requires Exact(env, s)
    ensures Exact(env, Exec(env, s, steps)) <==> Unpruned(env, s, steps)
    ensures AuthorComplete(Exec(env, s, steps)) <==> Unpruned(env, s, steps)
    decreases |steps|
  {
    hide Do, Exact, AuthorComplete, Forgotten;
    ExactOrGap(env, s);
    if steps != [] {
      var init, step := steps[..|steps| - 1], steps[|steps| - 1];
      var t, u := Exec(env, s, init), Exec(env, s, steps);
      ExactExactlyUntilPruned(env, s, init);
      ExactOrGap(env, u);
      if step.Prunes() && u != t {
        PruningForgets(env, t, step);
        ForgottenExactIff(env, u);
        if u.events != map[] {
          ForgottenGap(u);
        }
      } else if Unpruned(env, s, init) {
        StepGrows(env, t, step);
      } else if !step.Prunes() {
        StepKeepsGap(env, t, step);
      }
    }
  }

  lemma ExactOrGap(env: Env, s: LState)
    ensures Exact(env, s) ==> AuthorComplete(s)
  {
    hide MissingExact, MarksExact, Keyed, AuthorSound;
  }

  // ---------------------------------------------------------------- equivocation after a pruning

  lemma EmitKeepsCompromised(env: Env, s: LState, p: Policy, obs: Observer, kind: string, payload: Payload, now: int)
    ensures Emit(env, s, p, obs, kind, payload, now).compromised == s.compromised
  {
    hide NextDraft, Acceptable, Track, MarkOf, Heads, Refs, Conflicts;
  }

  lemma AutoWitnessKeepsCompromised(env: Env, s: LState, ev: Event, context: string, p: Policy, obs: Option<Observer>,
                                    now: int)
    ensures AutoWitness(env, s, ev, context, p, obs, now).compromised == s.compromised
  {
    hide Emit, IsCriticalKind, TrimSpace;
    if obs.Some? {
      var o, ctx := obs.value, TrimSpace(context);
      EmitKeepsCompromised(env, s, p, o, KIND_WITNESS_ATTEST, Attestation(ev.id, ctx), now);
      var s1 := Emit(env, s, p, o, KIND_WITNESS_ATTEST, Attestation(ev.id, ctx), now);
      var h, h1 := env.headsHash(s.heads), env.headsHash(s1.heads);
      EmitKeepsCompromised(env, s, p, o, KIND_WITNESS_CHECKPOINT, Checkpoint(ctx, h), now);
      EmitKeepsCompromised(env, s1, p, o, KIND_WITNESS_CHECKPOINT, Checkpoint(ctx, h1), now);
    }
  }

  /**
   * While the author index lacks their number, a second event with the author and number of a stored one is
   * accepted: both are stored, nobody is compromised, and the number names two events.
   */
  lemma GapHidesEquivocation(env: Env, t: LState, other: string, ev: Event, context: string, p: Policy,
                             obs: Option<Observer>, now: int)
    requires (ev.author, ev.seqNo as nat) !in t.authorSeq && other in t.events && t.events[other].author == ev.author
    requires t.events[other].seqNo == ev.seqNo
    requires Acceptable(env, p, now, ev) && ev.id !in t.events && LinkFault(t, ev) == None
    requires p.requireKnownPrev && ev.seqNo > 1 ==> ev.prev in t.events
    ensures var (u, refusal) := Apply(env, t, ev, context, p, obs, now);
      && refusal == None && other in u.events && ev.id in u.events && u.compromised == t.compromised
      && !OneEventPerNumber(u)
  {
    hide Acceptable, AutoWitness, Stored, Grows;
    var u := Apply(env, t, ev, context, p, obs, now).0;
    var v := Stored(env, t, ev);
    AcceptedIsInserted(env, t, ev, context, p, obs, now);
    AutoWitnessKeepsCompromised(env, v, ev, context, p, obs, now);
    WitnessingKeeps(env, v, ev, context, p, obs, now);
    StoredTwice(env, t, other, ev);
    TwiceStays(v, u, other, ev.id);
  }

  lemma AcceptedIsInserted(env: Env, t: LState, ev: Event, context: string, p: Policy, obs: Option<Observer>, now: int)
    requires Acceptable(env, p, now, ev) && ev.id !in t.events && LinkFault(t, ev) == None && !Conflicts(t, ev)
    requires p.requireKnownPrev && ev.seqNo > 1 ==> ev.prev in t.events
    ensures Apply(env, t, ev, context, p, obs, now)
        == (AutoWitness(env, Stored(env, t, ev), ev, context, p, obs, now), None)
  {
    hide AutoWitness, Stored, LinkFault, WellFormed, Genuine, PolicyVerdict;
  }

  lemma WitnessingKeeps(env: Env, s: LState, ev: Event, context: string, p: Policy, obs: Option<Observer>, now: int)
    ensures Grows(s, AutoWitness(env, s, ev, context, p, obs, now))
  {
    hide AutoWitness, Moved, Grows, OwnMove, Exact;
    var states, moves := AutoWitnessPath(env, [s], [], ev, context, p, obs, now);
    forall k | 0 <= k < |moves| ensures !moves[k].Drop? {
      assert OwnMove(env, states[k], moves[k], obs);
      OwnIsStore(env, states[k], moves[k], obs);
    }
    PathGrows(env, states, moves, |moves|);
  }

  lemma OwnIsStore(env: Env, s: LState, m: Move, obs: Option<Observer>)
    requires OwnMove(env, s, m, obs)
    ensures m.Store?
  {
    hide NextDraft;
  }

  lemma StoredTwice(env: Env, t: LState, other: string, ev: Event)
    requires other in t.events && t.events[other].author == ev.author && t.events[other].seqNo == ev.seqNo
    requires ev.id !in t.events
    ensures var v := Stored(env, t, ev);
      && v.compromised == t.compromised && other in v.events && ev.id in v.events && other != ev.id
      && v.events[other].author == v.events[ev.id].author && v.events[other].seqNo == v.events[ev.id].seqNo
  {
    hide Track, Refs, MarkOf, Heads;
  }

  lemma TwiceStays(v: LState, u: LState, a: string, b: string)
    requires Grows(v, u) && a in v.events && b in v.events && a != b
    requires v.events[a].author == v.events[b].author && v.events[a].seqNo == v.events[b].seqNo
    ensures a in u.events && b in u.events && !OneEventPerNumber(u)
  {
    assert u.events[a] == v.events[a] && u.events[b] == v.events[b];
  }

  /** No event of this author and number becomes stored on the way. */
  ghost predicate NoneArrives(env: Env, s: LState, steps: seq<Step>, author: string, n: U64) {
    forall i | 0 <= i < |steps| ::
      NoneStored(Exec(env, s, steps[..i]), Do(env, Exec(env, s, steps[..i]), steps[i]), author, n)
  }

  ghost predicate NoneStored(s: LState, t: LState, author: string, n: U64) {
    forall id | id in t.events && id !in s.events :: !(t.events[id].author == author && t.events[id].seqNo == n)
  }

  lemma MoveKeepsUnindexed(env: Env, s: LState, m: Move, t: LState, author: string, n: U64)
    requires Moved(env, s, m, t) && (author, n as nat) !in s.authorSeq
    requires m.Store? ==> !(m.ev.author == author && m.ev.seqNo == n)
    ensures (author, n as nat) !in t.authorSeq
  {
    hide Refs, MarkOf, Track, Heads, Validates, Referenced, RecomputedHeads, Conflicts;
  }

  lemma {:induction false} PathKeepsUnindexed(env: Env, states: seq<LState>, moves: seq<Move>, i: nat, author: string,
                                              n: U64)
    requires Path(env, states, moves) && i <= |moves| && (author, n as nat) !in states[0].authorSeq
    requires forall k | 0 <= k < |moves| && moves[k].Store? :: !(moves[k].ev.author == author && moves[k].ev.seqNo == n)
    ensures (author, n as nat) !in states[i].authorSeq
  {
    hide Moved;
    if i > 0 {
      PathKeepsUnindexed(env, states, moves, i - 1, author, n);
      MoveKeepsUnindexed(env, states[i - 1], moves[i - 1], states[i], author, n);
    }
  }

  /** What is stored on a path without drops is stored at its end and was not stored at its start. */
  lemma {:induction false} PathStores(env: Env, states: seq<LState>, moves: seq<Move>, k: nat)
    requires Path(env, states, moves) && k < |moves| && moves[k].Store?
    requires forall i | 0 <= i < |moves| :: !moves[i].Drop?
    ensures moves[k].ev.id !in states[0].events
    ensures moves[k].ev.id in Last(states).events && Last(states).events[moves[k].ev.id] == moves[k].ev
    decreases |moves|
  {
    hide Stored, Validates, Conflicts, Exact;
    var last, ev := |moves| - 1, moves[k].ev;
    assert Moved(env, states[k], moves[k], states[k + 1]) && Moved(env, states[last], moves[last], states[last + 1]);
    if k == last {
      assert Path(env, states[..last + 1], moves[..last]);
      PathGrows(env, states[..last + 1], moves[..last], last);
      StoredFields(env, states[k], ev);
    } else {
      assert Path(env, states[..last + 1], moves[..last]);
      PathStores(env, states[..last + 1], moves[..last], k);
      MoveGrows(env, states[last], moves[last], states[last + 1]);
    }
  }

  lemma StepKeepsUnindexed(env: Env, s: LState, step: Step, author: string, n: U64)
    requires (author, n as nat) !in s.authorSeq && NoneStored(s, Do(env, s, step), author, n)
    ensures (author, n as nat) !in Do(env, s, step).authorSeq
  {
    hide Do, Moved, OwnMove, ReceivedMove, Forgotten;
    if step.Prunes() {
      if Do(env, s, step) != s {
        PruningForgets(env, s, step);
        ForgottenLacks(Do(env, s, step), author, n);
      }
    } else {
      var states, moves := StepPath(env, s, step);
      forall k | 0 <= k < |moves| ensures !moves[k].Drop? {
        assert Allowed(env, s, states[k], moves[k], step);
        NotADrop(env, s, states[k], moves[k], step);
      }
      forall k | 0 <= k < |moves| && moves[k].Store? ensures !(moves[k].ev.author == author && moves[k].ev.seqNo == n) {
        PathStores(env, states, moves, k);
      }
      PathKeepsUnindexed(env, states, moves, |moves|, author, n);
    }
  }

  lemma ForgottenLacks(t: LState, author: string, n: U64)
    requires Forgotten(t)
    ensures (author, n as nat) !in t.authorSeq
  {
  }

  lemma {:induction false} RunKeepsUnindexed(env: Env, s: LState, steps: seq<Step>, author: string, n: U64)
    requires (author, n as nat) !in s.authorSeq && NoneArrives(env, s, steps, author, n)
    ensures (author, n as nat) !in Exec(env, s, steps).authorSeq
    decreases |steps|
  {
    hide Do, NoneStored;
    if steps != [] {
      var k := |steps| - 1;
      var init := steps[..k];
      forall i | 0 <= i < k
        ensures NoneStored(Exec(env, s, init[..i]), Do(env, Exec(env, s, init[..i]), init[i]), author, n)
      {
        assert init[..i] == steps[..i] && init[i] == steps[i];
      }
      RunKeepsUnindexed(env, s, init, author, n);
      StepKeepsUnindexed(env, Exec(env, s, init), steps[k], author, n);
    }
  }

  /**
   * After a pruning that dropped something, an equivocation against a survivor goes undetected, however much
   * later it comes, until some event of that author and number has been stored again.
   */
  lemma PruningHidesEquivocation(env: Env, s: LState, step: Step, steps: seq<Step>, other: string, ev: Event,
                                 context: string, p: Policy, obs: Option<Observer>, now: int)
    requires step.Prunes() && Do(env, s, step) != s
    requires NoneArrives(env, Do(env, s, step), steps, ev.author, ev.seqNo)
    requires var t := Exec(env, Do(env, s, step), steps);
      && other in t.events && t.events[other].author == ev.author && t.events[other].seqNo == ev.seqNo
      && ev.id !in t.events && LinkFault(t, ev) == None && (p.requireKnownPrev && ev.seqNo > 1 ==> ev.prev in t.events)
    requires Acceptable(env, p, now, ev)
    ensures var t := Exec(env, Do(env, s, step), steps);
      var (u, refusal) := Apply(env, t, ev, context, p, obs, now);
      && refusal == None && other in u.events && ev.id in u.events && u.compromised == t.compromised
      && !OneEventPerNumber(u)
  {
    hide Do, Exec, Forgotten, Apply, Acceptable, LinkFault, OneEventPerNumber, NoneArrives;
    PruningForgets(env, s, step);
    ForgottenLacks(Do(env, s, step), ev.author, ev.seqNo);
    RunKeepsUnindexed(env, Do(env, s, step), steps, ev.author, ev.seqNo);
    GapHidesEquivocation(env, Exec(env, Do(env, s, step), steps), other, ev, context, p, obs, now);
  }

  /** Before any pruning the same event is refused as an equivocation and both keys are compromised. */
  lemma ExactDetectsEquivocation(env: Env, s: LState, other: string, ev: Event, context: string, p: Policy, now: int)
    requires Exact(env, s) && other in s.events && s.events[other].author == ev.author
    requires s.events[other].seqNo == ev.seqNo
    requires Acceptable(env, p, now, ev) && ev.id !in s.events
    ensures var (u, refusal) := Apply(env, s, ev, context, p, None, now);
      && refusal == Some(Equivocation) && u.events == s.events
      && u.compromised == s.compromised + {s.events[other].authorKey, ev.authorKey}
  {
    hide MissingExact, MarksExact, WellFormed, Genuine, PolicyVerdict;
    assert s.authorSeq[(ev.author, ev.seqNo as nat)] == other;
  }

  /** After a pruning that dropped something, every author's next own event starts again at number 1. */
  lemma PruningRestartsNumbers(env: Env, s: LState, step: Step, author: string)
    requires step.Prunes() && Do(env, s, step) != s
    ensures NextLink(Do(env, s, step), author) == (1, "")
  {
    hide Do;
    PruningForgets(env, s, step);
    var t := Do(env, s, step);
    assert SeqsOf(t, author) == {};
  }

  /**
   * So after such a pruning the node incriminates itself: a peer with exact indexes that holds its first event
   * refuses its next own event as an equivocation and compromises the node's key.
   */
  lemma PruningIncriminatesSelf(env: Env, s: LState, step: Step, obs: Observer, kind: string, payload: Payload, at: int,
                                peer: LState, other: string, p: Policy, now: int)
    requires step.Prunes() && Do(env, s, step) != s
    requires Exact(env, peer) && other in peer.events
    requires peer.events[other].author == TrimSpace(obs.author) && peer.events[other].seqNo == 1
    requires var ev := NextDraft(env, Do(env, s, step), obs, kind, payload, at);
      Acceptable(env, p, now, ev) && ev.id !in peer.events
    ensures var ev := NextDraft(env, Do(env, s, step), obs, kind, payload, at);
      var (u, refusal) := Apply(env, peer, ev, "", p, None, now);
      && refusal == Some(Equivocation) && u.events == peer.events
      && {peer.events[other].authorKey, obs.key} <= u.compromised
  {
    hide Do, Exact, NextLink, Normalized, Acceptable, Apply, TrimSpace, NextParents;
    PruningRestartsNumbers(env, s, step, obs.author);
    var ev := NextDraft(env, Do(env, s, step), obs, kind, payload, at);
    ExactDetectsEquivocation(env, peer, other, ev, "", p, now);
  }
}
