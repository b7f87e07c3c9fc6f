/** What every run of the ledger keeps. */
module LedgerInvariants {
  import opened LedgerIndexes
  import opened LedgerModel
  import opened LedgerRuns
  import opened Results
  import opened Retention
  import opened Sorting
  import opened Strings

  // ---------------------------------------------------------------- soundness of the indexes

  ghost predicate AllValid(env: Env, s: LState) {
    forall id | id in s.events :: Validates(env, s.events[id])
  }

  ghost predicate MarksSound(env: Env, s: LState) {
    forall m: Mark | m in s.marks :: exists id :: id in s.events && MarkOf(env, s.events[id]) == Some(m)
  }

  ghost predicate MissingSound(env: Env, s: LState) {
    forall x: string | x in s.missing :: x !in s.events && 0 < s.missing[x] <= RefCount(env, s.events, x)
  }

  /** The recomputed heads are heads, and heads are stored events of a head-affecting kind. */
  ghost predicate HeadsBetween(s: LState) {
    && RecomputedHeads(s.events) <= s.heads
    && forall h | h in s.heads :: h in s.events && AffectsHeads(s.events[h].kind)
  }

  ghost predicate Sound(env: Env, s: LState) {
    && Keyed(s.events) && AllValid(env, s) && AuthorSound(s)
    && MarksSound(env, s) && MissingSound(env, s) && HeadsBetween(s)
  }

  lemma StoredMissingSound(env: Env, s: LState, ev: Event)
    requires MissingSound(env, s) && ev.id !in s.events
    ensures MissingSound(env, Stored(env, s, ev))
  {
    hide Refs, MarkOf, RefCount, Track, Heads;
    var t := Stored(env, s, ev);
    forall x: string | x in t.missing
      ensures x !in t.events && 0 < t.missing[x] <= RefCount(env, t.events, x)
    {
      RefCountInsert(env, s.events, ev, x);
      RefCountNonnegative(env, s.events, x);
      TrackCounts(s.missing - {ev.id}, t.events, Refs(env, ev), x);
    }
  }

  lemma StoredMarksSound(env: Env, s: LState, ev: Event)
    requires MarksSound(env, s) && ev.id !in s.events
    ensures MarksSound(env, Stored(env, s, ev))
  {
    hide Refs, MarkOf, Track, Heads;
    var t := Stored(env, s, ev);
    forall m: Mark | m in t.marks
      ensures exists id :: id in t.events && MarkOf(env, t.events[id]) == Some(m)
    {
      if m in s.marks {
        var id :| id in s.events && MarkOf(env, s.events[id]) == Some(m);
        assert id in t.events && t.events[id] == s.events[id];
      } else {
        assert ev.id in t.events && MarkOf(env, t.events[ev.id]) == Some(m);
      }
    }
  }

  lemma StoredHeads(env: Env, s: LState, ev: Event)
    requires Keyed(s.events) && HeadsBetween(s) && ev.id !in s.events
    ensures HeadsBetween(Stored(env, s, ev))
  {
    hide Refs, MarkOf, Track, AffectsHeads;
    var t := Stored(env, s, ev);
    forall h | h in RecomputedHeads(t.events)
      ensures h in t.heads
    {
      if h != ev.id {
        assert h in s.events && AffectsHeads(s.events[h].kind);
        forall other | other in s.events && AffectsHeads(s.events[other].kind)
          ensures h !in HeadRefs(s.events[other])
        {
          assert other in t.events && t.events[other] == s.events[other];
        }
        assert h in RecomputedHeads(s.events);
        assert ev.id in t.events && t.events[ev.id] == ev;
      } else {
        assert AffectsHeads(ev.kind);
      }
    }
  }

  lemma MoveKeepsSound(env: Env, s: LState, m: Move, t: LState)
    requires Sound(env, s) && Moved(env, s, m, t)
    ensures Sound(env, t)
  {
    match m
    case Store(ev) =>
      StoredSound(env, s, ev);
    case Suspect(keys) =>
      SuspectSound(env, s, t);
    case Drop(gone) =>
      DropSound(env, s, gone, t);
  }

  lemma StoredSound(env: Env, s: LState, ev: Event)
    requires Sound(env, s) && Validates(env, ev) && ev.id !in s.events
    ensures Sound(env, Stored(env, s, ev))
  {
    hide MissingSound, MarksSound, HeadsBetween, AuthorSound, Keyed, Validates;
    StoredMissingSound(env, s, ev); StoredMarksSound(env, s, ev); StoredHeads(env, s, ev); StoredAuthors(env, s, ev);
  }

  lemma SuspectSound(env: Env, s: LState, t: LState)
    requires Sound(env, s) && t == s.(compromised := t.compromised)
    ensures Sound(env, t)
  {
    hide RefCount, MarkOf, Validates;
  }

  lemma DropSound(env: Env, s: LState, gone: set<string>, t: LState)
    requires Sound(env, s) && t == Rebuilt(s, s.events - gone).(anchors := t.anchors)
    ensures Sound(env, t)
    ensures t.heads == RecomputedHeads(t.events)
  {
    hide RefCount, MarkOf, Validates;
  }

  lemma {:induction false} PathKeepsSound(env: Env, states: seq<LState>, moves: seq<Move>, i: nat)
    requires Path(env, states, moves) && Sound(env, states[0]) && i <= |moves|
    ensures Sound(env, states[i])
  {
    hide Sound, Moved;
    if i > 0 {
      PathKeepsSound(env, states, moves, i - 1);
      MoveKeepsSound(env, states[i - 1], moves[i - 1], states[i]);
    }
  }

  lemma StepKeepsSound(env: Env, s: LState, step: Step)
    requires Sound(env, s)
    ensures Sound(env, Do(env, s, step))
  {
    hide Sound, Do, Moved, Allowed;
    var states, moves := StepPath(env, s, step);
    PathKeepsSound(env, states, moves, |moves|);
  }

  lemma EmptySound(env: Env)
    ensures Sound(env, EMPTY)
  {
  }

  /**
   * Soundness of every index, and the bounds on the heads, hold in every run from a sound ledger, retention
   * included.
   */
  lemma {:induction false} RunIsSound(env: Env, s: LState, steps: seq<Step>)
    requires Sound(env, s)
    ensures Sound(env, Exec(env, s, steps))
  {
    hide Sound, Do;
    if steps != [] {
      RunIsSound(env, s, steps[..|steps| - 1]);
      StepKeepsSound(env, Exec(env, s, steps[..|steps| - 1]), steps[|steps| - 1]);
    }
  }

  // ---------------------------------------------------------------- heads

  ghost predicate HeadsExact(s: LState) {
    s.heads == RecomputedHeads(s.events)
  }

  /** No stored head-affecting event refers to the arriving one. */
  ghost predicate ArrivesFirst(s: LState, ev: Event) {
    AffectsHeads(ev.kind) ==>
      && ev.id !in HeadRefs(ev)
      && forall other | other in s.events && AffectsHeads(s.events[other].kind) :: ev.id !in HeadRefs(s.events[other])
  }

  lemma StoredHeadsExact(env: Env, s: LState, ev: Event)
    requires HeadsExact(s) && ev.id !in s.events && ArrivesFirst(s, ev)
    ensures HeadsExact(Stored(env, s, ev))
  {
    hide Refs, MarkOf, Track, AffectsHeads, HeadRefs;
    var t := Stored(env, s, ev);
    forall h
      ensures h in t.heads <==> h in RecomputedHeads(t.events)
    {
      if h in RecomputedHeads(s.events) || h in RecomputedHeads(t.events) {
        forall other | other in s.events && AffectsHeads(s.events[other].kind)
          ensures other in t.events && t.events[other] == s.events[other]
        {
        }
        assert ev.id in t.events && t.events[ev.id] == ev;
      }
    }
  }

  lemma MoveKeepsHeadsExact(env: Env, s: LState, m: Move, t: LState)
    requires HeadsExact(s) && Moved(env, s, m, t)
    requires m.Store? ==> ArrivesFirst(s, m.ev)
    ensures HeadsExact(t)
  {
    hide ArrivesFirst, RecomputedHeads, Stored;
    if m.Store? {
      StoredHeadsExact(env, s, m.ev);
    } else if m.Drop? {
      RebuiltHeads(s, s.events - m.gone);
    }
  }

  lemma RebuiltHeads(s: LState, events: map<string, Event>)
    ensures Rebuilt(s, events).heads == RecomputedHeads(events) && Rebuilt(s, events).events == events
  {
  }

  lemma {:induction false} PathKeepsHeadsExact(env: Env, states: seq<LState>, moves: seq<Move>, i: nat)
    requires Path(env, states, moves) && HeadsExact(states[0]) && i <= |moves|
    requires forall k | 0 <= k < |moves| && moves[k].Store? :: ArrivesFirst(states[k], moves[k].ev)
    ensures HeadsExact(states[i])
  {
    hide HeadsExact, Moved, ArrivesFirst;
    if i > 0 {
      PathKeepsHeadsExact(env, states, moves, i - 1);
      MoveKeepsHeadsExact(env, states[i - 1], moves[i - 1], states[i]);
    }
  }

  /** The step brings an event that is not stored yet. */
  ghost predicate BringsNew(s: LState, step: Step) {
    step.Brings() && step.ev.id !in s.events
  }

  /** References arrive before their referrers; what is stored already may come again at any time. */
  ghost predicate Causal(env: Env, s: LState, steps: seq<Step>) {
    forall i | 0 <= i < |steps| && BringsNew(Exec(env, s, steps[..i]), steps[i]) ::
      ArrivesFirst(Exec(env, s, steps[..i]), steps[i].ev)
  }

  lemma StepKeepsHeadsExact(env: Env, s: LState, step: Step)
    requires HeadsExact(s) && (BringsNew(s, step) ==> ArrivesFirst(s, step.ev))
    ensures HeadsExact(Do(env, s, step))
  {
    hide HeadsExact, Do, Moved, LinkFault, NextDraft;
    var states, moves := StepPath(env, s, step);
    forall k | 0 <= k < |moves| && moves[k].Store?
      ensures ArrivesFirst(states[k], moves[k].ev)
    {
      assert Allowed(env, s, states[k], moves[k], step) && Moved(env, states[k], moves[k], states[k + 1]);
      NewStore(env, s, states[k], moves[k], states[k + 1], step);
    }
    PathKeepsHeadsExact(env, states, moves, |moves|);
  }

  /** A store is of a new event, or of an own one that leaves the heads alone. */
  lemma NewStore(env: Env, before: LState, s: LState, m: Move, t: LState, step: Step)
    requires Allowed(env, before, s, m, step) && Moved(env, s, m, t) && m.Store?
    requires BringsNew(before, step) ==> ArrivesFirst(before, step.ev)
    ensures ArrivesFirst(s, m.ev)
  {
    hide Stored, Validates, NextDraft, LinkFault, HeadRefs;
  }

  /** When references arrive before referrers, the incremental heads stay the recomputed heads in every run. */
  lemma {:induction false} CausalRunHeads(env: Env, s: LState, steps: seq<Step>)
    requires HeadsExact(s) && Causal(env, s, steps)
    ensures HeadsExact(Exec(env, s, steps))
  {
    hide Do, ArrivesFirst, HeadsExact;
    if steps != [] {
      var k := |steps| - 1;
      var init := steps[..k];
      forall i | 0 <= i < k && BringsNew(Exec(env, s, init[..i]), init[i])
        ensures ArrivesFirst(Exec(env, s, init[..i]), init[i].ev)
      {
        assert init[..i] == steps[..i] && init[i] == steps[i];
      }
      CausalRunHeads(env, s, init);
      StepKeepsHeadsExact(env, Exec(env, s, init), steps[k]);
    }
  }

  /** In a sound ledger retention never drops a head-affecting event. */
  lemma RetentionSparesHeadAffecting(env: Env, s: LState, pol: RetentionPolicy, now: int, id: string)
    requires Sound(env, s) && id in s.events && AffectsHeads(s.events[id].kind)
    ensures id in Retain(env, s, pol, now).events
  {
    hide AffectsHeads, HeadRefs, AnchorOf, Pruned, Keyed, AllValid, AuthorSound, MarksSound, MissingSound;
    PrunedStored(s, pol, now);
    assert Referenced(s.events, id) || id in RecomputedHeads(s.events);
  }

  // ---------------------------------------------------------------- completeness before pruning, and growth

  /** No event has been dropped on the way. */
  ghost predicate NothingDropped(env: Env, s: LState, steps: seq<Step>) {
    forall i | 0 <= i < |steps| && steps[i].Prunes() ::
      Do(env, Exec(env, s, steps[..i]), steps[i]) == Exec(env, s, steps[..i])
  }

  ghost predicate Grows(s: LState, t: LState) {
    && (forall id | id in s.events :: id in t.events && t.events[id] == s.events[id])
    && s.marks <= t.marks && s.compromised <= t.compromised && s.anchors <= t.anchors
  }

  lemma MoveGrows(env: Env, s: LState, m: Move, t: LState)
    requires Moved(env, s, m, t)
    ensures s.compromised <= t.compromised
    ensures !m.Drop? ==> Grows(s, t)
    ensures !m.Drop? && Exact(env, s) ==> Exact(env, t)
  {
    hide Exact, Stored, RecomputedHeads, Referenced, Validates, Conflicts;
    if m.Store? {
      StoredGrows(env, s, m.ev);
      if Exact(env, s) {
        StoredExact(env, s, m.ev);
      }
    } else if m.Suspect? && Exact(env, s) {
      SuspectExact(env, s, t);
    }
  }

  lemma StoredGrows(env: Env, s: LState, ev: Event)
    requires ev.id !in s.events
    ensures Grows(s, Stored(env, s, ev))
  {
    hide Refs, MarkOf, Track, Heads;
  }

  lemma SuspectExact(env: Env, s: LState, t: LState)
    requires Exact(env, s) && t == s.(compromised := t.compromised)
    ensures Exact(env, t)
  {
    hide RefCount, MarkOf;
    forall x: string ensures MissingExactAt(env, t, x) {
      assert MissingExactAt(env, s, x);
    }
  }

  lemma {:induction false} PathGrows(env: Env, states: seq<LState>, moves: seq<Move>, i: nat)
    requires Path(env, states, moves) && i <= |moves|
    ensures states[0].compromised <= states[i].compromised
    ensures (forall k | 0 <= k < |moves| :: !moves[k].Drop?) ==> Grows(states[0], states[i])
    ensures (forall k | 0 <= k < |moves| :: !moves[k].Drop?) && Exact(env, states[0]) ==> Exact(env, states[i])
  {
    hide Moved, Exact;
    if i > 0 {
      PathGrows(env, states, moves, i - 1);
      MoveGrows(env, states[i - 1], moves[i - 1], states[i]);
    }
  }

  /** Compromised keys are never forgotten; every step but a pruning only adds. */
  lemma StepGrows(env: Env, s: LState, step: Step)
    ensures s.compromised <= Do(env, s, step).compromised
    ensures !step.Prunes() || Do(env, s, step) == s ==> Grows(s, Do(env, s, step))
    ensures (!step.Prunes() || Do(env, s, step) == s) && Exact(env, s) ==> Exact(env, Do(env, s, step))
  {
    hide Do, Moved, Exact, OwnMove, ReceivedMove, Grows;
    var states, moves := StepPath(env, s, step);
    PathGrows(env, states, moves, |moves|);
    GrowsSelf(s);
    if !step.Prunes() {
      forall k | 0 <= k < |moves| ensures !moves[k].Drop? {
        assert Allowed(env, s, states[k], moves[k], step);
        NotADrop(env, s, states[k], moves[k], step);
      }
    }
  }

  lemma GrowsSelf(s: LState)
    ensures Grows(s, s)
  {
  }

  lemma NotADrop(env: Env, before: LState, s: LState, m: Move, step: Step)
    requires Allowed(env, before, s, m, step) && !step.Prunes()
    ensures !m.Drop?
  {
    hide NextDraft;
  }

  /** Each author and number names one event. */
  ghost predicate OneEventPerNumber(s: LState) {
    forall a, b | a in s.events && b in s.events
      && s.events[a].author == s.events[b].author && s.events[a].seqNo == s.events[b].seqNo :: a == b
  }

  /**
   * Until something is pruned, every index stays equal to its definition and each author and number names one
   * event.
   */
  lemma {:induction false} ExactUntilPruned(env: Env, s: LState, steps: seq<Step>)
    requires Exact(env, s) && NothingDropped(env, s, steps)
    ensures Exact(env, Exec(env, s, steps)) && OneEventPerNumber(Exec(env, s, steps))
  {
    hide Do, MissingExact, MarksExact, AuthorSound, Keyed;
    if steps != [] {
      var k := |steps| - 1;
      var init := steps[..k];
      forall i | 0 <= i < k && init[i].Prunes()
        ensures Do(env, Exec(env, s, init[..i]), init[i]) == Exec(env, s, init[..i])
      {
        assert init[..i] == steps[..i] && init[i] == steps[i];
      }
      ExactUntilPruned(env, s, init);
      StepGrows(env, Exec(env, s, init), steps[k]);
      assert steps[..k] == init;
    }
  }

  // ---------------------------------------------------------------- chains of previous events

  /** Identifiers are base64 text, which has no blanks around it. */
  ghost predicate PlainIds(env: Env) {
    forall ev: Event :: TrimSpace(env.contentId(ev)) == env.contentId(ev)
  }

  ghost predicate Linked(s: LState, ev: Event) {
    ev.seqNo == 1 ||
    (ev.prev in s.events && s.events[ev.prev].author == ev.author && s.events[ev.prev].seqNo + 1 == ev.seqNo)
  }

  ghost predicate ChainOk(s: LState) {
    forall id | id in s.events :: Linked(s, s.events[id])
  }

  ghost predicate Trimmed(obs: Option<Observer>) {
    obs.Some? ==> TrimSpace(obs.value.author) == obs.value.author
  }

  /**
   * The step demands known previous events, and the node signs under a trimmed name. The unpoliced Add demands
   * nothing, so its caller has to hand over events whose previous event is stored.
   */
  ghost predicate Strict(s: LState, step: Step) {
    match step
    case Receive(ev, context, p, obs, now) => p.requireKnownPrev && Trimmed(obs)
    case ReceiveVerified(ev, context, p, obs, now) => p.requireKnownPrev && Trimmed(obs)
    case AddRaw(ev) => ev.seqNo > 1 ==> ev.prev in s.events
    case Announce(p, obs, what, payload, now) => Trimmed(Some(obs))
    case ApplyRetention(pol, now) => true
    case PruneKinds(p, now) => true
  }

  lemma StoredChain(env: Env, s: LState, ev: Event)
    requires ChainOk(s) && Linked(s, ev) && ev.id !in s.events
    ensures ChainOk(Stored(env, s, ev))
  {
    hide Refs, MarkOf, Track, Heads;
    var t := Stored(env, s, ev);
    forall id | id in t.events ensures Linked(t, t.events[id]) {
      assert id in s.events ==> Linked(s, s.events[id]);
    }
  }

  lemma DropChain(env: Env, s: LState, gone: set<string>, t: LState)
    requires ChainOk(s) && AllValid(env, s)
    requires forall id | id in gone :: !Referenced(s.events, id)
    requires t.events == s.events - gone
    ensures ChainOk(t)
  {
    hide Referenced, WellFormed, Genuine;
    forall id | id in t.events ensures Linked(t, t.events[id]) {
      assert Linked(s, s.events[id]) && Validates(env, s.events[id]);
      if s.events[id].seqNo != 1 {
        NonemptyPrev(env, s.events[id]);
        SurvivorsKeepReferences(s.events, gone, id, s.events[id].prev);
      }
    }
  }

  lemma NonemptyPrev(env: Env, ev: Event)
    requires Validates(env, ev) && ev.seqNo != 1
    ensures ev.prev in HeadRefs(ev)
  {
  }

  /** An own event continues the author's chain exactly when the author's name is trimmed or new. */
  lemma DraftLinked(env: Env, s: LState, obs: Observer, parents: seq<string>, kind: string, payload: Payload, now: int)
    requires PlainIds(env) && Sound(env, s)
    requires Validates(env, Draft(env, obs, NextLink(s, obs.author), parents, kind, payload, now))
    ensures Linked(s, Draft(env, obs, NextLink(s, obs.author), parents, kind, payload, now))
            <==> TrimSpace(obs.author) == obs.author || SeqsOf(s, obs.author) == {}
  {
    hide TrimSpace, Sound, PlainIds, NextLink, SeqsOf, Genuine;
    LastOwn(env, s, obs.author);
  }

  /** The link of the next event names the author's last event, if there is one. */
  lemma LastOwn(env: Env, s: LState, author: string)
    requires PlainIds(env) && Sound(env, s)
    ensures var link := NextLink(s, author);
      if SeqsOf(s, author) == {} then link == (1, "")
      else
        && TrimSpace(link.1) == link.1 && link.1 in s.events && s.events[link.1].seqNo > 0
        && s.events[link.1].author == author && link.0 == (s.events[link.1].seqNo + 1) % TWO_64
  {
    hide TrimSpace, MarksSound, MissingSound, HeadsBetween, AllValid, Keyed, PlainIds, MaxOf;
    var seqs := SeqsOf(s, author);
    if seqs != {} {
      var m := MaxOf(seqs);
      assert m in seqs && (author, m) in s.authorSeq;
      StoredPlain(env, s, s.authorSeq[(author, m)]);
    }
  }

  lemma StoredPlain(env: Env, s: LState, id: string)
    requires PlainIds(env) && Sound(env, s) && id in s.events
    ensures TrimSpace(id) == id && id != "" && s.events[id].seqNo > 0
  {
    hide TrimSpace, MarksSound, MissingSound, HeadsBetween, AuthorSound;
    assert Validates(env, s.events[id]) && s.events[id].id == id;
  }

  lemma OwnLinked(env: Env, s: LState, m: Move, obs: Option<Observer>)
    requires PlainIds(env) && Sound(env, s) && OwnMove(env, s, m, obs) && Validates(env, m.ev) && Trimmed(obs)
    ensures Linked(s, m.ev)
  {
    hide Sound, PlainIds, Draft, NextLink, NextParents, Normalized, Validates, TrimSpace, Linked, AffectsHeads;
    var kind, payload, now :| m.ev == NextDraft(env, s, obs.value, kind, payload, now);
    DraftLinked(env, s, obs.value, Normalized(NextParents(s)), kind, payload, now);
  }

  lemma AllowedStoreLinked(env: Env, before: LState, s: LState, m: Move, t: LState, step: Step)
    requires PlainIds(env) && Sound(env, s) && Strict(before, step)
    requires Allowed(env, before, s, m, step) && Moved(env, s, m, t) && m.Store?
    ensures Linked(s, m.ev)
  {
    hide Sound, PlainIds, Stored, Validates, OwnMove, Linked, Trimmed, LinkFault;
    if step.Brings() && ReceivedMove(before, s, m, step.ev, !step.AddRaw? && step.p.requireKnownPrev) {
      CheckedLink(env, s, m.ev);
    } else {
      OwnLinked(env, s, m, if step.Brings() then step.obs else Some(step.observer));
    }
  }

  lemma CheckedLink(env: Env, s: LState, ev: Event)
    requires Sound(env, s) && Validates(env, ev) && LinkFault(s, ev) == None && (ev.seqNo > 1 ==> ev.prev in s.events)
    ensures Linked(s, ev)
  {
    hide MarksSound, MissingSound, HeadsBetween, AuthorSound, TrimSpace;
    if ev.seqNo > 1 {
      assert Validates(env, s.events[ev.prev]);
    }
  }

  lemma {:induction false} PathKeepsChain(env: Env, states: seq<LState>, moves: seq<Move>, step: Step, i: nat)
    requires Path(env, states, moves) && PlainIds(env) && Strict(states[0], step)
    requires Sound(env, states[0]) && ChainOk(states[0])
    requires forall k | 0 <= k < |moves| :: Allowed(env, states[0], states[k], moves[k], step)
    requires i <= |moves|
    ensures ChainOk(states[i])
  {
    hide Sound, PlainIds, ChainOk, Allowed, Strict, Moved;
    if i > 0 {
      PathKeepsChain(env, states, moves, step, i - 1);
      PathKeepsSound(env, states, moves, i - 1);
      assert Moved(env, states[i - 1], moves[i - 1], states[i]);
      MoveKeepsChain(env, states[0], states[i - 1], moves[i - 1], states[i], step);
    }
  }

  lemma MoveKeepsChain(env: Env, before: LState, s: LState, m: Move, t: LState, step: Step)
    requires PlainIds(env) && Strict(before, step) && Sound(env, s) && ChainOk(s)
    requires Allowed(env, before, s, m, step) && Moved(env, s, m, t)
    ensures ChainOk(t)
  {
    hide Sound, PlainIds, ChainOk, Allowed, Strict, Stored, Rebuilt;
    match m
    case Store(ev) =>
      AllowedStoreLinked(env, before, s, m, t, step);
      StoredChain(env, s, ev);
    case Suspect(keys) =>
      SameEventsChain(s, t);
    case Drop(gone) =>
      RebuiltHeads(s, s.events - gone);
      SoundIsValid(env, s);
      DropChain(env, s, gone, t);
  }

  lemma SameEventsChain(s: LState, t: LState)
    requires ChainOk(s) && t.events == s.events
    ensures ChainOk(t)
  {
    forall id | id in t.events ensures Linked(t, t.events[id]) {
      assert Linked(s, s.events[id]);
    }
  }

  lemma SoundIsValid(env: Env, s: LState)
    requires Sound(env, s)
    ensures AllValid(env, s)
  {
  }

  /** With known previous events required, every stored event stays linked, own events and pruning included. */
  lemma {:induction false} RunKeepsChain(env: Env, s: LState, steps: seq<Step>)
    requires PlainIds(env) && Sound(env, s) && ChainOk(s)
    requires forall i | 0 <= i < |steps| :: Strict(Exec(env, s, steps[..i]), steps[i])
    ensures ChainOk(Exec(env, s, steps))
  {
    hide Do, Strict, PlainIds, ChainOk, Sound, Moved, Allowed;
    if steps != [] {
      var k := |steps| - 1;
      var init := steps[..k];
      forall i | 0 <= i < k ensures Strict(Exec(env, s, init[..i]), init[i]) {
        assert init[..i] == steps[..i] && init[i] == steps[i];
      }
      RunKeepsChain(env, s, init);
      RunIsSound(env, s, init);
      var states, moves := StepPath(env, Exec(env, s, init), steps[k]);
      PathKeepsChain(env, states, moves, steps[k], |moves|);
    }
  }

  /** The empty ledger is a start for all of these runs. */
  lemma EmptyStart(env: Env)
    ensures Sound(env, EMPTY) && Exact(env, EMPTY) && HeadsExact(EMPTY) && ChainOk(EMPTY)
  {
    EmptySound(env);
    EmptyExact(env);
  }

  /** The stored events from `ev` down to its author's first one, each one sequence number below the other. */
  ghost predicate IsChain(s: LState, ev: Event, chain: seq<Event>) {
    && |chain| == ev.seqNo >= 1 && chain[0] == ev && chain[|chain| - 1].seqNo == 1
    && (forall i | 0 <= i < |chain| :: chain[i].id in s.events && s.events[chain[i].id] == chain[i])
    && (forall i | 0 <= i < |chain| :: chain[i].author == ev.author && chain[i].seqNo == ev.seqNo - i)
    && forall i | 0 <= i < |chain| - 1 :: chain[i].prev == chain[i + 1].id
  }

  lemma {:induction false} ChainToFirst(env: Env, s: LState, ev: Event) returns (chain: seq<Event>)
    requires Sound(env, s) && ChainOk(s) && ev.id in s.events && s.events[ev.id] == ev
    ensures IsChain(s, ev, chain)
    decreases ev.seqNo
  {
    hide Sound, ChainOk;
    if ev.seqNo == 1 {
      chain := [ev];
    } else {
      PreviousStored(env, s, ev);
      var prev := s.events[ev.prev];
      var rest := ChainToFirst(env, s, prev);
      chain := [ev] + rest;
    }
  }

  lemma PreviousStored(env: Env, s: LState, ev: Event)
    requires Sound(env, s) && ChainOk(s) && ev.id in s.events && s.events[ev.id] == ev && ev.seqNo != 1
    ensures ev.prev in s.events && s.events[ev.prev].id == ev.prev
    ensures s.events[ev.prev].author == ev.author && s.events[ev.prev].seqNo == ev.seqNo - 1
  {
    hide MarksSound, MissingSound, HeadsBetween, AuthorSound, AllValid;
    assert Linked(s, s.events[ev.id]);
  }

  // ---------------------------------------------------------------- own events

  /** The content hash does not cover identifier and signature. */
  ghost predicate HashesContent(env: Env) {
    forall ev: Event, id: string, sig: string :: env.contentId(ev.(id := id, sig := sig)) == env.contentId(ev)
  }

  /** Signatures made for the observer's key verify under it. */
  ghost predicate SignsFor(env: Env, obs: Observer) {
    forall ev: Event | ev.authorKey == obs.key :: env.sigOk(obs.key, env.contentId(ev), env.sign(ev))
  }

  /** An own event passes the identifier and signature checks of every receiver. */
  lemma OwnEventIsGenuine(env: Env, s: LState, obs: Observer, kind: string, payload: Payload, now: int)
    requires HashesContent(env) && SignsFor(env, obs)
    ensures Genuine(env, NextDraft(env, s, obs, kind, payload, now))
  {
    hide NextLink, NextParents, Normalized, TrimSpace;
    var ev := NextDraft(env, s, obs, kind, payload, now);
    var draft := ev.(id := "", sig := "");
    assert env.contentId(draft.(id := ev.id, sig := ev.sig)) == env.contentId(draft);
    assert draft.(id := ev.id, sig := ev.sig) == ev;
  }

  /** The parents of an own event are the heads themselves: normalizing them changes nothing in a sound ledger. */
  lemma OwnParentsAreHeads(env: Env, s: LState)
    requires PlainIds(env) && Sound(env, s)
    ensures Normalized(NextParents(s)) == NextParents(s)
  {
    hide Sound, PlainIds, TrimSpace, WeakOrder, TotalOn, SortedSet, Less;
    var parents := NextParents(s);
    var all := SortedSet(s.heads, Less);
    LessIsOrder();
    SortedSetOrdered(s.heads, Less);
    forall id | id in parents ensures TrimSpace(id) == id && id != "" {
      assert id in Elements(all);
      HeadsStored(env, s, id);
      StoredPlain(env, s, id);
    }
    assert Trims(Elements(parents)) - {""} == Elements(parents);
    SortedSetOrdered(Elements(parents), Less);
    SortedUnique(parents, SortedSet(Elements(parents), Less), Less);
  }

  /**
   * What an own event says: it is signed under the observer's trimmed name and key at the time given, and its parents
   * are the heads in order, or the first 32 of them.
   */
  lemma OwnEventSays(env: Env, s: LState, obs: Observer, kind: string, payload: Payload, now: int)
    requires PlainIds(env) && Sound(env, s)
    ensures var d := NextDraft(env, s, obs, kind, payload, now);
      && d.schema == 1 && d.kind == kind && d.createdAt == now
      && d.author == TrimSpace(obs.author) && d.authorKey == obs.key
      && Elements(d.parents) <= s.heads && |d.parents| == (if |s.heads| > 32 then 32 else |s.heads|)
      && (forall i, j | 0 <= i < j < |d.parents| :: Less(d.parents[i], d.parents[j]))
      && forall head, parent | head in s.heads && head !in d.parents && parent in d.parents :: Less(parent, head)
  {
    hide NextParents, Normalized, NextLink, Sound, TrimSpace, PlainIds, Less, Elements;
    OwnParentsAreHeads(env, s);
    FirstHeads(s);
  }

  lemma FirstHeads(s: LState)
    ensures var r := NextParents(s);
      && Elements(r) <= s.heads && |r| == (if |s.heads| > 32 then 32 else |s.heads|)
      && (forall i, j | 0 <= i < j < |r| :: Less(r[i], r[j]))
      && forall head, parent | head in s.heads && head !in r && parent in r :: Less(parent, head)
  {
    hide WeakOrder, SortedSet, Less;
    var all, r := SortedSet(s.heads, Less), NextParents(s);
    LessIsOrder();
    SortedSetOrdered(s.heads, Less);
    assert |all| == |s.heads| && r == all[..|r|];
    forall i, j | 0 <= i < j < |all| ensures Less(all[i], all[j]) {
      LessLaws(all[i], all[j], all[i]);
      assert all[i] != all[j] && !Less(all[j], all[i]);
    }
    forall head, parent | head in s.heads && head !in r && parent in r ensures Less(parent, head) {
      assert head in Elements(all);
      var i :| 0 <= i < |r| && r[i] == parent;
      var j :| 0 <= j < |all| && all[j] == head;
      PrefixHolds(all, |r|, j);
      assert all[i] == parent;
    }
    assert forall x | x in r :: x in Elements(all);
  }

  lemma PrefixHolds(s: seq<string>, n: nat, j: nat)
    requires n <= |s| && j < |s|
    ensures j < n ==> s[j] in s[..n]
  {
    if j < n {
      assert s[..n][j] == s[j];
    }
  }

  lemma HeadsStored(env: Env, s: LState, id: string)
    requires Sound(env, s) && id in s.heads
    ensures id in s.events
  {
    hide MarksSound, MissingSound, AuthorSound, AllValid, Keyed, RecomputedHeads;
  }
}
