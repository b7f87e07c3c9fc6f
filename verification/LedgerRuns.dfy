/** Every operation of the ledger decomposes into a few kinds of moves; what each move keeps, every run keeps. */
module LedgerRuns {
  import opened LedgerModel
  import opened Results
  import opened Retention
  import opened Strings

  // ---------------------------------------------------------------- operations

  /** What a node can do with its ledger; each public operation that changes it is one step. */
  datatype Step =
    | Receive(ev: Event, context: string, p: Policy, obs: Option<Observer>, now: int)
    | ReceiveVerified(ev: Event, context: string, p: Policy, obs: Option<Observer>, now: int)
    | AddRaw(ev: Event)
    | Announce(policy: Policy, observer: Observer, what: Emission, payload: Payload, at: int)
    | ApplyRetention(retention: RetentionPolicy, when: int)
    | PruneKinds(kinds: Policy, time: int)
  {
    predicate Brings() { Receive? || ReceiveVerified? || AddRaw? }

    predicate Prunes() { ApplyRetention? || PruneKinds? }
  }

  /** The events a node emits on request. */
  datatype Emission = WitnessAttest | WitnessCheckpoint | SyncSummary | SybilReport

  function KindOf(what: Emission): (r: string)
    ensures !AffectsHeads(r)
  {
    match what
    case WitnessAttest => KIND_WITNESS_ATTEST
    case WitnessCheckpoint => KIND_WITNESS_CHECKPOINT
    case SyncSummary => KIND_SYNC_SUMMARY
    case SybilReport => KIND_MISBEHAVIOR_SYBIL
  }

  /** Callers pass an event to ApplyVerified only after they have checked its signature. */
  ghost function Do(env: Env, s: LState, step: Step): (r: LState) {
    match step
    case Receive(ev, context, p, obs, now) => Apply(env, s, ev, context, p, obs, now).0
    case ReceiveVerified(ev, context, p, obs, now) =>
      if env.sigOk(ev.authorKey, ev.id, ev.sig) then ApplyVerified(env, s, ev, context, p, obs, now).0 else s
    case AddRaw(ev) => AddEvent(env, s, ev).0
    case Announce(p, obs, what, payload, now) => Emit(env, s, p, obs, KindOf(what), payload, now)
    case ApplyRetention(pol, now) => Retain(env, s, pol, now)
    case PruneKinds(p, now) => RetainByKind(s, p, now)
  }

  ghost function Exec(env: Env, s: LState, steps: seq<Step>): (r: LState)
    decreases |steps|
  {
    if steps == [] then s else Do(env, Exec(env, s, steps[..|steps| - 1]), steps[|steps| - 1])
  }

  // ---------------------------------------------------------------- moves

  datatype Move = Store(ev: Event) | Suspect(keys: set<string>) | Drop(gone: set<string>)

  ghost predicate Moved(env: Env, s: LState, m: Move, t: LState) {
    match m
    case Store(ev) => Validates(env, ev) && ev.id !in s.events && !Conflicts(s, ev) && t == Stored(env, s, ev)
    case Suspect(keys) => t == s.(compromised := s.compromised + keys)
    case Drop(gone) =>
      && gone != {} && gone <= s.events.Keys
      && (forall id | id in gone :: id !in s.heads && !Referenced(s.events, id))
      && t == Rebuilt(s, s.events - gone).(anchors := t.anchors) && s.anchors <= t.anchors
  }

  ghost predicate Path(env: Env, states: seq<LState>, moves: seq<Move>) {
    && |states| == |moves| + 1
    && forall i | 0 <= i < |moves| :: Moved(env, states[i], moves[i], states[i + 1])
  }

  ghost function Last(states: seq<LState>): (r: LState)
    requires states != []
  {
    states[|states| - 1]
  }

  /** The path extended by one move. */
  lemma Extend(env: Env, states: seq<LState>, moves: seq<Move>, m: Move, t: LState)
    requires Path(env, states, moves) && Moved(env, Last(states), m, t)
    ensures Path(env, states + [t], moves + [m])
  {
    hide Moved;
    var ss, ms := states + [t], moves + [m];
    forall i | 0 <= i < |ms| ensures Moved(env, ss[i], ms[i], ss[i + 1]) {
      if i < |moves| {
        assert Moved(env, states[i], moves[i], states[i + 1]);
      }
    }
  }

  /** Emitting takes at most one move. */
  lemma EmitPath(env: Env, states0: seq<LState>, moves0: seq<Move>, p: Policy, obs: Observer, kind: string,
                 payload: Payload, now: int)
      returns (states: seq<LState>, moves: seq<Move>)
    requires Path(env, states0, moves0)
    ensures Path(env, states, moves) && states0 <= states && moves0 <= moves
    ensures Last(states) == Emit(env, Last(states0), p, obs, kind, payload, now)
    ensures forall i | |moves0| <= i < |moves| ::
      moves[i].Store? && moves[i].ev == NextDraft(env, states[i], obs, kind, payload, now)
  {
    hide Stored, NextDraft, WellFormed, PolicyVerdict;
    var s := Last(states0);
    states, moves := states0, moves0;
    var t := Emit(env, s, p, obs, kind, payload, now);
    if t != s {
      var ev := NextDraft(env, s, obs, kind, payload, now);
      assert Moved(env, s, Store(ev), t);
      Extend(env, states, moves, Store(ev), t);
      states, moves := states + [t], moves + [Store(ev)];
    }
  }

  /** A move that an observer makes: a store of its own next event, of a kind that leaves the heads alone. */
  ghost predicate OwnMove(env: Env, s: LState, m: Move, obs: Option<Observer>) {
    m.Store? && obs.Some? && !AffectsHeads(m.ev.kind) &&
    exists kind, payload, now :: m.ev == NextDraft(env, s, obs.value, kind, payload, now)
  }

  lemma OwnMoves(env: Env, s: LState, m: Move, obs: Observer, kind: string, payload: Payload, now: int)
    requires m.Store? && m.ev == NextDraft(env, s, obs, kind, payload, now)
    requires !AffectsHeads(kind)
    ensures OwnMove(env, s, m, Some(obs))
  {
    hide Draft, NextLink, NextParents, Normalized, AffectsHeads;
  }

  /** The moves of an emission are own moves. */
  lemma OwnPath(env: Env, states0: seq<LState>, moves0: seq<Move>, p: Policy, obs: Observer, kind: string,
                payload: Payload, now: int)
      returns (states: seq<LState>, moves: seq<Move>)
    requires Path(env, states0, moves0) && !AffectsHeads(kind)
    ensures Path(env, states, moves) && states0 <= states && moves0 <= moves
    ensures Last(states) == Emit(env, Last(states0), p, obs, kind, payload, now)
    ensures forall i | |moves0| <= i < |moves| :: OwnMove(env, states[i], moves[i], Some(obs))
  {
    hide Emit, NextDraft, OwnMove, Path, AffectsHeads;
    states, moves := EmitPath(env, states0, moves0, p, obs, kind, payload, now);
    PathShape(env, states0, moves0);
    PathShape(env, states, moves);
    forall i | |moves0| <= i < |moves| ensures OwnMove(env, states[i], moves[i], Some(obs)) {
      OwnMoves(env, states[i], moves[i], obs, kind, payload, now);
    }
  }

  lemma PathShape(env: Env, states: seq<LState>, moves: seq<Move>)
    requires Path(env, states, moves)
    ensures |states| == |moves| + 1
  {
  }

  lemma AutoWitnessPath(env: Env, states0: seq<LState>, moves0: seq<Move>, ev: Event, context: string, p: Policy,
                        obs: Option<Observer>, now: int)
      returns (states: seq<LState>, moves: seq<Move>)
    requires Path(env, states0, moves0)
    ensures Path(env, states, moves) && states0 <= states && moves0 <= moves
    ensures Last(states) == AutoWitness(env, Last(states0), ev, context, p, obs, now)
    ensures forall i | |moves0| <= i < |moves| :: OwnMove(env, states[i], moves[i], obs)
  {
    hide Emit, OwnMove, Moved, IsCriticalKind, TrimSpace;
    var s := Last(states0);
    states, moves := states0, moves0;
    if AutoWitness(env, s, ev, context, p, obs, now) != s {
      var o, ctx := obs.value, TrimSpace(context);
      if Attested(ev.id, ctx, o.key) !in s.marks {
        states, moves := OwnPath(env, states, moves, p, o, KIND_WITNESS_ATTEST, Attestation(ev.id, ctx), now);
      }
      var s1 := Last(states);
      var h := env.headsHash(s1.heads);
      if AffectsHeads(ev.kind) && s1.heads != {} && Checkpointed(ctx, h, o.key) !in s1.marks {
        states, moves := OwnPath(env, states, moves, p, o, KIND_WITNESS_CHECKPOINT, Checkpoint(ctx, h), now);
      }
    }
  }

  /**
   * The store of a received event: its link was checked, and its previous event is present if the policy asks
   * for it.
   */
  ghost predicate ReceivedMove(before: LState, s: LState, m: Move, ev: Event, requireKnownPrev: bool) {
    && m == Store(ev) && s == before && LinkFault(s, ev) == None
    && (requireKnownPrev && ev.seqNo > 1 ==> ev.prev in s.events)
  }

  /** What the application of a received event is made of. */
  ghost predicate Application(env: Env, before: LState, s: LState, m: Move, ev: Event, p: Policy,
                              obs: Option<Observer>) {
    m.Suspect? || OwnMove(env, s, m, obs) || ReceivedMove(before, s, m, ev, p.requireKnownPrev)
  }

  /** What a step is made of. */
  ghost predicate Allowed(env: Env, before: LState, s: LState, m: Move, step: Step) {
    match step
    case Receive(ev, context, p, obs, now) => Application(env, before, s, m, ev, p, obs)
    case ReceiveVerified(ev, context, p, obs, now) => Application(env, before, s, m, ev, p, obs)
    case AddRaw(ev) => ReceivedMove(before, s, m, ev, false)
    case Announce(p, obs, what, payload, now) => OwnMove(env, s, m, Some(obs))
    case ApplyRetention(pol, now) => m.Drop?
    case PruneKinds(p, now) => m.Drop?
  }

  lemma InsertPath(env: Env, s: LState, ev: Event, context: string, p: Policy, obs: Option<Observer>, now: int)
      returns (states: seq<LState>, moves: seq<Move>)
    requires Validates(env, ev)
    ensures Path(env, states, moves) && states[0] == s
    ensures Last(states) == Insert(env, s, ev, context, p, obs, now).0
    ensures forall i | 0 <= i < |moves| :: Application(env, s, states[i], moves[i], ev, p, obs)
  {
    hide Emit, AutoWitness, Stored, OwnMove, Validates;
    states, moves := [s], [];
    if ev.id in s.events {
    } else if Conflicts(s, ev) {
      var t := Compromise(s, ev);
      var keys := t.compromised;
      assert t == s.(compromised := s.compromised + keys);
      assert Moved(env, s, Suspect(keys), t);
      Extend(env, states, moves, Suspect(keys), t);
      states, moves := states + [t], moves + [Suspect(keys)];
      if obs.Some? {
        states, moves := OwnPath(env, states, moves, p, obs.value, KIND_MISBEHAVIOR_EQUIVOC, Other, now);
      }
    } else if (ev.seqNo > 1 && p.requireKnownPrev && ev.prev !in s.events) || LinkFault(s, ev).Some? {
    } else {
      var t := Stored(env, s, ev);
      assert Moved(env, s, Store(ev), t);
      Extend(env, states, moves, Store(ev), t);
      states, moves := states + [t], moves + [Store(ev)];
      assert ReceivedMove(s, states[0], moves[0], ev, p.requireKnownPrev);
      states, moves := AutoWitnessPath(env, states, moves, ev, context, p, obs, now);
    }
  }

  lemma ReceivePath(env: Env, s: LState, ev: Event, context: string, p: Policy, obs: Option<Observer>, now: int)
      returns (states: seq<LState>, moves: seq<Move>)
    ensures Path(env, states, moves) && states[0] == s
    ensures Last(states) == Apply(env, s, ev, context, p, obs, now).0
    ensures forall i | 0 <= i < |moves| :: Application(env, s, states[i], moves[i], ev, p, obs)
  {
    hide Emit, Insert, OwnMove, Moved, ReceivedMove, WellFormed, Genuine, PolicyVerdict, TrimSpace;
    states, moves := [s], [];
    var v := VerdictOf(env, p, now, ev);
    if v == Fine {
      states, moves := InsertPath(env, s, ev, context, p, obs, now);
    } else if v == TooOld && obs.Some? && TrimSpace(context) != "" {
      states, moves := OwnPath(env, states, moves, p, obs.value, KIND_MISBEHAVIOR_REPLAY, Other, now);
    }
  }

  lemma VerifiedPath(env: Env, s: LState, ev: Event, context: string, p: Policy, obs: Option<Observer>, now: int)
      returns (states: seq<LState>, moves: seq<Move>)
    requires env.sigOk(ev.authorKey, ev.id, ev.sig)
    ensures Path(env, states, moves) && states[0] == s
    ensures Last(states) == ApplyVerified(env, s, ev, context, p, obs, now).0
    ensures forall i | 0 <= i < |moves| :: Application(env, s, states[i], moves[i], ev, p, obs)
  {
    hide Emit, Insert, OwnMove, Moved, ReceivedMove, WellFormed, PolicyVerdict, TrimSpace;
    states, moves := [s], [];
    var v := NoCryptoVerdict(env, p, now, ev);
    if v == TooOld && obs.Some? && TrimSpace(context) != "" {
      states, moves := OwnPath(env, states, moves, p, obs.value, KIND_MISBEHAVIOR_REPLAY, Other, now);
    } else if v == Fine && ev.id == env.contentId(ev) {
      states, moves := InsertPath(env, s, ev, context, p, obs, now);
    }
  }

  lemma AddPath(env: Env, s: LState, ev: Event) returns (states: seq<LState>, moves: seq<Move>)
    ensures Path(env, states, moves) && states[0] == s && Last(states) == AddEvent(env, s, ev).0
    ensures forall i | 0 <= i < |moves| :: ReceivedMove(s, states[i], moves[i], ev, false)
  {
    hide Stored, Validates;
    states, moves := [s], [];
    var t := AddEvent(env, s, ev).0;
    if t != s {
      assert Moved(env, s, Store(ev), t);
      Extend(env, states, moves, Store(ev), t);
      states, moves := [s, t], [Store(ev)];
    }
  }

  lemma RetainPath(env: Env, s: LState, pol: RetentionPolicy, now: int)
      returns (states: seq<LState>, moves: seq<Move>)
    ensures Path(env, states, moves) && states[0] == s && Last(states) == Retain(env, s, pol, now)
    ensures forall i | 0 <= i < |moves| :: moves[i].Drop?
  {
    hide Pruned, AnchorOf, Referenced, RecomputedHeads;
    states, moves := [s], [];
    var t := Retain(env, s, pol, now);
    if t != s {
      PrunedStored(s, pol, now);
      var gone := Pruned(s, pol, now);
      assert forall id | id in gone :: !Protected(s, pol, id);
      assert Moved(env, s, Drop(gone), t);
      Extend(env, states, moves, Drop(gone), t);
      states, moves := [s, t], [Drop(gone)];
    }
  }

  lemma PrunePath(env: Env, s: LState, p: Policy, now: int) returns (states: seq<LState>, moves: seq<Move>)
    ensures Path(env, states, moves) && states[0] == s && Last(states) == RetainByKind(s, p, now)
    ensures forall i | 0 <= i < |moves| :: moves[i].Drop?
  {
    hide Referenced, RecomputedHeads;
    states, moves := [s], [];
    var t := RetainByKind(s, p, now);
    if t != s {
      var gone := PrunedByKind(s, p, now);
      assert Moved(env, s, Drop(gone), t);
      Extend(env, states, moves, Drop(gone), t);
      states, moves := [s, t], [Drop(gone)];
    }
  }

  /** Every step is a path of allowed moves. */
  lemma StepPath(env: Env, s: LState, step: Step) returns (states: seq<LState>, moves: seq<Move>)
    ensures Path(env, states, moves) && states[0] == s && Last(states) == Do(env, s, step)
    ensures forall i | 0 <= i < |moves| :: Allowed(env, s, states[i], moves[i], step)
  {
    hide Emit, Apply, ApplyVerified, AddEvent, Moved, ReceivedMove, OwnMove, Application, Retain, RetainByKind;
    match step
    case Receive(ev, context, p, obs, now) =>
      states, moves := ReceivePath(env, s, ev, context, p, obs, now);
    case ReceiveVerified(ev, context, p, obs, now) =>
      if env.sigOk(ev.authorKey, ev.id, ev.sig) {
        states, moves := VerifiedPath(env, s, ev, context, p, obs, now);
      } else {
        states, moves := [s], [];
      }
    case AddRaw(ev) =>
      states, moves := AddPath(env, s, ev);
    case Announce(p, obs, what, payload, now) =>
      states, moves := OwnPath(env, [s], [], p, obs, KindOf(what), payload, now);
    case ApplyRetention(pol, now) =>
      states, moves := RetainPath(env, s, pol, now);
    case PruneKinds(p, now) =>
      states, moves := PrunePath(env, s, p, now);
  }
}
