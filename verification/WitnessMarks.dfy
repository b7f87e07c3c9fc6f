/** Attestations, checkpoints and introductions: what they index, and when they confirm an event. */
module WitnessMarks {
  import opened Acceptance
  import opened Confirmation
  import opened FiniteSums
  import opened LedgerIndexes
  import opened LedgerInvariants
  import opened LedgerModel
  import opened Results
  import opened Strings

  // ---------------------------------------------------------------- what an event testifies

  /** The event is an attestation of `id` in `ctx`. */
  ghost predicate Attests(env: Env, ev: Event, id: string, ctx: string) {
    ev.kind == "witness.attest" && env.decode(ev) == Some(Attestation(id, ctx))
  }

  /** The event is a checkpoint of the heads with this hash in `ctx`; blank ones do not count. */
  ghost predicate Checkpoints(env: Env, ev: Event, ctx: string, hash: string) {
    ev.kind == "witness.checkpoint" && env.decode(ev) == Some(Checkpoint(ctx, hash)) && ctx != "" && hash != ""
  }

  /** The event introduces the subject in `ctx`; both are trimmed, blank ones do not count. */
  ghost predicate Introduces(env: Env, ev: Event, ctx: string, subject: string) {
    && ev.kind == "identity.introduce" && ctx != "" && subject != ""
    && exists c, k :: env.decode(ev) == Some(Introduction(c, k)) && TrimSpace(c) == ctx && TrimSpace(k) == subject
  }

  ghost function Checkpointers(s: LState, ctx: string, hash: string): (r: set<string>) {
    set m | m in s.marks && m.Checkpointed? && m.ctx == ctx && m.headsHash == hash :: m.key
  }

  ghost function Introducers(s: LState, ctx: string, subject: string): (r: set<string>) {
    set m | m in s.marks && m.Introduced? && m.ctx == ctx && m.subject == subject :: m.key
  }

  lemma MarkIs(env: Env, ev: Event, a: string, b: string)
    ensures MarkOf(env, ev) == Some(Attested(a, b, ev.authorKey)) <==> Attests(env, ev, a, b)
    ensures MarkOf(env, ev) == Some(Checkpointed(a, b, ev.authorKey)) <==> Checkpoints(env, ev, a, b)
    ensures MarkOf(env, ev) == Some(Introduced(a, b, ev.authorKey)) <==> Introduces(env, ev, a, b)
    ensures forall m: Mark :: MarkOf(env, ev) == Some(m) ==> m.key == ev.authorKey
  {
    hide TrimSpace;
  }

  lemma KeysAreMarks(s: LState, a: string, b: string, key: string)
    ensures key in Witnesses(s, a, b) <==> Attested(a, b, key) in s.marks
    ensures key in Checkpointers(s, a, b) <==> Checkpointed(a, b, key) in s.marks
    ensures key in Introducers(s, a, b) <==> Introduced(a, b, key) in s.marks
  {
    if Attested(a, b, key) in s.marks {
      var m := Attested(a, b, key);
      assert m in s.marks && m.Attested? && m.eventId == a && m.ctx == b && m.key == key;
    }
    if Checkpointed(a, b, key) in s.marks {
      var m := Checkpointed(a, b, key);
      assert m in s.marks && m.Checkpointed? && m.ctx == a && m.headsHash == b && m.key == key;
    }
    if Introduced(a, b, key) in s.marks {
      var m := Introduced(a, b, key);
      assert m in s.marks && m.Introduced? && m.ctx == a && m.subject == b && m.key == key;
    }
  }

  /** Storing an event adds its author's key where it testifies, and nowhere else. */
  lemma StoringTestifies(env: Env, s: LState, ev: Event, a: string, b: string)
    ensures var t, key := Stored(env, s, ev), {ev.authorKey};
      && Witnesses(t, a, b) == Witnesses(s, a, b) + (if Attests(env, ev, a, b) then key else {})
      && Checkpointers(t, a, b) == Checkpointers(s, a, b) + (if Checkpoints(env, ev, a, b) then key else {})
      && Introducers(t, a, b) == Introducers(s, a, b) + (if Introduces(env, ev, a, b) then key else {})
  {
    hide MarkOf, Attests, Checkpoints, Introduces, Witnesses, Checkpointers, Introducers, Track, Refs, Heads;
    var t := Stored(env, s, ev);
    MarkIs(env, ev, a, b);
    forall key: string
      ensures key in Witnesses(t, a, b)
        <==> key in Witnesses(s, a, b) || (Attests(env, ev, a, b) && key == ev.authorKey)
      ensures key in Checkpointers(t, a, b)
        <==> key in Checkpointers(s, a, b) || (Checkpoints(env, ev, a, b) && key == ev.authorKey)
      ensures key in Introducers(t, a, b)
        <==> key in Introducers(s, a, b) || (Introduces(env, ev, a, b) && key == ev.authorKey)
    {
      KeysAreMarks(s, a, b, key);
      KeysAreMarks(t, a, b, key);
      StoredMark(env, s, ev, Attested(a, b, key));
      StoredMark(env, s, ev, Checkpointed(a, b, key));
      StoredMark(env, s, ev, Introduced(a, b, key));
    }
  }

  lemma StoredMark(env: Env, s: LState, ev: Event, m: Mark)
    ensures m in Stored(env, s, ev).marks <==> m in s.marks || MarkOf(env, ev) == Some(m)
  {
    hide MarkOf, Track, Refs, Heads;
  }

  /** With exact indexes the three indexes say exactly what the stored events testify. */
  lemma TestimonyExactly(env: Env, s: LState, a: string, b: string, key: string)
    requires Exact(env, s)
    ensures key in Witnesses(s, a, b) <==>
      exists id :: id in s.events && s.events[id].authorKey == key && Attests(env, s.events[id], a, b)
    ensures key in Checkpointers(s, a, b) <==>
      exists id :: id in s.events && s.events[id].authorKey == key && Checkpoints(env, s.events[id], a, b)
    ensures key in Introducers(s, a, b) <==>
      exists id :: id in s.events && s.events[id].authorKey == key && Introduces(env, s.events[id], a, b)
  {
    hide MarkOf, Attests, Checkpoints, Introduces, Witnesses, Checkpointers, Introducers, MissingExact, AuthorSound,
      AuthorComplete;
    KeysAreMarks(s, a, b, key);
    forall id | id in s.events ensures
      var ev := s.events[id];
      && (MarkOf(env, ev) == Some(Attested(a, b, key)) <==> ev.authorKey == key && Attests(env, ev, a, b))
      && (MarkOf(env, ev) == Some(Checkpointed(a, b, key)) <==> ev.authorKey == key && Checkpoints(env, ev, a, b))
      && (MarkOf(env, ev) == Some(Introduced(a, b, key)) <==> ev.authorKey == key && Introduces(env, ev, a, b))
    {
      MarkIs(env, s.events[id], a, b);
    }
    assert Attested(a, b, key) in s.marks
      <==> exists id :: id in s.events && MarkOf(env, s.events[id]) == Some(Attested(a, b, key));
    assert Checkpointed(a, b, key) in s.marks
      <==> exists id :: id in s.events && MarkOf(env, s.events[id]) == Some(Checkpointed(a, b, key));
    assert Introduced(a, b, key) in s.marks
      <==> exists id :: id in s.events && MarkOf(env, s.events[id]) == Some(Introduced(a, b, key));
  }

  // ---------------------------------------------------------------- confirmation

  /** The keys that have attested and are not compromised. */
  ghost predicate AttestedBy(env: Env, s: LState, id: string, ctx: string, keys: set<string>) {
    forall key :: key in keys <==>
      && key !in s.compromised
      && exists x :: x in s.events && s.events[x].authorKey == key && Attests(env, s.events[x], id, ctx)
  }

  /** The positive weight of a key in a context, zero for a stranger. */
  ghost function WeightIn(trust: Trust, ctx: string): (r: string -> int) {
    key =>
      if ctx in trust.witnesses && key in trust.witnesses[ctx] && trust.witnesses[ctx][key] > 0
      then trust.witnesses[ctx][key] else 0
  }

  /** The threshold of the context if it is positive, and the default otherwise. */
  ghost function ThresholdIn(trust: Trust, ctx: string): (r: int) {
    if ctx in trust.thresholds && trust.thresholds[ctx] > 0 then trust.thresholds[ctx] else trust.defaultThreshold
  }

  /**
   * With exact indexes a stored event is confirmed if and only if the weights of the uncompromised authors of stored
   * attestations reach a positive threshold.
   */
  lemma ConfirmedExactly(env: Env, s: LState, id: string, ctx: string, trust: Trust, keys: set<string>)
    requires Exact(env, s) && AttestedBy(env, s, id, ctx, keys)
    ensures IsConfirmed(s, id, ctx, trust) <==>
      id in s.events && ThresholdIn(trust, ctx) > 0 && Sum(keys, WeightIn(trust, ctx)) >= ThresholdIn(trust, ctx)
  {
    hide Exact, Sum, Witnesses, Attests;
    forall key ensures key in keys <==> key in Honest(s, id, ctx) {
      TestimonyExactly(env, s, id, ctx, key);
    }
    assert keys == Honest(s, id, ctx);
    SumEq(keys, WeightIn(trust, ctx), PositiveWeight(trust, ctx));
  }

  /**
   * An accepted attestation raises the score of the event it attests by the weight of its author, unless the author
   * is compromised, has attested it already or has no positive weight; no other score changes.
   */
  lemma AttestationScores(env: Env, s: LState, ev: Event, id: string, ctx: string, context: string, p: Policy,
                          obs: Option<Observer>, now: int, a: string, b: string, trust: Trust)
    requires Attests(env, ev, id, ctx) && ev.id !in s.events && Apply(env, s, ev, context, p, obs, now).1 == None
    ensures var t := Apply(env, s, ev, context, p, obs, now).0;
      Score(t, a, b, trust) == Score(s, a, b, trust) +
        if (a, b) == (id, ctx) && ev.authorKey !in s.compromised && ev.authorKey !in Witnesses(s, a, b)
        then WeightIn(trust, b)(ev.authorKey) else 0
  {
    hide *;
    NewEventVerdicts(env, s, ev, context, p, obs, now);
    AttestationIsQuiet(env, Stored(env, s, ev), ev, id, ctx, context, p, obs, now);
    StoringTestifies(env, s, ev, a, b);
    StoredFields(env, s, ev);
    OneAttests(env, ev, id, ctx, a, b);
    OneMoreWitness(s, Stored(env, s, ev), ev.authorKey, (a, b) == (id, ctx), a, b, trust);
  }

  lemma OneAttests(env: Env, ev: Event, id: string, ctx: string, a: string, b: string)
    requires Attests(env, ev, id, ctx)
    ensures Attests(env, ev, a, b) <==> (a, b) == (id, ctx)
  {
  }

  lemma OneMoreWitness(s: LState, t: LState, key: string, more: bool, a: string, b: string, trust: Trust)
    requires t.compromised == s.compromised && Witnesses(t, a, b) == Witnesses(s, a, b) + (if more then {key} else {})
    ensures Score(t, a, b, trust) == Score(s, a, b, trust) +
      if more && key !in s.compromised && key !in Witnesses(s, a, b) then WeightIn(trust, b)(key) else 0
  {
    hide Sum, Witnesses;
    if more && key !in s.compromised && key !in Witnesses(s, a, b) {
      assert Honest(t, a, b) == Honest(s, a, b) + {key};
      SumInsert(Honest(s, a, b), PositiveWeight(trust, b), key);
    } else {
      assert Honest(t, a, b) == Honest(s, a, b);
    }
  }

  /** Nobody answers an attestation with one of his own. */
  lemma AttestationIsQuiet(env: Env, s: LState, ev: Event, id: string, ctx: string, context: string, p: Policy,
                           obs: Option<Observer>, now: int)
    requires Attests(env, ev, id, ctx)
    ensures AutoWitness(env, s, ev, context, p, obs, now) == s
  {
    hide Emit, TrimSpace;
  }

  /** So a trusted witness confirms a stored event as soon as its weight makes up for what was lacking. */
  lemma AttestationConfirms(env: Env, s: LState, ev: Event, id: string, ctx: string, context: string, p: Policy,
                            obs: Option<Observer>, now: int, trust: Trust)
    requires Attests(env, ev, id, ctx) && ev.id !in s.events && Apply(env, s, ev, context, p, obs, now).1 == None
    requires id in s.events && ev.authorKey !in s.compromised && ev.authorKey !in Witnesses(s, id, ctx)
    ensures IsConfirmed(Apply(env, s, ev, context, p, obs, now).0, id, ctx, trust) <==>
      ThresholdIn(trust, ctx) > 0
        && Score(s, id, ctx, trust) + WeightIn(trust, ctx)(ev.authorKey) >= ThresholdIn(trust, ctx)
  {
    hide *;
    AttestationScores(env, s, ev, id, ctx, context, p, obs, now, id, ctx, trust);
    AcceptedExactly(env, s, ev, context, p, obs, now);
    GrownHolds(s, Apply(env, s, ev, context, p, obs, now).0, id);
    ConfirmedIs(Apply(env, s, ev, context, p, obs, now).0, id, ctx, trust);
  }

  lemma ConfirmedIs(s: LState, id: string, ctx: string, trust: Trust)
    ensures IsConfirmed(s, id, ctx, trust) <==>
      id in s.events && ThresholdIn(trust, ctx) > 0 && Score(s, id, ctx, trust) >= ThresholdIn(trust, ctx)
  {
    hide Score;
  }

  lemma GrownHolds(s: LState, t: LState, id: string)
    requires Grows(s, t) && id in s.events
    ensures id in t.events
  {
  }

  // ---------------------------------------------------------------- when a node testifies itself

  /** What a node writes into its own events it can read back. */
  ghost predicate Readable(env: Env) {
    forall ev: Event, payload: Payload ::
      (ev.payloadHash, ev.payloadRef) == env.payloadText(ev.kind, payload) ==> env.decode(ev) == Some(payload)
  }

  /** The node is a trusted witness in this context and the event deserves its testimony. */
  ghost predicate Deserves(s: LState, ev: Event, context: string, p: Policy, o: Observer) {
    && o.valid && TrimSpace(context) != "" && WeightIn(p.trust, TrimSpace(context))(o.key) > 0
    && o.key !in s.compromised
    && IsCriticalKind(ev.kind) && ev.kind !in {"witness.attest", "witness.checkpoint"}
  }

  /** The event passes the policy and would be stored as new. */
  ghost predicate Storable(env: Env, s: LState, p: Policy, now: int, d: Event) {
    Acceptable(env, p, now, d) && d.id !in s.events && !Conflicts(s, d)
  }

  lemma EmitsIfStorable(env: Env, s: LState, p: Policy, o: Observer, kind: string, payload: Payload, now: int)
    ensures var d := NextDraft(env, s, o, kind, payload, now);
      Emit(env, s, p, o, kind, payload, now) == if o.valid && Storable(env, s, p, now, d) then Stored(env, s, d) else s
  {
    hide NextDraft, Acceptable, Stored, Conflicts;
  }

  lemma DraftReads(env: Env, s: LState, o: Observer, kind: string, payload: Payload, now: int)
    requires Readable(env)
    ensures var d := NextDraft(env, s, o, kind, payload, now);
      d.kind == kind && d.authorKey == o.key && env.decode(d) == Some(payload)
  {
    hide NextLink, NextParents, Normalized, TrimSpace;
    var d := NextDraft(env, s, o, kind, payload, now);
    assert (d.payloadHash, d.payloadRef) == env.payloadText(d.kind, payload);
  }

  /** What an own event adds to the testimony of the ledger. */
  lemma EmittedTestimony(env: Env, s: LState, p: Policy, o: Observer, kind: string, payload: Payload, now: int,
                         a: string, b: string)
    requires Readable(env) && o.valid && !AffectsHeads(kind)
    ensures var d, t := NextDraft(env, s, o, kind, payload, now), Emit(env, s, p, o, kind, payload, now);
      && t.heads == s.heads
      && (o.key in Witnesses(t, a, b) <==>
            || o.key in Witnesses(s, a, b)
            || (Storable(env, s, p, now, d) && kind == "witness.attest" && payload == Attestation(a, b)))
      && (o.key in Checkpointers(t, a, b) <==>
            || o.key in Checkpointers(s, a, b)
            || (Storable(env, s, p, now, d) && kind == "witness.checkpoint" && payload == Checkpoint(a, b)
                && a != "" && b != ""))
  {
    hide NextDraft, Emit, Stored, Storable, Witnesses, Checkpointers, Introducers, AffectsHeads, Introduces;
    var d := NextDraft(env, s, o, kind, payload, now);
    EmitsIfStorable(env, s, p, o, kind, payload, now);
    DraftReads(env, s, o, kind, payload, now);
    StoringTestifies(env, s, d, a, b);
    QuietKinds(env, s, d);
  }

  lemma QuietKinds(env: Env, s: LState, ev: Event)
    requires !AffectsHeads(ev.kind)
    ensures Stored(env, s, ev).heads == s.heads
  {
    hide Track, Refs, MarkOf, AffectsHeads;
  }

  /** The ledger once the node has attested the event, if it has to. */
  ghost function Attesting(env: Env, s: LState, ev: Event, ctx: string, p: Policy, o: Observer, now: int): (r: LState) {
    if o.key in Witnesses(s, ev.id, ctx) then s
    else Emit(env, s, p, o, "witness.attest", Attestation(ev.id, ctx), now)
  }

  lemma WitnessingIs(env: Env, s: LState, ev: Event, context: string, p: Policy, o: Observer, now: int)
    ensures var ctx, t := TrimSpace(context), AutoWitness(env, s, ev, context, p, Some(o), now);
      if !Deserves(s, ev, context, p, o) then t == s
      else
        var s1 := Attesting(env, s, ev, ctx, p, o, now);
        var h := env.headsHash(s1.heads);
        t == if !AffectsHeads(ev.kind) || s1.heads == {} || o.key in Checkpointers(s1, ctx, h) then s1
             else Emit(env, s1, p, o, "witness.checkpoint", Checkpoint(ctx, h), now)
  {
    hide Emit, TrimSpace, AffectsHeads, Witnesses, Checkpointers;
    var ctx := TrimSpace(context);
    KeysAreMarks(s, ev.id, ctx, o.key);
    var s1 := Attesting(env, s, ev, ctx, p, o, now);
    KeysAreMarks(s1, ctx, env.headsHash(s1.heads), o.key);
  }

  /**
   * A trusted witness testifies: once a critical event is accepted, the node has attested it if and only if it had
   * before or the attestation can be stored, and if the event is a new head it has signed a checkpoint of the heads
   * unless that cannot be stored. Nobody else testifies.
   */
  lemma TrustedWitnessTestifies(env: Env, s: LState, ev: Event, context: string, p: Policy, o: Observer, now: int)
    requires Readable(env) && ev.id !in s.events && Apply(env, s, ev, context, p, Some(o), now).1 == None
    ensures var ctx, v, u := TrimSpace(context), Stored(env, s, ev), Apply(env, s, ev, context, p, Some(o), now).0;
      if !Deserves(s, ev, context, p, o) then u == v
      else
        var d := NextDraft(env, v, o, "witness.attest", Attestation(ev.id, ctx), now);
        var s1 := Attesting(env, v, ev, ctx, p, o, now);
        var h := env.headsHash(v.heads);
        var c := NextDraft(env, s1, o, "witness.checkpoint", Checkpoint(ctx, h), now);
        && (o.key in Witnesses(u, ev.id, ctx) <==> o.key in Witnesses(v, ev.id, ctx) || Storable(env, v, p, now, d))
        && (AffectsHeads(ev.kind) && h != "" ==>
              (o.key in Checkpointers(u, ctx, h) <==>
               o.key in Checkpointers(v, ctx, h) || Storable(env, s1, p, now, c)))
  {
    hide *;
    NewEventVerdicts(env, s, ev, context, p, Some(o), now);
    var ctx, v := TrimSpace(context), Stored(env, s, ev);
    WitnessingIs(env, v, ev, context, p, o, now);
    StoredFields(env, s, ev);
    DeservesStill(env, s, ev, context, p, o);
    if Deserves(s, ev, context, p, o) {
      TestimonyOf(env, v, ev, ctx, p, o, now);
    }
  }

  lemma DeservesStill(env: Env, s: LState, ev: Event, context: string, p: Policy, o: Observer)
    ensures Deserves(Stored(env, s, ev), ev, context, p, o) <==> Deserves(s, ev, context, p, o)
    ensures Deserves(s, ev, context, p, o) ==> o.valid && TrimSpace(context) != ""
    ensures AffectsHeads(ev.kind) ==> Stored(env, s, ev).heads != {}
  {
    hide Stored, TrimSpace, AffectsHeads;
    StoredFields(env, s, ev);
    NewHead(env, s, ev);
  }

  lemma NewHead(env: Env, s: LState, ev: Event)
    ensures AffectsHeads(ev.kind) ==> ev.id in Stored(env, s, ev).heads
  {
    hide Track, Refs, MarkOf, AffectsHeads, HeadRefs;
  }

  lemma TestimonyOf(env: Env, v: LState, ev: Event, ctx: string, p: Policy, o: Observer, now: int)
    requires Readable(env) && o.valid && ctx != "" && (AffectsHeads(ev.kind) ==> v.heads != {})
    ensures var d := NextDraft(env, v, o, "witness.attest", Attestation(ev.id, ctx), now);
      var s1 := Attesting(env, v, ev, ctx, p, o, now);
      var h := env.headsHash(v.heads);
      var c := NextDraft(env, s1, o, "witness.checkpoint", Checkpoint(ctx, h), now);
      var u := if !AffectsHeads(ev.kind) || s1.heads == {} || o.key in Checkpointers(s1, ctx, h) then s1
               else Emit(env, s1, p, o, "witness.checkpoint", Checkpoint(ctx, h), now);
      && s1.heads == v.heads
      && (o.key in Witnesses(u, ev.id, ctx) <==> o.key in Witnesses(v, ev.id, ctx) || Storable(env, v, p, now, d))
      && (AffectsHeads(ev.kind) && h != "" ==>
            (o.key in Checkpointers(u, ctx, h) <==> o.key in Checkpointers(v, ctx, h) || Storable(env, s1, p, now, c)))
  {
    hide NextDraft, Emit, Storable, Witnesses, Checkpointers, AffectsHeads, Readable;
    var s1, h := Attesting(env, v, ev, ctx, p, o, now), env.headsHash(v.heads);
    QuietActs();
    EmittedTestimony(env, v, p, o, "witness.attest", Attestation(ev.id, ctx), now, ev.id, ctx);
    EmittedTestimony(env, v, p, o, "witness.attest", Attestation(ev.id, ctx), now, ctx, h);
    EmittedTestimony(env, s1, p, o, "witness.checkpoint", Checkpoint(ctx, h), now, ev.id, ctx);
    EmittedTestimony(env, s1, p, o, "witness.checkpoint", Checkpoint(ctx, h), now, ctx, h);
  }

  lemma QuietActs()
    ensures !AffectsHeads("witness.attest") && !AffectsHeads("witness.checkpoint")
  {
  }
}
