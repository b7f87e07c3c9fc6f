/** Which events the ledger accepts, and what its indexes say, in the events' own terms. */
module Acceptance {
  import opened LedgerIndexes
  import opened LedgerInvariants
  import opened LedgerModel
  import opened PruningEffects
  import opened Results
  import opened Strings

  // ---------------------------------------------------------------- which events are accepted

  /** Everything an event must carry, whatever the policy; the signature is not part of it. */
  ghost predicate Complete(env: Env, ev: Event) {
    && ev.schema == 1 && ev.createdAt > 0 && |ev.parents| <= 32
    && (forall text | text in {ev.id, ev.author, ev.authorKey, ev.kind, ev.sig} :: TrimSpace(text) != "")
    && (if ev.seqNo <= 1 then ev.seqNo == 1 && TrimSpace(ev.prev) == "" else TrimSpace(ev.prev) != "")
    && ByteLength(ev.kind) <= 64 && ByteLength(ev.payloadRef) <= 8192
    && env.keyDecodes(ev.authorKey) && env.sigDecodes(ev.sig) && env.contentId(ev) == ev.id
  }

  /** The event is not further ahead of the clock than the policy allows; no limit allows everything. */
  ghost predicate NotAhead(p: Policy, now: int, ev: Event) {
    p.maxClockSkew <= 0 || ev.createdAt - now <= p.maxClockSkew
  }

  /** The event is not older than the policy allows. */
  ghost predicate NotStale(p: Policy, now: int, ev: Event) {
    p.maxEventAge <= 0 || now - ev.createdAt <= p.maxEventAge
  }

  /** The policy admits the kind and the payload of the event. */
  ghost predicate Admissible(env: Env, p: Policy, ev: Event) {
    (p.allowUnknownKinds || IsKnownKind(ev.kind)) && env.payloadOk(ev, p.trust)
  }

  /** The author index names no other event of that author and number. */
  ghost predicate Unrivalled(s: LState, ev: Event) {
    var key := (ev.author, ev.seqNo as nat);
    key in s.authorSeq ==> s.authorSeq[key] == ev.id
  }

  /** A stored previous event is the author's preceding one, and it is stored if the policy asks for that. */
  ghost predicate Fitting(s: LState, p: Policy, ev: Event) {
    ev.seqNo > 1 ==>
      if ev.prev in s.events
      then s.events[ev.prev].author == ev.author && s.events[ev.prev].seqNo == ev.seqNo - 1
      else !p.requireKnownPrev
  }

  /** Both time windows, for an event that is otherwise valid. */
  lemma TimeWindows(env: Env, p: Policy, now: int, ev: Event)
    requires Validates(env, ev)
    ensures VerdictOf(env, p, now, ev) == InFuture <==> p.maxClockSkew > 0 && ev.createdAt - now > p.maxClockSkew
    ensures VerdictOf(env, p, now, ev) == TooOld <==>
      NotAhead(p, now, ev) && p.maxEventAge > 0 && now - ev.createdAt > p.maxEventAge
  {
    hide WellFormed, IsKnownKind;
  }

  lemma CompleteIsWellFormed(env: Env, ev: Event)
    ensures Complete(env, ev) <==> WellFormed(env, ev) && ev.id == env.contentId(ev)
  {
    hide TrimSpace, ByteLength;
    if WellFormed(env, ev) {
      forall text | text in {ev.id, ev.author, ev.authorKey, ev.kind, ev.sig} ensures TrimSpace(text) != "" {
      }
    }
  }

  /** The number that links to a stored event cannot have wrapped around. */
  lemma FittingIsFaultless(s: LState, p: Policy, ev: Event)
    ensures Fitting(s, p, ev) <==>
      LinkFault(s, ev) == None && !(ev.seqNo > 1 && p.requireKnownPrev && ev.prev !in s.events)
  {
  }

  /** What the two forms make of a new event. */
  lemma NewEventVerdicts(env: Env, s: LState, ev: Event, context: string, p: Policy, obs: Option<Observer>, now: int)
    requires ev.id !in s.events
    ensures var (t, refusal) := Apply(env, s, ev, context, p, obs, now);
      var (u, refused) := ApplyVerified(env, s, ev, context, p, obs, now);
      && (refused == None <==> Complete(env, ev) && NotAhead(p, now, ev) && NotStale(p, now, ev)
                               && Admissible(env, p, ev) && Unrivalled(s, ev) && Fitting(s, p, ev))
      && (refusal == None <==> refused == None && env.sigOk(ev.authorKey, ev.id, ev.sig))
      && (refusal == None ==> t == u)
      && (refused == None ==> u == AutoWitness(env, Stored(env, s, ev), ev, context, p, obs, now))
  {
    hide WellFormed, Complete, IsKnownKind, LinkFault, Fitting, AutoWitness, Emit, Stored, TrimSpace;
    CompleteIsWellFormed(env, ev);
    FittingIsFaultless(s, p, ev);
  }

  /**
   * A new event is accepted if and only if it is complete and signed, lies within both time windows, is of an
   * admissible kind and payload, has no rival of its author and number and fits the preceding event. The form for
   * events whose signature was checked elsewhere accepts the same ones. What is accepted is stored as it came.
   */
  lemma AcceptedExactly(env: Env, s: LState, ev: Event, context: string, p: Policy, obs: Option<Observer>, now: int)
    requires ev.id !in s.events
    ensures var (t, refusal) := Apply(env, s, ev, context, p, obs, now);
      var (u, refused) := ApplyVerified(env, s, ev, context, p, obs, now);
      && (refused == None <==> Complete(env, ev) && NotAhead(p, now, ev) && NotStale(p, now, ev)
                               && Admissible(env, p, ev) && Unrivalled(s, ev) && Fitting(s, p, ev))
      && (refusal == None <==> refused == None && env.sigOk(ev.authorKey, ev.id, ev.sig))
      && (refusal == None ==> t == u)
      && (refused == None ==> ev.id in u.events && u.events[ev.id] == ev && Grows(s, u))
  {
    hide Apply, ApplyVerified, Complete, NotAhead, NotStale, Admissible, Unrivalled, Fitting, Stored, AutoWitness;
    NewEventVerdicts(env, s, ev, context, p, obs, now);
    var v := Stored(env, s, ev);
    StoredGrows(env, s, ev);
    StoredFields(env, s, ev);
    WitnessingKeeps(env, v, ev, context, p, obs, now);
  }

  /** With exact indexes, having no rival means that no stored event has the author and number. */
  lemma RivalsAreStored(env: Env, s: LState, ev: Event)
    requires Exact(env, s) && ev.id !in s.events
    ensures Unrivalled(s, ev) <==>
      forall id | id in s.events :: !(s.events[id].author == ev.author && s.events[id].seqNo == ev.seqNo)
  {
    hide MissingExact, MarksExact;
    var key := (ev.author, ev.seqNo as nat);
    if key in s.authorSeq {
      assert s.authorSeq[key] in s.events;
    }
  }

  // ---------------------------------------------------------------- what the indexes say

  /** The event names `x` as its previous event, as a parent, or as what it attests. */
  ghost predicate Names(env: Env, ev: Event, x: string) {
    || (ev.seqNo > 1 && ev.prev == x && x != "")
    || x in ev.parents
    || (ev.kind == "witness.attest" && x != "" &&
        exists id, ctx :: env.decode(ev) == Some(Attestation(id, ctx)) && TrimSpace(id) == x)
  }

  lemma NamesIsRefs(env: Env, ev: Event, x: string)
    ensures Names(env, ev, x) <==> x in Refs(env, ev)
  {
    hide TrimSpace;
    var a, b := (if ev.seqNo > 1 && ev.prev != "" then [ev.prev] else []) + ev.parents, AttestedId(env, ev);
    assert Refs(env, ev) == a + b;
    assert x in a + b <==> x in a || x in b;
  }

  /** With exact indexes, what is missing is exactly what some stored event names and what is not stored. */
  lemma MissingExactly(env: Env, s: LState, x: string)
    requires Exact(env, s)
    ensures x in s.missing <==> x !in s.events && exists id :: id in s.events && Names(env, s.events[id], x)
  {
    hide Refs, RefCount, Names, MarksExact, AuthorSound, AuthorComplete;
    assert MissingExactAt(env, s, x);
    if x in s.missing {
      var from := CountedIsReferred(env, s.events, x);
      NamesIsRefs(env, s.events[from], x);
    }
    if id :| id in s.events && Names(env, s.events[id], x) {
      NamesIsRefs(env, s.events[id], x);
      ReferredIsCounted(env, s.events, id, x);
    }
  }

  /** A head is a stored event of a head-affecting kind that no other such event names as previous one or parent. */
  lemma HeadsExactly(events: map<string, Event>, x: string)
    ensures x in RecomputedHeads(events) <==>
      x in events && AffectsHeads(events[x].kind) && forall id | id in events && AffectsHeads(events[id].kind) ::
        x !in events[id].parents && (x == "" || events[id].prev != x)
  {
    hide AffectsHeads;
  }

  /** The other sides of the kind lists, and what holds of unknown kinds. */
  lemma KindRoles(kind: string)
    ensures IsKnownKind(kind) ==>
      && (AffectsHeads(kind) <==> kind in {"ledger.event", "chat.message", "agent.action", "group.create", "group.join",
                                           "group.membership", "identity.rotate", "identity.revoke"})
      && (IsCriticalKind(kind) <==> kind !in {"ledger.event", "chat.message", "agent.action", "sync.summary"})
    ensures IsKnownKind(kind) <==>
      !AffectsHeads(kind) || IsCriticalKind(kind) || kind in {"ledger.event", "chat.message", "agent.action"}
  {
  }
}
