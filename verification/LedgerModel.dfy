/** The event ledger as a state machine over its stored events and incremental indexes. */
module LedgerModel {
  import opened Results
  import opened Sorting
  import opened Strings

  const SCHEMA_V1 := 1
  const MAX_PARENTS := 32
  const MAX_KIND_LEN := 64
  const MAX_REF_LEN := 8192
  const TWO_64 := 0x1_0000_0000_0000_0000

  type U64 = n: nat | n < TWO_64

  datatype Event = Event(
    schema: int, id: string, createdAt: int, author: string, authorKey: string, seqNo: U64, prev: string,
    parents: seq<string>, kind: string, payloadHash: string, payloadRef: string, sig: string)

  const KIND_LEDGER_EVENT := "ledger.event"
  const KIND_CHAT_MESSAGE := "chat.message"
  const KIND_GROUP_CREATE := "group.create"
  const KIND_GROUP_JOIN := "group.join"
  const KIND_WITNESS_ATTEST := "witness.attest"
  const KIND_WITNESS_CHECKPOINT := "witness.checkpoint"
  const KIND_IDENTITY_INTRODUCE := "identity.introduce"
  const KIND_IDENTITY_ROTATE := "identity.rotate"
  const KIND_IDENTITY_REVOKE := "identity.revoke"
  const KIND_MISBEHAVIOR_EQUIVOC := "misbehavior.equivocation"
  const KIND_MISBEHAVIOR_REPLAY := "misbehavior.replay"
  const KIND_MISBEHAVIOR_SYBIL := "misbehavior.sybil"
  const KIND_GROUP_MEMBERSHIP := "group.membership"
  const KIND_AGENT_ACTION := "agent.action"
  const KIND_SYNC_SUMMARY := "sync.summary"

  predicate AffectsHeads(kind: string) {
    kind !in {KIND_WITNESS_ATTEST, KIND_WITNESS_CHECKPOINT, KIND_IDENTITY_INTRODUCE, KIND_MISBEHAVIOR_EQUIVOC,
              KIND_MISBEHAVIOR_REPLAY, KIND_MISBEHAVIOR_SYBIL, KIND_SYNC_SUMMARY}
  }

  predicate IsCriticalKind(kind: string) {
    kind in {KIND_IDENTITY_INTRODUCE, KIND_IDENTITY_ROTATE, KIND_IDENTITY_REVOKE, KIND_MISBEHAVIOR_EQUIVOC,
             KIND_MISBEHAVIOR_REPLAY, KIND_MISBEHAVIOR_SYBIL, KIND_WITNESS_ATTEST, KIND_WITNESS_CHECKPOINT,
             KIND_GROUP_CREATE, KIND_GROUP_JOIN, KIND_GROUP_MEMBERSHIP}
  }

  predicate IsKnownKind(kind: string) {
    kind in {KIND_LEDGER_EVENT, KIND_CHAT_MESSAGE, KIND_GROUP_CREATE, KIND_GROUP_JOIN, KIND_WITNESS_ATTEST,
             KIND_WITNESS_CHECKPOINT, KIND_IDENTITY_INTRODUCE, KIND_IDENTITY_ROTATE, KIND_IDENTITY_REVOKE,
             KIND_MISBEHAVIOR_EQUIVOC, KIND_MISBEHAVIOR_REPLAY, KIND_MISBEHAVIOR_SYBIL, KIND_GROUP_MEMBERSHIP,
             KIND_AGENT_ACTION, KIND_SYNC_SUMMARY}
  }

  // ---------------------------------------------------------------- policies and the environment

  datatype Trust = Trust(witnesses: map<string, map<string, int>>, thresholds: map<string, int>,
      defaultThreshold: int) {
    function Weight(ctx: string, key: string): (r: int) {
      if ctx in witnesses && key in witnesses[ctx] then witnesses[ctx][key] else 0
    }

    function Threshold(ctx: string): (r: int)
      ensures r >= 0
    {
      if ctx in thresholds && thresholds[ctx] > 0 then thresholds[ctx]
      else if defaultThreshold > 0 then defaultThreshold else 0
    }
  }

  datatype Policy = Policy(
    allowUnknownKinds: bool, maxClockSkew: int, maxEventAge: int, requireKnownPrev: bool,
    retentionByKind: map<string, int>, trust: Trust)

  /** An entry of a witness index: who attested, checkpointed or introduced what, in which context. */
  datatype Mark =
    | Attested(eventId: string, ctx: string, key: string)
    | Checkpointed(ctx: string, headsHash: string, key: string)
    | Introduced(ctx: string, subject: string, key: string)

  /** The payload of an event as the decoder sees it. */
  datatype Payload =
    | Attestation(eventId: string, ctx: string)
    | Checkpoint(ctx: string, headsHash: string)
    | Introduction(ctx: string, subject: string)
    | Other

  /**
   * Cryptography and encodings, as arbitrary functions: the base64 content hash, signature checks against
   * that hash, well-formedness of keys and signatures, payload decoding and checking, digests, and the
   * payload and signature of an event this node emits itself.
   */
  datatype Env = Env(
    contentId: Event -> string,
    sigOk: (string, string, string) -> bool,
    keyDecodes: string -> bool,
    sigDecodes: string -> bool,
    decode: Event -> Option<Payload>,
    payloadOk: (Event, Trust) -> bool,
    headsHash: set<string> -> string,
    rootHash: seq<string> -> string,
    anchorHash: (string, string, int, int, int, int) -> string,
    payloadText: (string, Payload) -> (string, string),
    sign: Event -> string,
    marshalled: Event -> Option<nat>)

  // ---------------------------------------------------------------- validation

  /** The checks that need no cryptography. */
  predicate WellFormed(env: Env, ev: Event) {
    && ev.schema == SCHEMA_V1
    && TrimSpace(ev.id) != "" && ev.createdAt > 0
    && TrimSpace(ev.author) != "" && TrimSpace(ev.authorKey) != ""
    && ev.seqNo != 0
    && (ev.seqNo == 1 ==> TrimSpace(ev.prev) == "")
    && (ev.seqNo > 1 ==> TrimSpace(ev.prev) != "")
    && |ev.parents| <= MAX_PARENTS
    && TrimSpace(ev.kind) != "" && ByteLength(ev.kind) <= MAX_KIND_LEN && ByteLength(ev.payloadRef) <= MAX_REF_LEN
    && TrimSpace(ev.sig) != ""
    && env.keyDecodes(ev.authorKey) && env.sigDecodes(ev.sig)
  }

  predicate Genuine(env: Env, ev: Event) {
    ev.id == env.contentId(ev) && env.sigOk(ev.authorKey, ev.id, ev.sig)
  }

  predicate Validates(env: Env, ev: Event) {
    WellFormed(env, ev) && Genuine(env, ev)
  }

  datatype Verdict = Fine | InFuture | TooOld | UnknownKind | BadPayload | Malformed

  function PolicyVerdict(env: Env, p: Policy, now: int, ev: Event): (r: Verdict) {
    if p.maxClockSkew > 0 && ev.createdAt > now + p.maxClockSkew then InFuture
    else if p.maxEventAge > 0 && ev.createdAt < now - p.maxEventAge then TooOld
    else if !p.allowUnknownKinds && !IsKnownKind(ev.kind) then UnknownKind
    else if !env.payloadOk(ev, p.trust) then BadPayload
    else Fine
  }

  function VerdictOf(env: Env, p: Policy, now: int, ev: Event): (r: Verdict) {
    if !Validates(env, ev) then Malformed else PolicyVerdict(env, p, now, ev)
  }

  predicate Acceptable(env: Env, p: Policy, now: int, ev: Event) {
    VerdictOf(env, p, now, ev) == Fine
  }

  // ---------------------------------------------------------------- state

  datatype Anchor = Anchor(
    schema: int, createdAt: int, prunedCount: int, firstCreatedAt: int, lastCreatedAt: int,
    rootHash: string, prevAnchorHash: string, anchorHash: string)

  datatype LState = LState(
    events: map<string, Event>, heads: set<string>, authorSeq: map<(string, nat), string>,
    missing: map<string, nat>, compromised: set<string>, marks: set<Mark>, anchors: seq<Anchor>)

  const EMPTY := LState(map[], {}, map[], map[], {}, {}, [])

  /** The events that an event takes off the heads. */
  function HeadRefs(ev: Event): (r: set<string>) {
    (if ev.prev != "" then {ev.prev} else {}) + (set p | p in ev.parents)
  }

  function AttestedId(env: Env, ev: Event): (r: seq<string>) {
    if ev.kind != KIND_WITNESS_ATTEST then []
    else match env.decode(ev)
      case Some(Attestation(id, _)) => if TrimSpace(id) == "" then [] else [TrimSpace(id)]
      case _ => []
  }

  /** The references whose absence is tracked, with repetition. */
  function Refs(env: Env, ev: Event): (r: seq<string>) {
    (if ev.seqNo > 1 && ev.prev != "" then [ev.prev] else []) + ev.parents + AttestedId(env, ev)
  }

  function MarkOf(env: Env, ev: Event): (r: Option<Mark>) {
    var payload := env.decode(ev);
    if ev.kind == KIND_WITNESS_ATTEST && payload.Some? && payload.value.Attestation? then
      Some(Attested(payload.value.eventId, payload.value.ctx, ev.authorKey))
    else if ev.kind == KIND_WITNESS_CHECKPOINT && payload.Some? && payload.value.Checkpoint? then
      if payload.value.ctx == "" || payload.value.headsHash == "" then None
      else Some(Checkpointed(payload.value.ctx, payload.value.headsHash, ev.authorKey))
    else if ev.kind == KIND_IDENTITY_INTRODUCE && payload.Some? && payload.value.Introduction? then
      var ctx, subject := TrimSpace(payload.value.ctx), TrimSpace(payload.value.subject);
      if ctx == "" || subject == "" then None else Some(Introduced(ctx, subject, ev.authorKey))
    else None
  }

  // ---------------------------------------------------------------- adding one event

  function Bump(m: map<string, nat>, x: string): (r: map<string, nat>) {
    m[x := (if x in m then m[x] else 0) + 1]
  }

  /** Counts each reference that is not stored. */
  function Track(missing: map<string, nat>, events: map<string, Event>, refs: seq<string>): (r: map<string, nat>) {
    if refs == [] then missing
    else
      var m := Track(missing, events, refs[..|refs| - 1]);
      var x := refs[|refs| - 1];
      if x in events then m else Bump(m, x)
  }

  function Heads(heads: set<string>, ev: Event): (r: set<string>) {
    if AffectsHeads(ev.kind) then heads - HeadRefs(ev) + {ev.id} else heads
  }

  datatype Refusal =
    | PrevNotFound | SeqConflict | PrevAuthorMismatch | PrevSeqMismatch | Rejected(verdict: Verdict) | Equivocation

  /** The state once `ev` is stored and indexed. */
  function Stored(env: Env, s: LState, ev: Event): (r: LState) {
    var events := s.events[ev.id := ev];
    var mark := MarkOf(env, ev);
    s.(events := events,
       authorSeq := s.authorSeq[(ev.author, ev.seqNo) := ev.id],
       missing := Track(s.missing - {ev.id}, events, Refs(env, ev)),
       marks := if mark.Some? then s.marks + {mark.value} else s.marks,
       heads := Heads(s.heads, ev))
  }

  predicate Conflicts(s: LState, ev: Event) {
    (ev.author, ev.seqNo) in s.authorSeq && s.authorSeq[(ev.author, ev.seqNo)] != ev.id
  }

  /** The link to the previous event, checked only if that event is stored. */
  function LinkFault(s: LState, ev: Event): (r: Option<Refusal>) {
    if ev.seqNo > 1 && ev.prev in s.events then
      var prev := s.events[ev.prev];
      if prev.author != ev.author then Some(PrevAuthorMismatch)
      else if (prev.seqNo + 1) % TWO_64 != ev.seqNo then Some(PrevSeqMismatch)
      else None
    else None
  }

  /** Stores an event unless it is known, unlinked or conflicting. */
  function AddLocked(env: Env, s: LState, ev: Event, requireKnownPrev: bool): (r: (LState, Option<Refusal>)) {
    if ev.id in s.events then (s, None)
    else if ev.seqNo > 1 && requireKnownPrev && ev.prev !in s.events then (s, Some(PrevNotFound))
    else if Conflicts(s, ev) then (s, Some(SeqConflict))
    else (Stored(env, s, ev), None)
  }

  /** The unchecked path used to reload a snapshot. */
  function AddEvent(env: Env, s: LState, ev: Event): (r: (LState, Option<Refusal>)) {
    if !Validates(env, ev) then (s, Some(Rejected(Malformed)))
    else if ev.id in s.events then (s, None)
    else if Conflicts(s, ev) then (s, Some(SeqConflict))
    else if LinkFault(s, ev).Some? then (s, LinkFault(s, ev))
    else (Stored(env, s, ev), None)
  }

  // ---------------------------------------------------------------- emitting own events

  /** The node's own identity when it acts as a witness; `valid` says its keys are usable. */
  datatype Observer = Observer(author: string, key: string, valid: bool)

  ghost function MaxOf(s: set<nat>): (r: nat)
    ensures s != {} ==> r in s
    ensures forall x | x in s :: x <= r
    ensures s == {} ==> r == 0
  {
    if s == {} then 0
    else
      var x :| x in s;
      var m := MaxOf(s - {x});
      assert forall y | y in s :: y == x || y in s - {x};
      if x > m then x else m
  }

  ghost function SeqsOf(s: LState, author: string): (r: set<nat>) {
    set k | k in s.authorSeq && k.0 == author :: k.1
  }

  /** Sequence number and previous event for the author's next event. */
  ghost function NextLink(s: LState, author: string): (r: (U64, string)) {
    var m := MaxOf(SeqsOf(s, author));
    if m > 0 && (author, m) in s.authorSeq then ((m + 1) % TWO_64, s.authorSeq[(author, m)]) else (1, "")
  }

  lemma LessIsOrder()
    ensures WeakOrder(Less)
    ensures forall s: set<string> :: TotalOn(s, Less)
  {
    hide Less;
    forall a: string, b: string, c: string
      ensures !Less(a, a)
      ensures Less(a, b) && Less(b, c) ==> Less(a, c)
      ensures Less(a, c) ==> Less(a, b) || Less(b, c)
      ensures a != b ==> Less(a, b) || Less(b, a)
    {
      LessLaws(a, b, c); LessLaws(a, c, b); LessLaws(b, c, a);
    }
  }

  ghost function NextParents(s: LState): (r: seq<string>) {
    var all := SortedSet(s.heads, Less);
    if |all| > MAX_PARENTS then all[..MAX_PARENTS] else all
  }

  /** Trimmed, without blanks and repetitions, in order. */
  ghost function Normalized(ids: seq<string>): (r: seq<string>) {
    SortedSet(Trims(Elements(ids)) - {""}, Less)
  }

  /** The event an observer signs over normalized parents; its author and link are trimmed. */
  function Draft(env: Env, obs: Observer, link: (U64, string), parents: seq<string>, kind: string, payload: Payload,
                 now: int): (ev: Event)
    ensures ev.author == TrimSpace(obs.author) && ev.seqNo == link.0 && ev.prev == TrimSpace(link.1) && ev.kind == kind
  {
    var text := env.payloadText(kind, payload);
    var draft := Event(SCHEMA_V1, "", now, TrimSpace(obs.author), obs.key, link.0, TrimSpace(link.1), parents, kind,
                       text.0, text.1, "");
    draft.(id := env.contentId(draft), sig := env.sign(draft))
  }

  /** The observer's next event over the present heads. */
  ghost function NextDraft(env: Env, s: LState, obs: Observer, kind: string, payload: Payload, now: int): (ev: Event) {
    Draft(env, obs, NextLink(s, obs.author), Normalized(NextParents(s)), kind, payload, now)
  }

  /** Signs, checks and stores an event of the observer; a refused one is dropped silently. */
  ghost function Emit(env: Env, s: LState, p: Policy, obs: Observer, kind: string, payload: Payload, now: int)
    : (r: LState)
  {
    var ev := NextDraft(env, s, obs, kind, payload, now);
    if obs.valid && Acceptable(env, p, now, ev) then AddLocked(env, s, ev, false).0 else s
  }

  /** Attestation and checkpoint that a witnessing node adds after it accepted a critical event. */
  ghost function AutoWitness(env: Env, s: LState, ev: Event, context: string, p: Policy, obs: Option<Observer>,
                             now: int): (r: LState) {
    if obs.None? || !obs.value.valid then s else
    var ctx := TrimSpace(context);
    var o := obs.value;
    if ctx == "" || p.trust.Weight(ctx, o.key) <= 0 || o.key in s.compromised then s
    else if ev.kind in {KIND_WITNESS_ATTEST, KIND_WITNESS_CHECKPOINT, KIND_SYNC_SUMMARY} then s
    else if !IsCriticalKind(ev.kind) then s
    else
      var s1 := if Attested(ev.id, ctx, o.key) in s.marks then s
                else Emit(env, s, p, o, KIND_WITNESS_ATTEST, Attestation(ev.id, ctx), now);
      if !AffectsHeads(ev.kind) || s1.heads == {} then s1
      else
        var h := env.headsHash(s1.heads);
        if Checkpointed(ctx, h, o.key) in s1.marks then s1
        else Emit(env, s1, p, o, KIND_WITNESS_CHECKPOINT, Checkpoint(ctx, h), now)
  }

  // ---------------------------------------------------------------- applying an event

  /** Both keys of an equivocation become compromised. */
  function Compromise(s: LState, ev: Event): (r: LState)
    requires Conflicts(s, ev)
  {
    var id := s.authorSeq[(ev.author, ev.seqNo)];
    var other := if id in s.events then {s.events[id].authorKey} else {""};
    s.(compromised := s.compromised + other + {ev.authorKey})
  }

  /** The checks and the insertion that follow validation. */
  ghost function Insert(env: Env, s: LState, ev: Event, context: string, p: Policy, obs: Option<Observer>, now: int)
    : (r: (LState, Option<Refusal>))
  {
    if ev.id in s.events then (s, None)
    else if Conflicts(s, ev) then
      var t := Compromise(s, ev);
      (if obs.Some? then Emit(env, t, p, obs.value, KIND_MISBEHAVIOR_EQUIVOC, Other, now) else t, Some(Equivocation))
    else if ev.seqNo > 1 && p.requireKnownPrev && ev.prev !in s.events then (s, Some(PrevNotFound))
    else if LinkFault(s, ev).Some? then (s, LinkFault(s, ev))
    else
      var t := AddLocked(env, s, ev, p.requireKnownPrev).0;
      (AutoWitness(env, t, ev, context, p, obs, now), None)
  }

  ghost function Apply(env: Env, s: LState, ev: Event, context: string, p: Policy, obs: Option<Observer>, now: int)
    : (r: (LState, Option<Refusal>))
  {
    var v := VerdictOf(env, p, now, ev);
    if v == Fine then Insert(env, s, ev, context, p, obs, now)
    else if v == TooOld && obs.Some? && TrimSpace(context) != "" then
      (Emit(env, s, p, obs.value, KIND_MISBEHAVIOR_REPLAY, Other, now), Some(Rejected(TooOld)))
    else (s, Some(Rejected(v)))
  }

  /** The verdict without the identifier and signature checks. */
  function NoCryptoVerdict(env: Env, p: Policy, now: int, ev: Event): (r: Verdict) {
    if !WellFormed(env, ev) then Malformed else PolicyVerdict(env, p, now, ev)
  }

  /** Applies an event whose signature was checked elsewhere. */
  ghost function ApplyVerified(env: Env, s: LState, ev: Event, context: string, p: Policy, obs: Option<Observer>,
                               now: int)
    : (r: (LState, Option<Refusal>))
  {
    var v := NoCryptoVerdict(env, p, now, ev);
    if v == TooOld && obs.Some? && TrimSpace(context) != "" then
      (Emit(env, s, p, obs.value, KIND_MISBEHAVIOR_REPLAY, Other, now), Some(Rejected(TooOld)))
    else if v != Fine then (s, Some(Rejected(v)))
    else if ev.id != env.contentId(ev) then (s, Some(Rejected(Malformed)))
    else Insert(env, s, ev, context, p, obs, now)
  }

  // ---------------------------------------------------------------- removing events

  ghost function RecomputedHeads(events: map<string, Event>): (r: set<string>) {
    set id | id in events && AffectsHeads(events[id].kind)
             && !exists other :: other in events && AffectsHeads(events[other].kind) && id in HeadRefs(events[other])
  }

  /** Rebuilding keeps the events, so only the heads are really recomputed. */
  ghost function Rebuilt(s: LState, events: map<string, Event>): (r: LState) {
    s.(events := events, heads := RecomputedHeads(events), authorSeq := map[], missing := map[], marks := {})
  }

  ghost predicate Referenced(events: map<string, Event>, id: string) {
    exists other :: other in events && id in HeadRefs(events[other])
  }
}
