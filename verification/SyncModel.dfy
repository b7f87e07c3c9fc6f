/** What sync messages say and how their events are ordered and applied. */
module SyncModel {
  import opened LedgerModel
  import opened Results
  import opened Sorting
  import opened Strings

  const SYNC_SCHEMA_V1 := 1
  const DEFAULT_CAP := 256

  datatype Inventory = Inventory(schema: int, heads: seq<string>, have: seq<string>)

  datatype EventsMessage = EventsMessage(schema: int, events: seq<Event>)

  datatype Report = Report(applied: nat, dupe: nat, rejected: nat) {
    function Total(): (r: nat) {
      applied + dupe + rejected
    }
  }

  function Cap(n: int): (r: nat)
    ensures r > 0
  {
    if n <= 0 then DEFAULT_CAP else n
  }

  function Take<T>(s: seq<T>, n: nat): (r: seq<T>)
    ensures r <= s && |r| <= n
  {
    if |s| <= n then s else s[..n]
  }

  // ---------------------------------------------------------------- what to ask a peer for

  /** What the peer claims to hold. */
  ghost function PeerHas(inv: Inventory): (r: set<string>) {
    Trims(Elements(inv.have)) + Trims(Elements(inv.heads)) - {""}
  }

  function MissingCount(missing: map<string, nat>, id: string): (r: nat) {
    if id in missing then missing[id] else 0
  }

  /** Heavier references first, then more often missing ones, then by name. */
  function MoreUrgent(missing: map<string, nat>, weight: string -> int): (r: (string, string) -> bool) {
    (a: string, b: string) =>
      if weight(a) != weight(b) then weight(a) > weight(b)
      else if MissingCount(missing, a) != MissingCount(missing, b)
          then MissingCount(missing, a) > MissingCount(missing, b)
      else Less(a, b)
  }

  /** What the peer has and this ledger lacks. */
  ghost function Obtainable(s: LState, inv: Inventory): (r: set<string>) {
    PeerHas(inv) - s.events.Keys
  }

  ghost function WantedRefs(s: LState, inv: Inventory): (r: set<string>) {
    Trims(s.missing.Keys) * Obtainable(s, inv)
  }

  ghost function WantedHeads(s: LState, inv: Inventory): (r: set<string>) {
    Trims(Elements(inv.heads)) * Obtainable(s, inv)
  }

  /** The obtainable missing references, then the other obtainable heads, each by urgency, up to the limit. */
  ghost function Plan(s: LState, inv: Inventory, maxWant: int, weight: string -> int): (r: seq<string>) {
    var order, refs := MoreUrgent(s.missing, weight), WantedRefs(s, inv);
    Take(SortedSet(refs, order) + SortedSet(WantedHeads(s, inv) - refs, order), Cap(maxWant))
  }

  // ---------------------------------------------------------------- what to send

  /** The stored events among the wanted ones, in the order they are wanted. */
  function Lookup(events: map<string, Event>, want: seq<string>): (r: seq<Event>)
    ensures forall ev | ev in r :: exists id :: id in want && TrimSpace(id) in events && events[TrimSpace(id)] == ev
  {
    if want == [] then []
    else
      var init, id := want[..|want| - 1], TrimSpace(want[|want| - 1]);
      var r := Lookup(events, init);
      if id != "" && id in events then r + [events[id]] else r
  }

  function Requested(events: map<string, Event>, want: seq<string>, maxEvents: int): (r: seq<Event>) {
    Take(Lookup(events, want), Cap(maxEvents))
  }

  // ---------------------------------------------------------------- in which order to apply

  function KindPriority(kind: string): (r: nat) {
    var k := TrimSpace(kind);
    if k in {KIND_IDENTITY_REVOKE, KIND_IDENTITY_ROTATE, KIND_IDENTITY_INTRODUCE} then 0
    else if k in {KIND_MISBEHAVIOR_EQUIVOC, KIND_MISBEHAVIOR_REPLAY, KIND_MISBEHAVIOR_SYBIL} then 1
    else if k in {KIND_WITNESS_CHECKPOINT, KIND_WITNESS_ATTEST} then 2
    else if k in {KIND_GROUP_MEMBERSHIP, KIND_GROUP_CREATE, KIND_GROUP_JOIN} then 3
    else if k == KIND_AGENT_ACTION then 4
    else if k == KIND_CHAT_MESSAGE then 5
    else if k in {KIND_SYNC_SUMMARY, KIND_LEDGER_EVENT} then 7
    else 10
  }

  /** The identifiers of a batch. */
  ghost function BatchIds(batch: seq<Event>): (r: set<string>) {
    (set ev | ev in batch :: TrimSpace(ev.id)) - {""}
  }

  /** The parents of an event that are in the batch. */
  ghost function ParentMentions(ids: set<string>, parents: seq<string>): (r: multiset<string>) {
    if parents == [] then multiset{}
    else
      var p := TrimSpace(parents[|parents| - 1]);
      ParentMentions(ids, parents[..|parents| - 1]) + if p in ids then multiset{p} else multiset{}
  }

  ghost function Mentions(ids: set<string>, ev: Event): (r: multiset<string>) {
    (if TrimSpace(ev.prev) != "" && ev.prev in ids then multiset{ev.prev} else multiset{})
         + ParentMentions(ids, ev.parents)
  }

  /** How often the events of a batch refer to each other. */
  ghost function BatchMentions(ids: set<string>, batch: seq<Event>): (r: multiset<string>) {
    if batch == [] then multiset{} else BatchMentions(ids, batch[..|batch| - 1]) + Mentions(ids, batch[|batch| - 1])
  }

  /** Priority of the kind, then most referenced, then oldest, then by identifier. */
  function GoesFirst(mentions: multiset<string>): (r: (Event, Event) -> bool) {
    (a: Event, b: Event) =>
      if KindPriority(a.kind) != KindPriority(b.kind) then KindPriority(a.kind) < KindPriority(b.kind)
      else if mentions[a.id] != mentions[b.id] then mentions[a.id] > mentions[b.id]
      else if a.createdAt != b.createdAt then a.createdAt < b.createdAt
      else Less(a.id, b.id)
  }

  ghost function OrderedBatch(batch: seq<Event>): (r: seq<Event>)
    ensures multiset(r) == multiset(batch) && |r| == |batch|
  {
    Sort(batch, GoesFirst(BatchMentions(BatchIds(batch), batch)))
  }

  /** The order is a strict weak order, so the batch is really sorted by it and urgent kinds come first. */
  lemma BatchIsOrdered(batch: seq<Event>)
    ensures var r := OrderedBatch(batch);
      Ordered(r, GoesFirst(BatchMentions(BatchIds(batch), batch))) &&
      forall i, j | 0 <= i < j < |r| :: KindPriority(r[i].kind) <= KindPriority(r[j].kind)
  {
    hide WeakOrder, Less, KindPriority, Sort;
    var m := BatchMentions(BatchIds(batch), batch);
    GoesFirstIsOrder(m);
    SortOrdered(batch, GoesFirst(m));
    var r := OrderedBatch(batch);
    forall i, j | 0 <= i < j < |r| ensures KindPriority(r[i].kind) <= KindPriority(r[j].kind) {
      assert !GoesFirst(m)(r[j], r[i]);
    }
  }

  /** An event of the batch names `x` as its previous event or, trimmed, as a parent. */
  ghost predicate NamedInBatch(batch: seq<Event>, x: string) {
    exists ev :: ev in batch &&
      ((TrimSpace(x) != "" && ev.prev == x) || exists p :: p in ev.parents && TrimSpace(p) == x)
  }

  lemma {:induction false} ParentsMentioned(ids: set<string>, parents: seq<string>, x: string)
    ensures ParentMentions(ids, parents)[x] > 0 <==> x in ids && exists p :: p in parents && TrimSpace(p) == x
  {
    hide TrimSpace;
    if parents != [] {
      var init, last := parents[..|parents| - 1], parents[|parents| - 1];
      ParentsMentioned(ids, init, x);
      assert forall p :: p in parents <==> p in init || p == last;
    }
  }

  lemma EventMentions(ids: set<string>, ev: Event, x: string)
    ensures Mentions(ids, ev)[x] > 0 <==>
      x in ids && ((TrimSpace(x) != "" && ev.prev == x) || exists p :: p in ev.parents && TrimSpace(p) == x)
  {
    hide TrimSpace, ParentMentions;
    ParentsMentioned(ids, ev.parents, x);
  }

  /** What is counted as mentioned is exactly what is in the batch and named by an event of it. */
  lemma {:induction false} MentionedExactly(ids: set<string>, batch: seq<Event>, x: string)
    ensures BatchMentions(ids, batch)[x] > 0 <==> x in ids && NamedInBatch(batch, x)
  {
    hide TrimSpace, Mentions;
    if batch != [] {
      var init, last := batch[..|batch| - 1], batch[|batch| - 1];
      MentionedExactly(ids, init, x);
      EventMentions(ids, last, x);
      assert forall ev :: ev in batch <==> ev in init || ev == last;
    }
  }

  /** Among events of one priority, those that the batch refers to go before the others. */
  lemma ReferredEventsLead(batch: seq<Event>, i: nat, j: nat)
    requires i < j < |batch|
    requires var r := OrderedBatch(batch);
      && KindPriority(r[i].kind) == KindPriority(r[j].kind) && TrimSpace(r[j].id) == r[j].id != ""
      && NamedInBatch(batch, r[j].id)
    ensures NamedInBatch(batch, OrderedBatch(batch)[i].id)
  {
    hide TrimSpace, KindPriority, BatchMentions, NamedInBatch, OrderedBatch, Less;
    var r, ids := OrderedBatch(batch), BatchIds(batch);
    var m := BatchMentions(ids, batch);
    BatchIsOrdered(batch);
    SameElements(r, batch);
    assert r[j] in Elements(r);
    MentionedExactly(ids, batch, r[i].id);
    MentionedExactly(ids, batch, r[j].id);
    assert !GoesFirst(m)(r[j], r[i]);
  }

  /** Among events of one priority to which nothing in the batch refers, the older ones go first. */
  lemma OlderEventsLead(batch: seq<Event>, i: nat, j: nat)
    requires i < j < |batch|
    requires var r := OrderedBatch(batch);
      && KindPriority(r[i].kind) == KindPriority(r[j].kind)
      && !NamedInBatch(batch, r[i].id) && !NamedInBatch(batch, r[j].id)
    ensures var a, b := OrderedBatch(batch)[i], OrderedBatch(batch)[j];
      a.createdAt < b.createdAt || (a.createdAt == b.createdAt && !Less(b.id, a.id))
  {
    hide TrimSpace, KindPriority, BatchMentions, NamedInBatch, OrderedBatch, Less;
    var r, ids := OrderedBatch(batch), BatchIds(batch);
    var m := BatchMentions(ids, batch);
    BatchIsOrdered(batch);
    MentionedExactly(ids, batch, r[i].id);
    MentionedExactly(ids, batch, r[j].id);
    assert !GoesFirst(m)(r[j], r[i]);
  }

  const IDENTITY_KINDS := {"identity.introduce", "identity.rotate", "identity.revoke"}

  /** Events about identities come first of all, and events of unknown kinds come last. */
  lemma IdentitiesLead(batch: seq<Event>, i: nat, j: nat)
    requires i < j < |batch|
    ensures var a, b := TrimSpace(OrderedBatch(batch)[i].kind), TrimSpace(OrderedBatch(batch)[j].kind);
      (b in IDENTITY_KINDS ==> a in IDENTITY_KINDS) && (IsKnownKind(b) ==> IsKnownKind(a))
  {
    hide TrimSpace, OrderedBatch, KindPriority, IsKnownKind;
    BatchIsOrdered(batch);
    PriorityEnds(OrderedBatch(batch)[i].kind);
    PriorityEnds(OrderedBatch(batch)[j].kind);
  }

  lemma PriorityEnds(kind: string)
    ensures KindPriority(kind) == 0 <==> TrimSpace(kind) in IDENTITY_KINDS
    ensures KindPriority(kind) <= 7 <==> IsKnownKind(TrimSpace(kind))
    ensures KindPriority(kind) <= 10 && (KindPriority(kind) > 7 ==> KindPriority(kind) == 10)
  {
    hide TrimSpace;
  }

  lemma GoesFirstIsOrder(mentions: multiset<string>)
    ensures WeakOrder(GoesFirst(mentions))
  {
    hide Less, KindPriority;
    var less := GoesFirst(mentions);
    forall a, b, c
      ensures !less(a, a)
      ensures less(a, b) && less(b, c) ==> less(a, c)
      ensures less(a, c) ==> less(a, b) || less(b, c)
    {
      LessLaws(a.id, b.id, c.id); LessLaws(a.id, c.id, b.id); LessLaws(b.id, c.id, a.id);
    }
  }

  lemma MoreUrgentIsOrder(missing: map<string, nat>, weight: string -> int)
    ensures WeakOrder(MoreUrgent(missing, weight))
    ensures forall s: set<string> :: TotalOn(s, MoreUrgent(missing, weight))
  {
    hide Less, MissingCount;
    var less := MoreUrgent(missing, weight);
    forall a, b, c
      ensures !less(a, a)
      ensures less(a, b) && less(b, c) ==> less(a, c)
      ensures less(a, c) ==> less(a, b) || less(b, c)
      ensures a != b ==> less(a, b) || less(b, a)
    {
      LessLaws(a, b, c); LessLaws(a, c, b); LessLaws(b, c, a);
    }
  }

  // ---------------------------------------------------------------- applying a message

  /** An event already held is a duplicate; any other is applied or rejected. */
  ghost function ApplyOne(env: Env, s: LState, rep: Report, ev: Event, context: string, p: Policy,
                          obs: Option<Observer>, now: int)
    : (r: (LState, Report))
    ensures r.1.Total() == rep.Total() + 1
  {
    if ev.id in s.events then (s, rep.(dupe := rep.dupe + 1))
    else
      var (t, refusal) := Apply(env, s, ev, context, p, obs, now);
      (t, if refusal.Some? then rep.(rejected := rep.rejected + 1) else rep.(applied := rep.applied + 1))
  }

  /** Applies the events in turn, each on the state the earlier ones left. */
  ghost function ApplyAll(env: Env, s: LState, es: seq<Event>, context: string, p: Policy, obs: Option<Observer>,
                          now: int)
    : (r: (LState, Report))
    ensures r.1.Total() == |es|
  {
    if es == [] then (s, Report(0, 0, 0))
    else
      var (t, rep) := ApplyAll(env, s, es[..|es| - 1], context, p, obs, now);
      ApplyOne(env, t, rep, es[|es| - 1], context, p, obs, now)
  }
}
