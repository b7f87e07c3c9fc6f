/** Anti-entropy between two ledgers: inventory, plan, transfer, application. */
module Sync {
  import opened Ledger
  import LedgerIndexes
  import opened LedgerModel
  import opened Results
  import opened Sorting
  import opened Strings
  import opened SyncModel

  /** An inventory that lists every stored event and exactly the heads. */
  ghost predicate FullInventory(s: LState, inv: Inventory) {
    Elements(inv.have) == s.events.Keys && Elements(inv.heads) == s.heads
  }

  /** Heads and up to `maxHave` identifiers, whichever the map yields first, both in order. */
  method BuildInventoryMessage(l: Ledger, maxHave: int) returns (inv: Inventory)
    ensures inv.schema == SYNC_SCHEMA_V1 && inv.heads == SortedSet(l.heads, Less)
    ensures Ordered(inv.have, Less) && Distinct(inv.have) && Elements(inv.have) <= l.events.Keys
    ensures var cap := if maxHave < 0 then DEFAULT_CAP else maxHave;
      |inv.have| == (if |l.events.Keys| <= cap then |l.events.Keys| else cap) &&
      (|l.events.Keys| <= cap ==> FullInventory(l.State(), inv))
  {
    hide SortedSet, Sort, WeakOrder;
    var cap := if maxHave < 0 then DEFAULT_CAP else maxHave;
    var listed := Enumerate(l.events.Keys);
    DistinctSize(listed);
    var have := Take(listed, cap);
    assert forall x | x in have :: x in Elements(listed);
    LessIsOrder();
    SortOrdered(have, Less);
    var sorted := Sort(have, Less);
    DistinctPermutation(have, sorted);
    SameElements(have, sorted);
    var heads := Enumerate(l.heads);
    HeadOrder(heads, l.heads);
    inv := Inventory(SYNC_SCHEMA_V1, Sort(heads, Less), sorted);
    assert Elements(inv.heads) == l.heads;
  }

  // ---------------------------------------------------------------- planning

  /** The distinct wanted identifiers of a list, in order. */
  ghost function Keep(ids: seq<string>, ok: set<string>): (r: seq<string>)
    ensures Distinct(r) && Elements(r) == Elements(ids) * ok
  {
    if ids == [] then []
    else
      var init, last := ids[..|ids| - 1], ids[|ids| - 1];
      var r := Keep(init, ok);
      assert Elements(ids) == Elements(init) + {last};
      assert Elements(r + [last]) == Elements(r) + {last};
      assert last in r <==> last in Elements(r);
      if last in ok && last !in r then r + [last] else r
  }

  lemma {:induction false} KeepOrdered(ids: seq<string>, ok: set<string>, less: (string, string) -> bool)
    requires Ordered(ids, less)
    ensures Ordered(Keep(ids, ok), less)
  {
    if ids != [] {
      var k := |ids| - 1;
      var init, last := ids[..k], ids[k];
      KeepOrdered(init, ok, less);
      var r := Keep(init, ok);
      forall i | 0 <= i < |r| ensures !less(last, r[i]) {
        assert r[i] in Elements(r);
        var j :| 0 <= j < k && init[j] == r[i];
        assert ids[j] == r[i];
      }
    }
  }

  lemma {:induction false} KeepPrefix(ids: seq<string>, ok: set<string>, i: nat)
    requires i <= |ids|
    ensures Keep(ids[..i], ok) <= Keep(ids, ok)
  {
    if i < |ids| {
      KeepPrefix(ids[..|ids| - 1], ok, i);
      assert ids[..|ids| - 1][..i] == ids[..i];
    } else {
      assert ids[..i] == ids;
    }
  }

  /** Filtering a sorted list without repetition sorts the wanted set. */
  lemma KeepIsSortedSet(listed: seq<string>, ok: set<string>, wanted: set<string>, less: (string, string) -> bool)
    requires WeakOrder(less) && (forall s: set<string> :: TotalOn(s, less)) && wanted == Elements(listed) * ok
    ensures Keep(Sort(listed, less), ok) == SortedSet(wanted, less)
  {
    hide WeakOrder, TotalOn, SortedSet, Keep, Sort;
    var ids := Sort(listed, less);
    SameElements(listed, ids);
    SortOrdered(listed, less);
    KeepOrdered(ids, ok, less);
    SortedSetOrdered(wanted, less);
    SortedUnique(Keep(ids, ok), SortedSet(wanted, less), less);
  }

  lemma KeepOne(ids: seq<string>, ok: set<string>, i: nat)
    requires i < |ids|
    ensures Keep(ids[..i + 1], ok) ==
      if ids[i] in ok && ids[i] !in Keep(ids[..i], ok) then Keep(ids[..i], ok) + [ids[i]] else Keep(ids[..i], ok)
  {
    assert ids[..i + 1][..i] == ids[..i];
  }

  /** Adds the identifiers of a list that are obtainable and not yet wanted, until the limit is reached. */
  method AddWants(l: Ledger, ids: seq<string>, peerHas: set<string>, cap: nat, want0: seq<string>,
                  ghost full: seq<string>)
      returns (want: seq<string>)
    requires "" !in peerHas && want0 == Take(full, cap)
    ensures want == Take(full + Keep(ids, peerHas - l.events.Keys - Elements(full)), cap)
  {
    hide Keep, Distinct;
    ghost var ok := peerHas - l.events.Keys - Elements(full);
    want := want0;
    KeepNothing(ids, ok);
    assert full + [] == full;
    for i := 0 to |ids|
      invariant want == Take(full + Keep(ids[..i], ok), cap)
    {
      if |want| >= cap {
        KeepPrefix(ids, ok, i);
        return;
      }
      var id := ids[i];
      KeepOne(ids, ok, i);
      assert want == full + Keep(ids[..i], ok);
      if id != "" && id !in l.events && id in peerHas && id !in want {
        want := want + [id];
      }
    }
    assert ids[..|ids|] == ids;
  }

  lemma KeepNothing(ids: seq<string>, ok: set<string>)
    ensures Keep(ids[..0], ok) == []
  {
  }

  method TrimAll(ids: seq<string>) returns (r: seq<string>)
    ensures Elements(r) == Trims(Elements(ids)) && |r| == |ids|
  {
    hide TrimSpace;
    r := [];
    for i := 0 to |ids|
      invariant |r| == i && Elements(r) == Trims(Elements(ids[..i]))
    {
      assert Elements(ids[..i + 1]) == Elements(ids[..i]) + {ids[i]};
      assert Elements(r + [TrimSpace(ids[i])]) == Elements(r) + {TrimSpace(ids[i])};
      r := r + [TrimSpace(ids[i])];
    }
    assert ids[..|ids|] == ids;
  }

  /** Asks for missing references first and for the peer's heads second. */
  method PlanSyncFromPeer(l: Ledger, inv: Inventory, maxWant: int, weight: string -> int) returns (want: seq<string>)
    ensures want == Plan(l.State(), inv, maxWant, weight)
  {
    hide Keep, SortedSet, Sort, Distinct, Elements, MoreUrgent, Trims, Cap, PeerHas, WantedRefs, WantedHeads;
    var cap := Cap(maxWant);
    var have := TrimAll(inv.have);
    var heads := TrimAll(inv.heads);
    var peerHas := (set x | x in have) + (set x | x in heads) - {""};
    var keys := Enumerate(l.missingRefs.Keys);
    var missing := TrimAll(keys);
    var order := MoreUrgent(l.missingRefs, weight);
    var sortedRefs, sortedHeads := Sort(missing, order), Sort(heads, order);
    ghost var refs := PlanParts(l.State(), inv, weight, have, heads, missing, peerHas);
    want := AddWants(l, sortedRefs, peerHas, cap, [], []);
    want := AddWants(l, sortedHeads, peerHas, cap, want, refs);
  }

  /** Both parts of the plan as filters of the sorted lists. */
  lemma PlanParts(s: LState, inv: Inventory, weight: string -> int, have: seq<string>, heads: seq<string>,
                  missing: seq<string>, peerHas: set<string>)
      returns (refs: seq<string>)
    requires Elements(have) == Trims(Elements(inv.have)) && Elements(heads) == Trims(Elements(inv.heads))
    requires Elements(missing) == Trims(s.missing.Keys)
    requires peerHas == (set x | x in have) + (set x | x in heads) - {""}
    ensures var order, ok := MoreUrgent(s.missing, weight), peerHas - s.events.Keys;
      && peerHas == PeerHas(inv) && refs == SortedSet(WantedRefs(s, inv), order)
      && [] + Keep(Sort(missing, order), ok - Elements([])) == refs
      && Keep(Sort(heads, order), ok - Elements(refs)) == SortedSet(WantedHeads(s, inv) - WantedRefs(s, inv), order)
  {
    hide Keep, SortedSet, Sort, MoreUrgent, Trims, Elements, Distinct, PeerHas, WantedRefs, WantedHeads;
    var order := MoreUrgent(s.missing, weight);
    PeerHasIs(inv, have, heads, peerHas);
    refs := SortedSet(WantedRefs(s, inv), order);
    RefsPart(s, inv, weight, missing);
    NoElements(peerHas - s.events.Keys);
    HeadsPart(s, inv, weight, heads);
  }

  lemma PeerHasIs(inv: Inventory, have: seq<string>, heads: seq<string>, peerHas: set<string>)
    requires Elements(have) == Trims(Elements(inv.have)) && Elements(heads) == Trims(Elements(inv.heads))
    requires peerHas == (set x | x in have) + (set x | x in heads) - {""}
    ensures peerHas == PeerHas(inv)
  {
    hide Trims;
  }

  lemma RefsPart(s: LState, inv: Inventory, weight: string -> int, missing: seq<string>)
    requires Elements(missing) == Trims(s.missing.Keys)
    ensures var order := MoreUrgent(s.missing, weight);
      Keep(Sort(missing, order), PeerHas(inv) - s.events.Keys) == SortedSet(WantedRefs(s, inv), order)
  {
    hide Keep, SortedSet, Sort, WeakOrder, TotalOn, MoreUrgent, Trims, PeerHas, Distinct, Elements;
    var order, ok := MoreUrgent(s.missing, weight), PeerHas(inv) - s.events.Keys;
    MoreUrgentIsOrder(s.missing, weight);
    assert WantedRefs(s, inv) == Elements(missing) * ok;
    KeepIsSortedSet(missing, ok, WantedRefs(s, inv), order);
  }

  lemma NoElements(ok: set<string>)
    ensures ok - Elements([]) == ok
  {
  }

  lemma HeadsPart(s: LState, inv: Inventory, weight: string -> int, heads: seq<string>)
    requires Elements(heads) == Trims(Elements(inv.heads))
    ensures var order := MoreUrgent(s.missing, weight);
      Keep(Sort(heads, order), PeerHas(inv) - s.events.Keys - Elements(SortedSet(WantedRefs(s, inv), order)))
        == SortedSet(WantedHeads(s, inv) - WantedRefs(s, inv), order)
  {
    hide Keep, SortedSet, Sort, WeakOrder, TotalOn, MoreUrgent, Trims, PeerHas, Distinct, Elements, WantedRefs;
    var order, ok := MoreUrgent(s.missing, weight), PeerHas(inv) - s.events.Keys - WantedRefs(s, inv);
    MoreUrgentIsOrder(s.missing, weight);
    assert WantedHeads(s, inv) - WantedRefs(s, inv) == Elements(heads) * ok;
    KeepIsSortedSet(heads, ok, WantedHeads(s, inv) - WantedRefs(s, inv), order);
  }

  // ---------------------------------------------------------------- transfer

  lemma {:induction false} LookupPrefix(events: map<string, Event>, want: seq<string>, i: nat)
    requires i <= |want|
    ensures Lookup(events, want[..i]) <= Lookup(events, want)
  {
    if i < |want| {
      LookupPrefix(events, want[..|want| - 1], i);
      assert want[..|want| - 1][..i] == want[..i];
    } else {
      assert want[..i] == want;
    }
  }

  method BuildEventsMessage(l: Ledger, want: seq<string>, maxEvents: int) returns (msg: EventsMessage)
    ensures msg == EventsMessage(SYNC_SCHEMA_V1, Requested(l.events, want, maxEvents))
  {
    hide TrimSpace;
    var cap := Cap(maxEvents);
    var out: seq<Event> := [];
    for i := 0 to |want|
      invariant out == Lookup(l.events, want[..i]) && |out| < cap
    {
      assert want[..i + 1][..i] == want[..i];
      var id := TrimSpace(want[i]);
      if id != "" && id in l.events {
        out := out + [l.events[id]];
        if |out| >= cap {
          LookupPrefix(l.events, want, i + 1);
          return EventsMessage(SYNC_SCHEMA_V1, out);
        }
      }
    }
    assert want[..|want|] == want;
    msg := EventsMessage(SYNC_SCHEMA_V1, out);
  }

  // ---------------------------------------------------------------- application

  method CountMentions(ids: set<string>, ev: Event, before: multiset<string>) returns (r: multiset<string>)
    requires "" !in ids
    ensures r == before + Mentions(ids, ev)
  {
    hide TrimSpace, ParentMentions;
    r := before;
    if TrimSpace(ev.prev) != "" && ev.prev in ids {
      r := r + multiset{ev.prev};
    }
    r := CountParents(ids, ev.parents, r);
  }

  method CountParents(ids: set<string>, parents: seq<string>, before: multiset<string>) returns (r: multiset<string>)
    requires "" !in ids
    ensures r == before + ParentMentions(ids, parents)
  {
    hide TrimSpace, ParentMentions;
    r := before;
    NoParents(ids, parents);
    for i := 0 to |parents|
      invariant r == before + ParentMentions(ids, parents[..i])
    {
      OneParentMore(ids, parents, i);
      var p := TrimSpace(parents[i]);
      if p != "" && p in ids {
        r := r + multiset{p};
      }
    }
  }

  lemma NoParents(ids: set<string>, parents: seq<string>)
    ensures ParentMentions(ids, parents[..0]) == multiset{} && parents[..|parents|] == parents
  {
    hide TrimSpace;
  }

  lemma OneParentMore(ids: set<string>, parents: seq<string>, i: nat)
    requires i < |parents|
    ensures var p := TrimSpace(parents[i]);
      ParentMentions(ids, parents[..i + 1]) ==
        ParentMentions(ids, parents[..i]) + if p in ids then multiset{p} else multiset{}
  {
    hide TrimSpace;
    assert parents[..i + 1][..i] == parents[..i];
  }

  /** Sorts a batch so that urgent kinds, referenced events and old events come first. */
  method OrderEvents(batch: seq<Event>) returns (r: seq<Event>)
    ensures r == OrderedBatch(batch)
  {
    hide TrimSpace, Mentions, GoesFirst;
    if |batch| <= 1 {
      AlreadySorted(batch, GoesFirst(BatchMentions(BatchIds(batch), batch)));
      return batch;
    }
    var ids: set<string> := {};
    for i := 0 to |batch|
      invariant ids == BatchIds(batch[..i])
    {
      var id := TrimSpace(batch[i].id);
      BatchIdsOne(batch, i);
      if id != "" {
        ids := ids + {id};
      }
    }
    assert batch[..|batch|] == batch;
    var mentions: multiset<string> := multiset{};
    for i := 0 to |batch|
      invariant mentions == BatchMentions(ids, batch[..i])
    {
      assert batch[..i + 1][..i] == batch[..i];
      mentions := CountMentions(ids, batch[i], mentions);
    }
    r := Sort(batch, GoesFirst(mentions));
  }

  lemma BatchIdsOne(batch: seq<Event>, i: nat)
    requires i < |batch|
    ensures BatchIds(batch[..i + 1]) == BatchIds(batch[..i]) + ({TrimSpace(batch[i].id)} - {""})
  {
    hide TrimSpace;
    assert forall ev :: ev in batch[..i + 1] <==> ev in batch[..i] || ev == batch[i];
  }

  lemma AlreadySorted(batch: seq<Event>, less: (Event, Event) -> bool)
    requires |batch| <= 1
    ensures Sort(batch, less) == batch
  {
    if |batch| == 1 {
      assert batch[..0] == [];
    }
  }

  datatype SyncError = UnsupportedSchema | MessageTooLarge

  method ApplyNext(l: Ledger, rep0: Report, ev: Event, context: string, p: Policy, obs: Option<Observer>, now: int)
      returns (rep: Report)
    requires l.Valid()
    modifies l
    ensures l.Valid() && (l.State(), rep) == ApplyOne(l.env, old(l.State()), rep0, ev, context, p, obs, now)
  {
    hide Apply, LedgerIndexes.Keyed;
    if ev.id in l.events {
      return rep0.(dupe := rep0.dupe + 1);
    }
    var refusal := l.ApplyWithContext(ev, context, p, obs, now);
    rep := if refusal.Some? then rep0.(rejected := rep0.rejected + 1) else rep0.(applied := rep0.applied + 1);
  }

  lemma ApplyNothing(env: Env, s: LState, es: seq<Event>, context: string, p: Policy, obs: Option<Observer>, now: int)
    ensures ApplyAll(env, s, es[..0], context, p, obs, now) == (s, Report(0, 0, 0))
  {
  }

  lemma ApplyOneMore(env: Env, s: LState, es: seq<Event>, i: nat, context: string, p: Policy, obs: Option<Observer>,
                     now: int)
    requires i < |es|
    ensures var (t, rep) := ApplyAll(env, s, es[..i], context, p, obs, now);
      ApplyAll(env, s, es[..i + 1], context, p, obs, now) == ApplyOne(env, t, rep, es[i], context, p, obs, now)
  {
    hide ApplyOne;
    assert es[..i + 1][..i] == es[..i];
  }

  lemma WholeSlice(es: seq<Event>)
    ensures es[..|es|] == es
  {
  }

  method ApplyInOrder(l: Ledger, events: seq<Event>, context: string, p: Policy, obs: Option<Observer>, now: int)
      returns (rep: Report)
    requires l.Valid()
    modifies l
    ensures l.Valid() && (l.State(), rep) == ApplyAll(l.env, old(l.State()), events, context, p, obs, now)
  {
    hide *;
    ghost var s := l.State();
    rep := Report(0, 0, 0);
    ApplyNothing(l.env, s, events, context, p, obs, now);
    for i := 0 to |events|
      invariant l.Valid()
      invariant l.State() == ApplyAll(l.env, s, events[..i], context, p, obs, now).0
      invariant rep == ApplyAll(l.env, s, events[..i], context, p, obs, now).1
    {
      ApplyOneMore(l.env, s, events, i, context, p, obs, now);
      rep := ApplyNext(l, rep, events[i], context, p, obs, now);
    }
    WholeSlice(events);
  }

  method ApplyEventsMessage(l: Ledger, msg: EventsMessage, context: string, p: Policy, obs: Option<Observer>, now: int)
      returns (r: Result<Report, SyncError>)
    requires l.Valid()
    modifies l
    ensures l.Valid()
    ensures r == if msg.schema != SYNC_SCHEMA_V1 then Err(UnsupportedSchema)
                 else Ok(ApplyAll(l.env, old(l.State()), OrderedBatch(msg.events), context, p, obs, now).1)
    ensures l.State() == if msg.schema != SYNC_SCHEMA_V1 then old(l.State())
                         else ApplyAll(l.env, old(l.State()), OrderedBatch(msg.events), context, p, obs, now).0
  {
    hide ApplyAll, OrderedBatch, LedgerIndexes.Keyed;
    if msg.schema != SYNC_SCHEMA_V1 {
      return Err(UnsupportedSchema);
    }
    var events := OrderEvents(msg.events);
    var rep := ApplyInOrder(l, events, context, p, obs, now);
    return Ok(rep);
  }
}
