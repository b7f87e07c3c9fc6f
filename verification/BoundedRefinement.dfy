/** The bulk form leaves the same ledger and the same report as the plain form. */
module BoundedRefinement {
  import opened BoundedApply
  import opened LedgerModel
  import opened Results
  import opened Sorting
  import opened Strings
  import opened Sync
  import opened SyncModel

  // ---------------------------------------------------------------- what the caller can check

  ghost function TrimmedIds(es: seq<Event>): (r: multiset<string>)
    decreases |es|
  {
    if es == [] then multiset{} else TrimmedIds(es[..|es| - 1]) + multiset{TrimSpace(es[|es| - 1].id)}
  }

  /** No two events of the message share a nonblank identifier. */
  ghost predicate UniqueIds(es: seq<Event>) {
    forall x | x in TrimmedIds(es) && x != "" :: TrimmedIds(es)[x] == 1
  }

  function Size(env: Env, lim: Limits, ev: Event): (r: nat) {
    match Admitted(env, lim, ev)
    case None => 0
    case Some(n) => n
  }

  /** The bytes of the events that fit the limit for one event. */
  ghost function TotalSize(env: Env, lim: Limits, es: seq<Event>): (r: nat)
    decreases |es|
  {
    if es == [] then 0 else TotalSize(env, lim, es[..|es| - 1]) + Size(env, lim, es[|es| - 1])
  }

  ghost predicate NonblankKeys(s: LState) {
    forall id | id in s.events :: TrimSpace(id) != ""
  }

  // ---------------------------------------------------------------- sorting changes neither

  lemma {:induction false} InsertFolds(env: Env, lim: Limits, x: Event, s: seq<Event>, less: (Event, Event) -> bool)
    ensures TrimmedIds(Sorting.Insert(x, s, less)) == TrimmedIds(s) + multiset{TrimSpace(x.id)}
    ensures TotalSize(env, lim, Sorting.Insert(x, s, less)) == TotalSize(env, lim, s) + Size(env, lim, x)
  {
    hide TrimSpace, Size;
    if s != [] && less(x, s[|s| - 1]) {
      var init, last := s[..|s| - 1], s[|s| - 1];
      InsertFolds(env, lim, x, init, less);
      var r := Sorting.Insert(x, init, less);
      assert (r + [last])[..|r|] == r;
    } else {
      assert (s + [x])[..|s|] == s;
      assert s == [] ==> s + [x] == [x];
    }
  }

  lemma {:induction false} SortFolds(env: Env, lim: Limits, s: seq<Event>, less: (Event, Event) -> bool)
    ensures TrimmedIds(Sort(s, less)) == TrimmedIds(s) && TotalSize(env, lim, Sort(s, less)) == TotalSize(env, lim, s)
    decreases |s|
  {
    hide TrimSpace, Size;
    if s != [] {
      SortFolds(env, lim, s[..|s| - 1], less);
      InsertFolds(env, lim, s[|s| - 1], Sort(s[..|s| - 1], less), less);
    }
  }

  // ---------------------------------------------------------------- one event

  /**
   * Without an observer, plain application refuses what screening or the signature refuses, and else does the
   * same insertion.
   */
  lemma ApplyAgrees(env: Env, s: LState, ev: Event, cfg: Setting)
    requires cfg.obs == None
    ensures var plain := Apply(env, s, ev, cfg.context, cfg.p, None, cfg.now);
      if Candidate(env, ev, cfg.p, cfg.now) && env.sigOk(ev.authorKey, ev.id, ev.sig)
      then plain == ApplyVerified(env, s, ev, cfg.context, cfg.p, None, cfg.now)
      else plain.0 == s && plain.1.Some?
  {
    hide LedgerModel.Insert, WellFormed, PolicyVerdict;
  }

  /** Without an observer, at most the event itself is stored, and its identifier is not blank. */
  lemma ApplyKeys(env: Env, s: LState, ev: Event, cfg: Setting)
    requires cfg.obs == None
    ensures var t := Apply(env, s, ev, cfg.context, cfg.p, None, cfg.now).0;
      s.events.Keys <= t.events.Keys <= s.events.Keys + {ev.id}
          && (t.events.Keys != s.events.Keys ==> TrimSpace(ev.id) != "")
  {
    hide Track, Refs, MarkOf, Heads, Conflicts, LinkFault, TrimSpace, PolicyVerdict, Genuine;
  }

  lemma BlankIsNoCandidate(env: Env, ev: Event, p: Policy, now: int)
    requires TrimSpace(ev.id) == ""
    ensures !Candidate(env, ev, p, now)
  {
    hide TrimSpace, PolicyVerdict;
  }

  /** What the plain run has stored beyond the start comes from identifiers that screening has met. */
  ghost predicate GrownBy(s: LState, t: LState, seen: set<string>) {
    && s.events.Keys <= t.events.Keys
    && forall id | id in t.events && id !in s.events :: TrimSpace(id) in seen
  }

  /** Both forms have met the same bytes and identifiers; this holds whether or not they agree. */
  ghost predicate Even(s: LState, g: Progress, c: Screening) {
    !g.tooLarge && !c.tooLarge && g.used == c.used && "" !in c.seen && GrownBy(s, g.s, c.seen)
  }

  /** The event repeats an identifier that screening has met, but the plain run does not hold it. */
  ghost predicate Masks(env: Env, g: Progress, c: Screening, ev: Event, cfg: Setting) {
    Admitted(env, cfg.lim, ev).Some? && TrimSpace(ev.id) in c.seen && ev.id !in g.s.events
  }

  /** What the plain form does with an admitted event. */
  lemma PlainOutcome(env: Env, s: LState, t: LState, seen: set<string>, rep: Report, ev: Event, cfg: Setting)
    requires cfg.obs == None && NonblankKeys(s) && GrownBy(s, t, seen) && "" !in seen
    ensures var r := ApplyOne(env, t, rep, ev, cfg.context, cfg.p, None, cfg.now);
      && (ev.id in t.events ==> r == (t, OneDupe(rep)))
      && (ev.id !in t.events && !Candidate(env, ev, cfg.p, cfg.now) ==> r == (t, OneRejected(rep)))
      && (ev.id !in t.events && Candidate(env, ev, cfg.p, cfg.now) ==> r == CommitStep(env, t, rep, ev, true, cfg))
      && GrownBy(s, r.0, if TrimSpace(ev.id) == "" then seen else seen + {TrimSpace(ev.id)})
    ensures TrimSpace(ev.id) !in seen ==> (ev.id in t.events <==> ev.id in s.events)
    ensures TrimSpace(ev.id) == "" ==> ev.id !in t.events && !Candidate(env, ev, cfg.p, cfg.now)
  {
    hide TrimSpace, Apply, ApplyVerified, Candidate;
    ApplyAgrees(env, t, ev, cfg);
    ApplyKeys(env, t, ev, cfg);
    if TrimSpace(ev.id) == "" {
      BlankIsNoCandidate(env, ev, cfg.p, cfg.now);
    }
  }

  lemma CommitKeepsDupes(env: Env, s: LState, rep: Report, ev: Event, marked: bool, cfg: Setting)
    ensures CommitStep(env, s, rep, ev, marked, cfg).1.dupe == rep.dupe
  {
    hide ApplyVerified;
  }

  /**
   * One event: bytes and identifiers stay even, and the bulk form counts one duplicate more exactly for a
   * masked event.
   */
  lemma EvenStep(env: Env, s: LState, g: Progress, c: Screening, ev: Event, cfg: Setting)
    requires cfg.obs == None && NonblankKeys(s) && Even(s, g, c)
    requires g.used + Size(env, cfg.lim, ev) <= cfg.lim.MessageBytes()
    ensures var g', c' := PlainStep(env, g, ev, cfg), ScreenStep(env, s, c, ev, cfg);
      && Even(s, g', c') && g'.used == g.used + Size(env, cfg.lim, ev)
      && |c'.marked| == |c.marked| + 1 && c'.marked[..|c.marked|] == c.marked
      && c'.rep.dupe - c.rep.dupe == g'.rep.dupe - g.rep.dupe + (if Masks(env, g, c, ev, cfg) then 1 else 0)
  {
    hide TrimSpace, ApplyOne, ApplyVerified, Candidate, NonblankKeys, GrownBy, CommitStep;
    PlainOutcome(env, s, g.s, c.seen, g.rep, ev, cfg);
    CommitKeepsDupes(env, g.s, g.rep, ev, true, cfg);
    assert TrimSpace(ev.id) in c.seen ==> c.seen + {TrimSpace(ev.id)} == c.seen;
    if ev.id in s.events {
      HeldStays(s, g.s, c.seen, ev.id);
    }
  }

  lemma HeldStays(s: LState, t: LState, seen: set<string>, id: string)
    requires GrownBy(s, t, seen) && id in s.events
    ensures id in t.events
  {
    hide TrimSpace;
  }

  /** One event that is not masked: the forms stay in agreement. */
  lemma AgreeStep(env: Env, s: LState, g: Progress, c: Screening, rep: Report, ev: Event, cfg: Setting)
    requires cfg.obs == None && NonblankKeys(s) && Even(s, g, c) && g.rep == Plus(c.rep, rep)
    requires g.used + Size(env, cfg.lim, ev) <= cfg.lim.MessageBytes() && !Masks(env, g, c, ev, cfg)
    ensures var g', c' := PlainStep(env, g, ev, cfg), ScreenStep(env, s, c, ev, cfg);
      && |c'.marked| == |c.marked| + 1
      && var (t', rep') := CommitStep(env, g.s, rep, ev, c'.marked[|c.marked|], cfg);
         g'.s == t' && g'.rep == Plus(c'.rep, rep')
  {
    hide TrimSpace, ApplyOne, ApplyVerified, Candidate, NonblankKeys, GrownBy;
    PlainOutcome(env, s, g.s, c.seen, g.rep, ev, cfg);
  }

  // ---------------------------------------------------------------- all events

  /** How many events of the batch are masked. */
  ghost function MaskCount(env: Env, s: LState, es: seq<Event>, cfg: Setting): (r: nat)
    decreases |es|
  {
    if es == [] then 0
    else
      var init, ev := es[..|es| - 1], es[|es| - 1];
      MaskCount(env, s, init, cfg) +
      if Masks(env, PlainRun(env, s, init, cfg), Screen(env, s, init, cfg), ev, cfg) then 1 else 0
  }

  /** The event at position `j` is masked. */
  ghost predicate MaskedAt(env: Env, s: LState, es: seq<Event>, cfg: Setting, j: int) {
    0 <= j < |es| && Masks(env, PlainRun(env, s, es[..j], cfg), Screen(env, s, es[..j], cfg), es[j], cfg)
  }

  lemma {:induction false} NoneMasked(env: Env, s: LState, es: seq<Event>, cfg: Setting)
    ensures MaskCount(env, s, es, cfg) == 0 <==> forall j | 0 <= j < |es| :: !MaskedAt(env, s, es, cfg, j)
    decreases |es|
  {
    hide Masks, PlainRun, Screen;
    if es != [] {
      var k := |es| - 1;
      var init := es[..k];
      NoneMasked(env, s, init, cfg);
      forall j | 0 <= j < k ensures MaskedAt(env, s, es, cfg, j) == MaskedAt(env, s, init, cfg, j) {
        assert init[..j] == es[..j];
      }
      assert (forall j | 0 <= j < k :: !MaskedAt(env, s, init, cfg, j)) <==>
          (forall j | 0 <= j < k :: !MaskedAt(env, s, es, cfg, j));
      assert MaskedAt(env, s, es, cfg, k) ==
        Masks(env, PlainRun(env, s, init, cfg), Screen(env, s, init, cfg), es[k], cfg);
    }
  }

  lemma OneMore(env: Env, s: LState, es: seq<Event>, cfg: Setting)
    requires es != []
    ensures var init, ev := es[..|es| - 1], es[|es| - 1];
      && PlainRun(env, s, es, cfg) == PlainStep(env, PlainRun(env, s, init, cfg), ev, cfg)
      && Screen(env, s, es, cfg) == ScreenStep(env, s, Screen(env, s, init, cfg), ev, cfg)
      && TotalSize(env, cfg.lim, es) == TotalSize(env, cfg.lim, init) + Size(env, cfg.lim, ev)
      && MaskCount(env, s, es, cfg) == MaskCount(env, s, init, cfg)
           + if Masks(env, PlainRun(env, s, init, cfg), Screen(env, s, init, cfg), ev, cfg) then 1 else 0
  {
    hide PlainStep, ScreenStep, Size, Masks, PlainRun, Screen, TrimSpace;
    PlainLast(env, s, es, cfg);
    ScreenLast(env, s, es, cfg);
    SizeLast(env, cfg.lim, es);
    MaskLast(env, s, es, cfg);
  }

  lemma SizeLast(env: Env, lim: Limits, es: seq<Event>)
    requires es != []
    ensures TotalSize(env, lim, es) == TotalSize(env, lim, es[..|es| - 1]) + Size(env, lim, es[|es| - 1])
  {
    hide Size;
  }

  lemma MaskLast(env: Env, s: LState, es: seq<Event>, cfg: Setting)
    requires es != []
    ensures var init, ev := es[..|es| - 1], es[|es| - 1];
      MaskCount(env, s, es, cfg) == MaskCount(env, s, init, cfg)
        + if Masks(env, PlainRun(env, s, init, cfg), Screen(env, s, init, cfg), ev, cfg) then 1 else 0
  {
    hide Masks, PlainRun, Screen;
  }

  lemma NoBytes(env: Env, s: LState, cfg: Setting)
    ensures TotalSize(env, cfg.lim, []) == 0 && MaskCount(env, s, [], cfg) == 0
  {
    hide Size, Masks, PlainRun, Screen;
  }

  lemma Start(env: Env, s: LState, cfg: Setting)
    ensures PlainRun(env, s, [], cfg) == Progress(s, Report(0, 0, 0), 0, false)
    ensures Screen(env, s, [], cfg) == Screening(Report(0, 0, 0), 0, {}, [], false)
    ensures Commit(env, s, [], [], cfg) == (s, Report(0, 0, 0))
    ensures TotalSize(env, cfg.lim, []) == 0 && MaskCount(env, s, [], cfg) == 0
  {
    hide *;
    PlainStart(env, s, cfg);
    ScreenStart(env, s, cfg);
    CommitStart(env, s, cfg);
    NoBytes(env, s, cfg);
  }

  lemma StartsEven(s: LState, g: Progress, c: Screening)
    requires g.s == s && g.used == c.used && !g.tooLarge && !c.tooLarge && c.seen == {}
    ensures Even(s, g, c)
  {
    hide TrimSpace;
  }

  /** Within the size limit both forms meet every event, and their duplicate counts differ by the masked events. */
  lemma {:induction false} RunsEven(env: Env, s: LState, es: seq<Event>, cfg: Setting)
    requires cfg.obs == None && NonblankKeys(s) && TotalSize(env, cfg.lim, es) <= cfg.lim.MessageBytes()
    ensures var g, c := PlainRun(env, s, es, cfg), Screen(env, s, es, cfg);
      && Even(s, g, c) && g.used == TotalSize(env, cfg.lim, es) && |c.marked| == |es|
      && c.rep.dupe == g.rep.dupe + MaskCount(env, s, es, cfg)
    decreases |es|
  {
    hide PlainRun, Screen, PlainStep, ScreenStep, Even, NonblankKeys, MaskCount, Masks, TotalSize, Size;
    if es == [] {
      Start(env, s, cfg);
      StartsEven(s, PlainRun(env, s, [], cfg), Screen(env, s, [], cfg));
    } else {
      var init := es[..|es| - 1];
      OneMore(env, s, es, cfg);
      RunsEven(env, s, init, cfg);
      EvenStep(env, s, PlainRun(env, s, init, cfg), Screen(env, s, init, cfg), es[|es| - 1], cfg);
    }
  }

  /** Without masked events both forms agree over the whole batch. */
  lemma {:induction false} RunsAgree(env: Env, s: LState, es: seq<Event>, cfg: Setting)
    requires cfg.obs == None && NonblankKeys(s) && TotalSize(env, cfg.lim, es) <= cfg.lim.MessageBytes()
    requires MaskCount(env, s, es, cfg) == 0
    ensures var g, c := PlainRun(env, s, es, cfg), Screen(env, s, es, cfg);
      && |c.marked| == |es|
      && var (t, rep) := Commit(env, s, es, c.marked, cfg);
         g.s == t && g.rep == Plus(c.rep, rep)
    decreases |es|
  {
    hide *;
    RunsEven(env, s, es, cfg);
    if es == [] {
      Start(env, s, cfg);
      PlusNothing(Report(0, 0, 0), Report(0, 0, 0));
    } else {
      var init, ev := es[..|es| - 1], es[|es| - 1];
      OneMore(env, s, es, cfg);
      RunsAgree(env, s, init, cfg);
      RunsEven(env, s, init, cfg);
      var g, c := PlainRun(env, s, init, cfg), Screen(env, s, init, cfg);
      var (t, rep) := Commit(env, s, init, c.marked, cfg);
      AgreeStep(env, s, g, c, rep, ev, cfg);
      EvenStep(env, s, g, c, ev, cfg);
      CommitLast(env, s, es, Screen(env, s, es, cfg).marked, cfg);
    }
  }

  lemma PlusNothing(rep: Report, zero: Report)
    requires zero.applied == zero.dupe == zero.rejected == 0
    ensures Plus(rep, zero) == rep
  {
  }

  lemma {:induction false} CommitCountsNoDupes(env: Env, s: LState, es: seq<Event>, marked: seq<bool>, cfg: Setting)
    requires |marked| == |es|
    ensures Commit(env, s, es, marked, cfg).1.dupe == 0
    decreases |es|
  {
    hide CommitStep;
    if es != [] {
      var k := |es| - 1;
      CommitCountsNoDupes(env, s, es[..k], marked[..k], cfg);
      var (t, rep) := Commit(env, s, es[..k], marked[..k], cfg);
      CommitKeepsDupes(env, t, rep, es[k], marked[k], cfg);
    }
  }

  // ---------------------------------------------------------------- the whole operation

  /**
   * Without an observer and within the size limits, the bulk form and the plain form leave the same ledger
   * and return the same outcome if and only if no event repeats a screened identifier that the plain form
   * does not hold when the event's turn comes.
   */
  lemma BulkIsPlainExactly(env: Env, s: LState, msg: EventsMessage, cfg: Setting)
    requires cfg.obs == None && NonblankKeys(s) && Refused(msg, cfg.lim) == None
    requires TotalSize(env, cfg.lim, msg.events) <= cfg.lim.MessageBytes()
    ensures Bulk(env, s, msg, cfg) == Bounded(env, s, msg, cfg)
            <==> forall j | 0 <= j < |msg.events| :: !MaskedAt(env, s, OrderedBatch(msg.events), cfg, j)
    ensures Bounded(env, s, msg, cfg).1.error == None && Bounded(env, s, msg, cfg).1.rep.Total() == |msg.events|
  {
    hide NonblankKeys, PlainRun, Screen, Commit, TrimmedIds, GoesFirst, Sort, MaskCount, MaskedAt, GrownBy;
    var es := OrderedBatch(msg.events);
    SortFolds(env, cfg.lim, msg.events, GoesFirst(BatchMentions(BatchIds(msg.events), msg.events)));
    RunsEven(env, s, es, cfg);
    NoneMasked(env, s, es, cfg);
    var c := Screen(env, s, es, cfg);
    CommitCountsNoDupes(env, s, es, c.marked, cfg);
    if MaskCount(env, s, es, cfg) == 0 {
      RunsAgree(env, s, es, cfg);
    }
  }

  lemma UniqueDepends(es: seq<Event>, fs: seq<Event>)
    requires TrimmedIds(es) == TrimmedIds(fs) && UniqueIds(es)
    ensures UniqueIds(fs)
  {
  }

  lemma UniquePrefix(es: seq<Event>)
    requires UniqueIds(es) && es != []
    ensures var init, id := es[..|es| - 1], TrimSpace(es[|es| - 1].id);
      UniqueIds(init) && (id == "" || id !in TrimmedIds(init)) && TrimmedIds(init) <= TrimmedIds(es)
          && id in TrimmedIds(es)
  {
    hide TrimSpace;
    var init := es[..|es| - 1];
    forall x | x in TrimmedIds(init) && x != "" ensures TrimmedIds(init)[x] == 1 {
      assert TrimmedIds(es)[x] >= TrimmedIds(init)[x];
      assert x in TrimmedIds(es);
    }
    var id := TrimSpace(es[|es| - 1].id);
    assert id in TrimmedIds(es) && TrimmedIds(es)[id] == TrimmedIds(init)[id] + 1;
  }

  lemma SeenStep(env: Env, s: LState, c: Screening, ev: Event, cfg: Setting)
    ensures ScreenStep(env, s, c, ev, cfg).seen <= c.seen + ({TrimSpace(ev.id)} - {""})
  {
    hide TrimSpace, Candidate;
  }

  /** Unique identifiers leave nothing to mask. */
  lemma {:induction false} UniqueMasksNothing(env: Env, s: LState, es: seq<Event>, cfg: Setting)
    requires UniqueIds(es)
    ensures MaskCount(env, s, es, cfg) == 0
    ensures forall x | x in Screen(env, s, es, cfg).seen :: x in TrimmedIds(es) && x != ""
    decreases |es|
  {
    hide PlainRun, Screen, PlainStep, ScreenStep, UniqueIds, TrimmedIds, MaskCount, TotalSize, Size, TrimSpace,
        Admitted;
    if es == [] {
      Start(env, s, cfg);
    } else {
      var init, ev := es[..|es| - 1], es[|es| - 1];
      OneMore(env, s, es, cfg);
      UniquePrefix(es);
      UniqueMasksNothing(env, s, init, cfg);
      SeenStep(env, s, Screen(env, s, init, cfg), ev, cfg);
    }
  }

  /**
   * In particular, with unique identifiers ledger and outcome are the same, and the counts add up to the
   * events sent.
   */
  lemma BulkRefinesPlain(env: Env, s: LState, msg: EventsMessage, cfg: Setting)
    requires cfg.obs == None && NonblankKeys(s)
    requires UniqueIds(msg.events) && TotalSize(env, cfg.lim, msg.events) <= cfg.lim.MessageBytes()
    ensures Bulk(env, s, msg, cfg) == Bounded(env, s, msg, cfg)
    ensures Refused(msg, cfg.lim) == None ==>
      Bulk(env, s, msg, cfg).1.error == None && Bulk(env, s, msg, cfg).1.rep.Total() == |msg.events|
  {
    hide UniqueIds, NonblankKeys, PlainRun, Screen, Commit, TrimmedIds, GoesFirst, Sort, MaskCount, MaskedAt;
    if Refused(msg, cfg.lim) == None {
      var es := OrderedBatch(msg.events);
      SortFolds(env, cfg.lim, msg.events, GoesFirst(BatchMentions(BatchIds(msg.events), msg.events)));
      UniqueDepends(msg.events, es);
      UniqueMasksNothing(env, s, es, cfg);
      NoneMasked(env, s, es, cfg);
      BulkIsPlainExactly(env, s, msg, cfg);
    }
  }

  // ---------------------------------------------------------------- over the limit

  lemma {:induction false} ScreenLimit(env: Env, s: LState, es: seq<Event>, cfg: Setting)
    ensures var c := Screen(env, s, es, cfg);
      && (c.tooLarge <==> TotalSize(env, cfg.lim, es) > cfg.lim.MessageBytes())
      && (!c.tooLarge ==> c.used == TotalSize(env, cfg.lim, es))
    decreases |es|
  {
    hide TrimSpace, Candidate;
    if es != [] {
      ScreenLimit(env, s, es[..|es| - 1], cfg);
    }
  }

  lemma {:induction false} PlainLimit(env: Env, s: LState, es: seq<Event>, cfg: Setting)
    ensures var g := PlainRun(env, s, es, cfg);
      && (g.tooLarge <==> TotalSize(env, cfg.lim, es) > cfg.lim.MessageBytes())
      && (!g.tooLarge ==> g.used == TotalSize(env, cfg.lim, es))
    decreases |es|
  {
    hide *;
    if es == [] {
      Start(env, s, cfg);
    } else {
      var init := es[..|es| - 1];
      PlainLimit(env, s, init, cfg);
      OneMore(env, s, es, cfg);
      PlainStepLimit(env, PlainRun(env, s, init, cfg), es[|es| - 1], cfg);
    }
  }

  lemma PlainStepLimit(env: Env, g: Progress, ev: Event, cfg: Setting)
    requires g.tooLarge || g.used <= cfg.lim.MessageBytes()
    ensures var g' := PlainStep(env, g, ev, cfg);
      && (g'.tooLarge <==> g.tooLarge || g.used + Size(env, cfg.lim, ev) > cfg.lim.MessageBytes())
      && (!g'.tooLarge ==> g'.used == g.used + Size(env, cfg.lim, ev))
  {
    hide ApplyOne;
  }

  /** For every message both forms return the same error; on any error the bulk form has not touched the ledger. */
  lemma SameError(env: Env, s: LState, msg: EventsMessage, cfg: Setting)
    ensures Bulk(env, s, msg, cfg).1.error == Bounded(env, s, msg, cfg).1.error
    ensures Bulk(env, s, msg, cfg).1.error.Some? ==> Bulk(env, s, msg, cfg).0 == s
    ensures Refused(msg, cfg.lim) == None ==>
      (Bulk(env, s, msg, cfg).1.error == Some(MessageTooLarge) <==>
           TotalSize(env, cfg.lim, msg.events) > cfg.lim.MessageBytes())
  {
    hide PlainRun, Screen, Commit, TrimmedIds, GoesFirst, Sort, TotalSize;
    var es := OrderedBatch(msg.events);
    SortFolds(env, cfg.lim, msg.events, GoesFirst(BatchMentions(BatchIds(msg.events), msg.events)));
    ScreenLimit(env, s, es, cfg);
    PlainLimit(env, s, es, cfg);
  }

  // ---------------------------------------------------------------- why identifiers must be unique

  /**
   * A copy with a forged signature in front of a genuine event: the plain form rejects the copy and stores
   * the event, the bulk form counts the event as a duplicate of the copy and stores nothing.
   */
  lemma ForgedCopyMasks(env: Env, s: LState, good: Event, forged: string, cfg: Setting)
    requires cfg.obs == None && good.id !in s.events && cfg.lim.Events() >= 2
    requires Candidate(env, good, cfg.p, cfg.now) && env.sigOk(good.authorKey, good.id, good.sig)
    requires Candidate(env, good.(sig := forged), cfg.p, cfg.now) && !env.sigOk(good.authorKey, good.id, forged)
    requires Admitted(env, cfg.lim, good).Some? && Admitted(env, cfg.lim, good.(sig := forged)).Some?
    requires Size(env, cfg.lim, good.(sig := forged)) + Size(env, cfg.lim, good) <= cfg.lim.MessageBytes()
    requires Apply(env, s, good, cfg.context, cfg.p, None, cfg.now).1 == None
    ensures var msg := EventsMessage(SYNC_SCHEMA_V1, [good.(sig := forged), good]);
      && Bulk(env, s, msg, cfg) == (s, Outcome(Report(0, 1, 1), None))
      && Bounded(env, s, msg, cfg)
           == (Apply(env, s, good, cfg.context, cfg.p, None, cfg.now).0, Outcome(Report(1, 0, 1), None))
  {
    hide PlainRun, Screen, Commit, OrderedBatch, Candidate, Apply, Plus;
    var bad := good.(sig := forged);
    var batch := [bad, good];
    CopyStaysFirst(good, forged);
    MaskedPlain(env, s, bad, good, cfg);
    MaskedScreen(env, s, bad, good, cfg);
    MaskedCommit(env, s, bad, good, cfg);
    MaskedCounts();
  }

  lemma MaskedCounts()
    ensures Plus(Report(0, 1, 0), Report(0, 0, 1)) == Report(0, 1, 1)
  {
  }

  lemma CopyStaysFirst(good: Event, forged: string)
    ensures OrderedBatch([good.(sig := forged), good]) == [good.(sig := forged), good]
  {
    hide KindPriority, BatchMentions, BatchIds, Less;
    var bad := good.(sig := forged);
    var batch := [bad, good];
    var less := GoesFirst(BatchMentions(BatchIds(batch), batch));
    LessLaws(good.id, good.id, good.id);
    assert !less(good, bad);
    assert batch[..1] == [bad] && [bad][..0] == [];
    assert Sort([bad], less) == [bad];
  }

  lemma MaskedPlain(env: Env, s: LState, bad: Event, good: Event, cfg: Setting)
    requires cfg.obs == None && good.id == bad.id && good.id !in s.events
    requires Candidate(env, good, cfg.p, cfg.now) && env.sigOk(good.authorKey, good.id, good.sig)
    requires !env.sigOk(bad.authorKey, bad.id, bad.sig)
    requires Admitted(env, cfg.lim, good).Some? && Admitted(env, cfg.lim, bad).Some?
    requires Size(env, cfg.lim, bad) + Size(env, cfg.lim, good) <= cfg.lim.MessageBytes()
    requires Apply(env, s, good, cfg.context, cfg.p, None, cfg.now).1 == None
    ensures var g := PlainRun(env, s, [bad, good], cfg);
      g.s == Apply(env, s, good, cfg.context, cfg.p, None, cfg.now).0 && g.rep == Report(1, 0, 1) && !g.tooLarge
  {
    hide PlainRun, PlainStep, Apply, Candidate, Size, Admitted;
    var batch := [bad, good];
    assert batch[..1] == [bad] && [bad][..0] == [];
    Start(env, s, cfg);
    OneMore(env, s, [bad], cfg);
    OneMore(env, s, batch, cfg);
    ApplyAgrees(env, s, bad, cfg);
    RefusedStep(env, PlainRun(env, s, [], cfg), bad, cfg);
    AcceptedStep(env, PlainRun(env, s, [bad], cfg), good, cfg);
  }

  lemma RefusedStep(env: Env, g: Progress, ev: Event, cfg: Setting)
    requires cfg.obs == None && !g.tooLarge && ev.id !in g.s.events && Admitted(env, cfg.lim, ev).Some?
    requires g.used + Size(env, cfg.lim, ev) <= cfg.lim.MessageBytes()
    requires var r := Apply(env, g.s, ev, cfg.context, cfg.p, None, cfg.now); r.0 == g.s && r.1.Some?
    ensures PlainStep(env, g, ev, cfg) == Progress(g.s, OneRejected(g.rep), g.used + Size(env, cfg.lim, ev), false)
  {
    hide Apply;
  }

  lemma AcceptedStep(env: Env, g: Progress, ev: Event, cfg: Setting)
    requires cfg.obs == None && !g.tooLarge && ev.id !in g.s.events && Admitted(env, cfg.lim, ev).Some?
    requires g.used + Size(env, cfg.lim, ev) <= cfg.lim.MessageBytes()
    requires Apply(env, g.s, ev, cfg.context, cfg.p, None, cfg.now).1 == None
    ensures PlainStep(env, g, ev, cfg) ==
      Progress(Apply(env, g.s, ev, cfg.context, cfg.p, None, cfg.now).0, OneApplied(g.rep),
               g.used + Size(env, cfg.lim, ev), false)
  {
    hide Apply;
  }

  lemma MaskedScreen(env: Env, s: LState, bad: Event, good: Event, cfg: Setting)
    requires good.id == bad.id && good.id !in s.events && Candidate(env, bad, cfg.p, cfg.now)
    requires Admitted(env, cfg.lim, good).Some? && Admitted(env, cfg.lim, bad).Some?
    requires Size(env, cfg.lim, bad) + Size(env, cfg.lim, good) <= cfg.lim.MessageBytes()
    ensures var c := Screen(env, s, [bad, good], cfg);
      c.rep == Report(0, 1, 0) && c.marked == [true, false] && !c.tooLarge
  {
    hide Candidate, TrimSpace;
    if TrimSpace(bad.id) == "" {
      BlankIsNoCandidate(env, bad, cfg.p, cfg.now);
    }
    var batch := [bad, good];
    assert batch[..1] == [bad] && [bad][..0] == [];
    assert Screen(env, s, [bad], cfg) == ScreenStep(env, s, Screen(env, s, [], cfg), bad, cfg);
    assert Screen(env, s, batch, cfg) == ScreenStep(env, s, Screen(env, s, [bad], cfg), good, cfg);
  }

  lemma MaskedCommit(env: Env, s: LState, bad: Event, good: Event, cfg: Setting)
    requires !env.sigOk(bad.authorKey, bad.id, bad.sig)
    ensures Commit(env, s, [bad, good], [true, false], cfg) == (s, Report(0, 0, 1))
  {
    hide ApplyVerified;
    var batch, marked := [bad, good], [true, false];
    assert batch[..1] == [bad] && marked[..1] == [true] && [bad][..0] == [] && [true][..0] == [];
    assert Commit(env, s, [bad], [true], cfg) == CommitStep(env, s, Report(0, 0, 0), bad, true, cfg);
  }
}
