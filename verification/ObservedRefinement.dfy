/** The bulk form against the plain form when the node observes, as the sync service runs it. */
module ObservedRefinement {
  import opened BoundedApply
  import opened BoundedRefinement
  import opened LedgerInvariants
  import opened LedgerModel
  import opened LedgerRuns
  import MessageRuns
  import opened Results
  import Sorting
  import opened Strings
  import opened Sync
  import opened SyncModel

  // ---------------------------------------------------------------- where the forms can differ

  /** Screening counts the event as a duplicate. */
  ghost predicate BulkDupe(s: LState, c: Screening, ev: Event) {
    TrimSpace(ev.id) != "" && (TrimSpace(ev.id) in c.seen || ev.id in s.events)
  }

  /** The plain run holds the event by now, although screening did not: the node itself has signed it meanwhile. */
  ghost predicate Preempts(env: Env, s: LState, g: Progress, c: Screening, ev: Event, cfg: Setting) {
    Admitted(env, cfg.lim, ev).Some? && ev.id in g.s.events && !BulkDupe(s, c, ev)
  }

  /** The event is outdated in a context that has an observer. */
  ghost predicate Outdated(env: Env, ev: Event, cfg: Setting) {
    cfg.obs.Some? && TrimSpace(cfg.context) != "" && VerdictOf(env, cfg.p, cfg.now, ev) == TooOld
  }

  /** The plain form answers the event with a replay report, provided that the observer's keys are usable. */
  ghost predicate Reports(env: Env, ev: Event, cfg: Setting) {
    Outdated(env, ev, cfg) && cfg.obs.value.valid
  }

  ghost function PreemptCount(env: Env, s: LState, es: seq<Event>, cfg: Setting): (r: nat)
    decreases |es|
  {
    if es == [] then 0
    else
      var init, ev := es[..|es| - 1], es[|es| - 1];
      PreemptCount(env, s, init, cfg) +
      if Preempts(env, s, PlainRun(env, s, init, cfg), Screen(env, s, init, cfg), ev, cfg) then 1 else 0
  }

  // ---------------------------------------------------------------- one event

  /** With any observer, both applications insert alike, and refuse alike unless the plain one reports a replay. */
  lemma ApplyAgreesObserved(env: Env, s: LState, ev: Event, cfg: Setting)
    ensures var plain := Apply(env, s, ev, cfg.context, cfg.p, cfg.obs, cfg.now);
      if Candidate(env, ev, cfg.p, cfg.now) && env.sigOk(ev.authorKey, ev.id, ev.sig)
      then plain == ApplyVerified(env, s, ev, cfg.context, cfg.p, cfg.obs, cfg.now)
      else !Reports(env, ev, cfg) ==> plain.0 == s && plain.1.Some?
  {
    hide LedgerModel.Insert, WellFormed, PolicyVerdict, TrimSpace, Emit;
    if cfg.obs.Some? && !cfg.obs.value.valid {
      UnusableEmitsNothing(env, s, cfg.p, cfg.obs.value, KIND_MISBEHAVIOR_REPLAY, Other, cfg.now);
    }
  }

  lemma UnusableEmitsNothing(env: Env, s: LState, p: Policy, obs: Observer, kind: string, payload: Payload, now: int)
    requires !obs.valid
    ensures Emit(env, s, p, obs, kind, payload, now) == s
  {
    hide NextDraft, Acceptable, AddLocked;
  }

  /** Emitting changes the ledger exactly if the drafted event is acceptable, new and free of conflicts. */
  lemma EmitsExactly(env: Env, s: LState, p: Policy, obs: Observer, kind: string, payload: Payload, now: int)
    ensures var d := NextDraft(env, s, obs, kind, payload, now);
      Emit(env, s, p, obs, kind, payload, now) != s <==>
        obs.valid && Acceptable(env, p, now, d) && d.id !in s.events && !Conflicts(s, d)
  {
    hide NextDraft, Acceptable, Track, Refs, MarkOf, Heads;
    var d := NextDraft(env, s, obs, kind, payload, now);
    assert d.id in Stored(env, s, d).events;
  }

  /** A verified event that is already held changes nothing. */
  lemma HeldIsKept(env: Env, t: LState, rep: Report, ev: Event, marked: bool, cfg: Setting)
    requires ev.id in t.events && (marked ==> Candidate(env, ev, cfg.p, cfg.now))
    ensures CommitStep(env, t, rep, ev, marked, cfg).0 == t
  {
    hide WellFormed, PolicyVerdict, TrimSpace, Emit;
  }

  lemma PlainGrows(env: Env, t: LState, ev: Event, cfg: Setting)
    ensures t.events.Keys <= Apply(env, t, ev, cfg.context, cfg.p, cfg.obs, cfg.now).0.events.Keys
  {
    hide Apply;
    StepGrows(env, t, Receive(ev, cfg.context, cfg.p, cfg.obs, cfg.now));
  }

  /** What the plain form does with an admitted event it does not report. */
  lemma ObservedOutcome(env: Env, t: LState, rep: Report, ev: Event, cfg: Setting)
    requires !Reports(env, ev, cfg)
    ensures var r := ApplyOne(env, t, rep, ev, cfg.context, cfg.p, cfg.obs, cfg.now);
      && (ev.id in t.events ==> r == (t, OneDupe(rep)))
      && (ev.id !in t.events && !Candidate(env, ev, cfg.p, cfg.now) ==> r == (t, OneRejected(rep)))
      && (ev.id !in t.events && Candidate(env, ev, cfg.p, cfg.now) ==> r == CommitStep(env, t, rep, ev, true, cfg))
      && t.events.Keys <= r.0.events.Keys
  {
    hide Apply, ApplyVerified, Candidate, Reports;
    ApplyAgreesObserved(env, t, ev, cfg);
    PlainGrows(env, t, ev, cfg);
  }

  /** Both forms have met the same bytes; the plain one has lost nothing. */
  ghost predicate Level(s: LState, g: Progress, c: Screening) {
    !g.tooLarge && !c.tooLarge && g.used == c.used && "" !in c.seen && s.events.Keys <= g.s.events.Keys
  }

  /**
   * One event that is neither masked nor reported: the ledgers stay equal, and so do the counts unless it is
   * preempted.
   */
  lemma ObservedStep(env: Env, s: LState, g: Progress, c: Screening, rep: Report, ev: Event, cfg: Setting)
    requires Level(s, g, c) && g.used + Size(env, cfg.lim, ev) <= cfg.lim.MessageBytes()
    requires !Masks(env, g, c, ev, cfg) && !Reports(env, ev, cfg)
    ensures var g', c' := PlainStep(env, g, ev, cfg), ScreenStep(env, s, c, ev, cfg);
      && Level(s, g', c') && g'.used == g.used + Size(env, cfg.lim, ev)
      && |c'.marked| == |c.marked| + 1 && c'.marked[..|c.marked|] == c.marked
      && var (t', rep') := CommitStep(env, g.s, rep, ev, c'.marked[|c.marked|], cfg);
         && g'.s == t'
         && (g.rep == Plus(c.rep, rep) && !Preempts(env, s, g, c, ev, cfg) ==> g'.rep == Plus(c'.rep, rep'))
         && g'.rep.dupe - g.rep.dupe
              == c'.rep.dupe - c.rep.dupe + if Preempts(env, s, g, c, ev, cfg) then 1 else 0
  {
    hide TrimSpace, ApplyOne, ApplyVerified, Candidate, Reports;
    ObservedOutcome(env, g.s, g.rep, ev, cfg);
    CommitKeepsDupes(env, g.s, g.rep, ev, true, cfg);
    var c' := ScreenStep(env, s, c, ev, cfg);
    if ev.id in g.s.events {
      HeldIsKept(env, g.s, rep, ev, c'.marked[|c.marked|], cfg);
    }
    if TrimSpace(ev.id) == "" {
      BlankIsNoCandidate(env, ev, cfg.p, cfg.now);
    }
  }

  // ---------------------------------------------------------------- all events

  lemma OnePreemptMore(env: Env, s: LState, es: seq<Event>, cfg: Setting)
    requires es != []
    ensures var init, ev := es[..|es| - 1], es[|es| - 1];
      PreemptCount(env, s, es, cfg) == PreemptCount(env, s, init, cfg)
        + if Preempts(env, s, PlainRun(env, s, init, cfg), Screen(env, s, init, cfg), ev, cfg) then 1 else 0
  {
    hide Preempts, PlainRun, Screen;
  }

  lemma NoPreempts(env: Env, s: LState, cfg: Setting)
    ensures PreemptCount(env, s, [], cfg) == 0
  {
  }

  lemma StartsLevel(s: LState, g: Progress, c: Screening)
    requires g.s == s && g.used == c.used && !g.tooLarge && !c.tooLarge && c.seen == {}
    ensures Level(s, g, c)
  {
  }

  /**
   * Over a batch without masked or reported events the ledgers agree; the duplicate counts differ by the
   * preempted events.
   */
  lemma {:induction false} ObservedRuns(env: Env, s: LState, es: seq<Event>, cfg: Setting)
    requires TotalSize(env, cfg.lim, es) <= cfg.lim.MessageBytes() && MaskCount(env, s, es, cfg) == 0
    requires forall i | 0 <= i < |es| :: !Reports(env, es[i], cfg)
    ensures var g, c := PlainRun(env, s, es, cfg), Screen(env, s, es, cfg);
      && Level(s, g, c) && g.used == TotalSize(env, cfg.lim, es) && |c.marked| == |es|
      && g.rep.dupe == c.rep.dupe + PreemptCount(env, s, es, cfg)
      && var (t, rep) := Commit(env, s, es, c.marked, cfg);
         && g.s == t && (PreemptCount(env, s, es, cfg) == 0 ==> g.rep == Plus(c.rep, rep))
    decreases |es|
  {
    hide *;
    if es == [] {
      Start(env, s, cfg);
      NoPreempts(env, s, cfg);
      StartsLevel(s, PlainRun(env, s, [], cfg), Screen(env, s, [], cfg));
      PlusNothing(Report(0, 0, 0), Report(0, 0, 0));
    } else {
      var init, ev := es[..|es| - 1], es[|es| - 1];
      OneMore(env, s, es, cfg);
      OnePreemptMore(env, s, es, cfg);
      ObservedRuns(env, s, init, cfg);
      var g, c := PlainRun(env, s, init, cfg), Screen(env, s, init, cfg);
      var (t, rep) := Commit(env, s, init, c.marked, cfg);
      ObservedStep(env, s, g, c, rep, ev, cfg);
      CommitLast(env, s, es, Screen(env, s, es, cfg).marked, cfg);
    }
  }

  // ---------------------------------------------------------------- the whole operation

  /**
   * With any observer and within the limits: if no event is masked and none is answered with a replay report,
   * both forms leave the same ledger, and they return the same outcome if and only if no event is preempted.
   */
  lemma ObservedBulkIsPlain(env: Env, s: LState, msg: EventsMessage, cfg: Setting)
    requires Refused(msg, cfg.lim) == None && TotalSize(env, cfg.lim, msg.events) <= cfg.lim.MessageBytes()
    requires MaskCount(env, s, OrderedBatch(msg.events), cfg) == 0
    requires forall ev | ev in msg.events :: !Reports(env, ev, cfg)
    ensures Bulk(env, s, msg, cfg).0 == Bounded(env, s, msg, cfg).0
    ensures Bulk(env, s, msg, cfg).1 == Bounded(env, s, msg, cfg).1
            <==> PreemptCount(env, s, OrderedBatch(msg.events), cfg) == 0
  {
    hide PlainRun, Screen, Commit, TrimmedIds, GoesFirst, Sorting.Sort, MaskCount, PreemptCount, Reports;
    var es := OrderedBatch(msg.events);
    SortFolds(env, cfg.lim, msg.events, GoesFirst(BatchMentions(BatchIds(msg.events), msg.events)));
    MessageRuns.BatchHolds(msg.events);
    forall i | 0 <= i < |es| ensures !Reports(env, es[i], cfg) {
      assert es[i] in es;
    }
    ObservedRuns(env, s, es, cfg);
    var c := Screen(env, s, es, cfg);
    CommitCountsNoDupes(env, s, es, c.marked, cfg);
  }

  /** In particular, unique identifiers of which none is reported leave the same ledger. */
  lemma ObservedBulkRefines(env: Env, s: LState, msg: EventsMessage, cfg: Setting)
    requires UniqueIds(msg.events) && TotalSize(env, cfg.lim, msg.events) <= cfg.lim.MessageBytes()
    requires forall ev | ev in msg.events :: !Reports(env, ev, cfg)
    ensures Bulk(env, s, msg, cfg).0 == Bounded(env, s, msg, cfg).0
  {
    hide UniqueIds, PlainRun, Screen, Commit, TrimmedIds, GoesFirst, Sorting.Sort, MaskCount, Reports;
    if Refused(msg, cfg.lim) == None {
      var es := OrderedBatch(msg.events);
      SortFolds(env, cfg.lim, msg.events, GoesFirst(BatchMentions(BatchIds(msg.events), msg.events)));
      UniqueDepends(msg.events, es);
      UniqueMasksNothing(env, s, es, cfg);
      ObservedBulkIsPlain(env, s, msg, cfg);
    }
  }

  // ---------------------------------------------------------------- why outdated events are excepted

  /**
   * The plain form reports an outdated event as a replay; the bulk form rejects it without a report. So the two
   * leave different ledgers exactly if the observer's keys are usable and its report can be stored.
   */
  lemma OnlyPlainReportsReplays(env: Env, s: LState, ev: Event, cfg: Setting)
    requires cfg.lim.Events() >= 1 && ev.id !in s.events && Outdated(env, ev, cfg)
    requires Admitted(env, cfg.lim, ev).Some? && Size(env, cfg.lim, ev) <= cfg.lim.MessageBytes()
    ensures var msg := EventsMessage(SYNC_SCHEMA_V1, [ev]);
      var report := NextDraft(env, s, cfg.obs.value, KIND_MISBEHAVIOR_REPLAY, Other, cfg.now);
      && Bulk(env, s, msg, cfg) == (s, Outcome(Report(0, 0, 1), None))
      && Bounded(env, s, msg, cfg)
           == (Emit(env, s, cfg.p, cfg.obs.value, KIND_MISBEHAVIOR_REPLAY, Other, cfg.now),
               Outcome(Report(0, 0, 1), None))
      && (Bulk(env, s, msg, cfg).0 != Bounded(env, s, msg, cfg).0 <==>
            && cfg.obs.value.valid && Acceptable(env, cfg.p, cfg.now, report)
            && report.id !in s.events && !Conflicts(s, report))
  {
    hide PlainRun, Screen, Commit, OrderedBatch, Outdated, Plus, Emit, NextDraft, Acceptable, Conflicts;
    OutdatedIsObserved(env, ev, cfg);
    EmitsExactly(env, s, cfg.p, cfg.obs.value, KIND_MISBEHAVIOR_REPLAY, Other, cfg.now);
    var es := [ev];
    assert es[..0] == [];
    OneEventBatch(ev);
    Start(env, s, cfg);
    OneMore(env, s, es, cfg);
    ReportedPlain(env, PlainRun(env, s, [], cfg), ev, cfg);
    ReportedScreen(env, s, Screen(env, s, [], cfg), ev, cfg);
    var c := Screen(env, s, es, cfg);
    CommitLast(env, s, es, c.marked, cfg);
    assert c.marked == [false] && c.marked[..0] == [];
    PlusNothing(Report(0, 0, 1), Report(0, 0, 0));
  }

  lemma OutdatedIsObserved(env: Env, ev: Event, cfg: Setting)
    requires Outdated(env, ev, cfg)
    ensures cfg.obs.Some?
  {
    hide VerdictOf, TrimSpace;
  }

  lemma OneEventBatch(ev: Event)
    ensures OrderedBatch([ev]) == [ev]
  {
    hide BatchMentions, BatchIds, GoesFirst;
    AlreadySorted([ev], GoesFirst(BatchMentions(BatchIds([ev]), [ev])));
  }

  lemma ReportedPlain(env: Env, g: Progress, ev: Event, cfg: Setting)
    requires !g.tooLarge && ev.id !in g.s.events && Outdated(env, ev, cfg) && Admitted(env, cfg.lim, ev).Some?
    requires g.used + Size(env, cfg.lim, ev) <= cfg.lim.MessageBytes()
    ensures PlainStep(env, g, ev, cfg)
            == Progress(Emit(env, g.s, cfg.p, cfg.obs.value, KIND_MISBEHAVIOR_REPLAY, Other, cfg.now),
                        OneRejected(g.rep), g.used + Size(env, cfg.lim, ev), false)
  {
    hide VerdictOf, Emit, TrimSpace;
  }

  lemma ReportedScreen(env: Env, s: LState, c: Screening, ev: Event, cfg: Setting)
    requires !c.tooLarge && ev.id !in s.events && c.seen == {} && Outdated(env, ev, cfg)
    requires Admitted(env, cfg.lim, ev).Some?
    requires c.used + Size(env, cfg.lim, ev) <= cfg.lim.MessageBytes()
    ensures var c' := ScreenStep(env, s, c, ev, cfg);
      c'.rep == OneRejected(c.rep) && c'.marked == c.marked + [false] && !c'.tooLarge
  {
    hide WellFormed, Genuine, PolicyVerdict, TrimSpace;
  }

  // ---------------------------------------------------------------- every event is counted once

  ghost function MarkedCount(marked: seq<bool>): (r: nat) {
    if marked == [] then 0 else MarkedCount(marked[..|marked| - 1]) + if marked[|marked| - 1] then 1 else 0
  }

  lemma ScreenStepCounts(env: Env, s: LState, c: Screening, ev: Event, cfg: Setting)
    requires !ScreenStep(env, s, c, ev, cfg).tooLarge
    ensures var c' := ScreenStep(env, s, c, ev, cfg);
      && !c.tooLarge && |c'.marked| == |c.marked| + 1 && c'.marked[..|c.marked|] == c.marked
      && c'.rep.Total() + (if c'.marked[|c.marked|] then 1 else 0) == c.rep.Total() + 1
  {
    hide TrimSpace, Candidate;
  }

  lemma {:induction false} ScreenCounts(env: Env, s: LState, es: seq<Event>, cfg: Setting)
    requires !Screen(env, s, es, cfg).tooLarge
    ensures var c := Screen(env, s, es, cfg); c.rep.Total() + MarkedCount(c.marked) == |es|
    decreases |es|
  {
    hide Screen, ScreenStep;
    if es == [] {
      ScreenStart(env, s, cfg);
    } else {
      var c := Screen(env, s, es[..|es| - 1], cfg);
      ScreenLast(env, s, es, cfg);
      ScreenStepCounts(env, s, c, es[|es| - 1], cfg);
      ScreenCounts(env, s, es[..|es| - 1], cfg);
    }
  }

  lemma CommitStepCounts(env: Env, s: LState, rep: Report, ev: Event, marked: bool, cfg: Setting)
    ensures CommitStep(env, s, rep, ev, marked, cfg).1.Total() == rep.Total() + if marked then 1 else 0
  {
    hide ApplyVerified;
  }

  lemma {:induction false} CommitCounts(env: Env, s: LState, es: seq<Event>, marked: seq<bool>, cfg: Setting)
    requires |marked| == |es|
    ensures Commit(env, s, es, marked, cfg).1.Total() == MarkedCount(marked)
    decreases |es|
  {
    hide CommitStep;
    if es != [] {
      var k := |es| - 1;
      CommitCounts(env, s, es[..k], marked[..k], cfg);
      var (t, rep) := Commit(env, s, es[..k], marked[..k], cfg);
      CommitStepCounts(env, t, rep, es[k], marked[k], cfg);
    }
  }

  /** For every message that is not refused, the bulk form counts every event exactly once, whatever the observer. */
  lemma BulkCountsEveryEvent(env: Env, s: LState, msg: EventsMessage, cfg: Setting)
    requires Bulk(env, s, msg, cfg).1.error == None
    ensures Bulk(env, s, msg, cfg).1.rep.Total() == |msg.events|
  {
    hide Screen, Commit, OrderedBatch, MarkedCount;
    var es := OrderedBatch(msg.events);
    var c := Screen(env, s, es, cfg);
    ScreenCounts(env, s, es, cfg);
    CommitCounts(env, s, es, c.marked, cfg);
  }
}
