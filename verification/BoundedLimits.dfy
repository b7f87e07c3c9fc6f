/** What the size limits of a message do, in terms of the encoded sizes of its events. */
module BoundedLimits {
  import opened BoundedApply
  import opened BoundedRefinement
  import opened LedgerModel
  import opened LedgerRuns
  import MessageRuns
  import opened Results
  import opened Sorting
  import opened Sync
  import opened SyncModel

  // ---------------------------------------------------------------- sizes and limits

  function LimitOr(limit: int, default: nat): (r: nat) {
    if limit > 0 then limit else default
  }

  /** The event can be encoded within the limit for one event, by default 256 KiB. */
  predicate Encodes(env: Env, lim: Limits, ev: Event) {
    env.marshalled(ev).Some? && env.marshalled(ev).value <= LimitOr(lim.maxEventBytes, 262144)
  }

  /** The events that can be encoded within the limit, in order. */
  ghost function Encodable(env: Env, lim: Limits, es: seq<Event>): (r: seq<Event>)
    ensures |r| <= |es|
    decreases |es|
  {
    if es == [] then []
    else
      var r, ev := Encodable(env, lim, es[..|es| - 1]), es[|es| - 1];
      if Encodes(env, lim, ev) then r + [ev] else r
  }

  /** The encoded size of those events. */
  ghost function Bytes(env: Env, lim: Limits, es: seq<Event>): (r: nat)
    decreases |es|
  {
    if es == [] then 0
    else
      var ev := es[|es| - 1];
      Bytes(env, lim, es[..|es| - 1]) + if Encodes(env, lim, ev) then env.marshalled(ev).value else 0
  }

  /** The message is too long, or what can be encoded of it is too large; by default 256 events and 1 MiB. */
  ghost predicate TooLarge(env: Env, msg: EventsMessage, lim: Limits) {
    |msg.events| > LimitOr(lim.maxEvents, 256) || Bytes(env, lim, msg.events) > LimitOr(lim.maxMessageBytes, 1048576)
  }

  lemma NoBytes(env: Env, lim: Limits)
    ensures Bytes(env, lim, []) == 0 && Encodable(env, lim, []) == [] && Skipping(Report(0, 0, 0), 0) == Report(0, 0, 0)
  {
  }

  lemma BytesMore(env: Env, lim: Limits, es: seq<Event>)
    requires es != []
    ensures var init, ev := es[..|es| - 1], es[|es| - 1];
      if Encodes(env, lim, ev)
      then
        && Encodable(env, lim, es) == Encodable(env, lim, init) + [ev] && env.marshalled(ev).Some?
        && Bytes(env, lim, es) == Bytes(env, lim, init) + env.marshalled(ev).value
      else Encodable(env, lim, es) == Encodable(env, lim, init) && Bytes(env, lim, es) == Bytes(env, lim, init)
  {
  }

  lemma LimitsAre(lim: Limits)
    ensures lim.Events() == LimitOr(lim.maxEvents, 256) && lim.EventBytes() == LimitOr(lim.maxEventBytes, 262144)
    ensures lim.MessageBytes() == LimitOr(lim.maxMessageBytes, 1048576)
  {
  }

  lemma AdmittedIs(env: Env, lim: Limits, ev: Event)
    ensures Encodes(env, lim, ev) ==> env.marshalled(ev).Some?
    ensures Admitted(env, lim, ev) == if Encodes(env, lim, ev) then env.marshalled(ev) else None
  {
    LimitsAre(lim);
  }

  lemma {:induction false} BytesAreSize(env: Env, lim: Limits, es: seq<Event>)
    ensures Bytes(env, lim, es) == TotalSize(env, lim, es)
    decreases |es|
  {
    hide Admitted, Encodes;
    if es != [] {
      BytesAreSize(env, lim, es[..|es| - 1]);
      AdmittedIs(env, lim, es[|es| - 1]);
    }
  }

  lemma OrderKeepsBytes(env: Env, lim: Limits, es: seq<Event>)
    ensures Bytes(env, lim, OrderedBatch(es)) == Bytes(env, lim, es)
  {
    hide Bytes, TotalSize, GoesFirst, BatchMentions, BatchIds, Sort;
    SortFolds(env, lim, es, GoesFirst(BatchMentions(BatchIds(es), es)));
    BytesAreSize(env, lim, es);
    BytesAreSize(env, lim, OrderedBatch(es));
  }

  lemma {:induction false} AllEncodable(env: Env, lim: Limits, es: seq<Event>)
    requires forall ev | ev in es :: Encodes(env, lim, ev)
    ensures Encodable(env, lim, es) == es
    decreases |es|
  {
    hide Encodes;
    if es != [] {
      assert es[|es| - 1] in es;
      AllEncodable(env, lim, es[..|es| - 1]);
    }
  }

  lemma {:induction false} EncodableHolds(env: Env, lim: Limits, es: seq<Event>, ev: Event)
    ensures ev in Encodable(env, lim, es) <==> ev in es && Encodes(env, lim, ev)
    decreases |es|
  {
    hide Encodes;
    if es != [] {
      EncodableHolds(env, lim, es[..|es| - 1], ev);
      assert ev in es <==> ev in es[..|es| - 1] || ev == es[|es| - 1];
    }
  }

  // ---------------------------------------------------------------- the plain form

  function Skipping(rep: Report, k: nat): (r: Report) {
    rep.(rejected := rep.rejected + k)
  }

  /** The plain loop applies the encodable events in turn, counts the others as rejected, and stops once full. */
  lemma {:induction false} PlainSkips(env: Env, s: LState, es: seq<Event>, cfg: Setting)
    ensures var g, small := PlainRun(env, s, es, cfg), Encodable(env, cfg.lim, es);
      && (g.tooLarge <==> Bytes(env, cfg.lim, es) > cfg.lim.MessageBytes())
      && (!g.tooLarge ==>
            var (t, rep) := ApplyAll(env, s, small, cfg.context, cfg.p, cfg.obs, cfg.now);
            g == Progress(t, Skipping(rep, |es| - |small|), Bytes(env, cfg.lim, es), false))
    decreases |es|
  {
    hide *;
    if es == [] {
      PlainStart(env, s, cfg);
      NoBytes(env, cfg.lim);
      ApplyNone(env, s, cfg);
    } else {
      var init, ev := es[..|es| - 1], es[|es| - 1];
      var g, small := PlainRun(env, s, init, cfg), Encodable(env, cfg.lim, init);
      PlainSkips(env, s, init, cfg);
      PlainLast(env, s, es, cfg);
      BytesMore(env, cfg.lim, es);
      if g.tooLarge {
        StaysTooLarge(env, g, ev, cfg);
      } else {
        var (t, rep) := ApplyAll(env, s, small, cfg.context, cfg.p, cfg.obs, cfg.now);
        StepOfPlain(env, g, rep, |init| - |small|, ev, cfg);
        ApplyMore(env, s, small, ev, cfg);
      }
    }
  }

  lemma StaysTooLarge(env: Env, g: Progress, ev: Event, cfg: Setting)
    requires g.tooLarge
    ensures PlainStep(env, g, ev, cfg).tooLarge
  {
  }

  lemma StepOfPlain(env: Env, g: Progress, rep: Report, k: nat, ev: Event, cfg: Setting)
    requires !g.tooLarge && g.rep == Skipping(rep, k)
    ensures var g', n := PlainStep(env, g, ev, cfg), env.marshalled(ev);
      if !Encodes(env, cfg.lim, ev) then g' == g.(rep := Skipping(rep, k + 1))
      else if g.used + n.value > cfg.lim.MessageBytes() then g'.tooLarge
      else
        var (t, after) := ApplyOne(env, g.s, rep, ev, cfg.context, cfg.p, cfg.obs, cfg.now);
        g' == Progress(t, Skipping(after, k), g.used + n.value, false)
  {
    hide Encodes, Admitted, ApplyOne;
    AdmittedIs(env, cfg.lim, ev);
    OneIgnoresSkips(env, g.s, rep, k, ev, cfg);
  }

  lemma ApplyNone(env: Env, s: LState, cfg: Setting)
    ensures ApplyAll(env, s, [], cfg.context, cfg.p, cfg.obs, cfg.now) == (s, Report(0, 0, 0))
  {
  }

  lemma ApplyMore(env: Env, s: LState, es: seq<Event>, ev: Event, cfg: Setting)
    ensures var (t, rep) := ApplyAll(env, s, es, cfg.context, cfg.p, cfg.obs, cfg.now);
      ApplyAll(env, s, es + [ev], cfg.context, cfg.p, cfg.obs, cfg.now)
        == ApplyOne(env, t, rep, ev, cfg.context, cfg.p, cfg.obs, cfg.now)
  {
    hide ApplyOne;
    assert (es + [ev])[..|es|] == es;
  }

  lemma OneIgnoresSkips(env: Env, s: LState, rep: Report, k: nat, ev: Event, cfg: Setting)
    ensures var (t, after) := ApplyOne(env, s, rep, ev, cfg.context, cfg.p, cfg.obs, cfg.now);
      ApplyOne(env, s, Skipping(rep, k), ev, cfg.context, cfg.p, cfg.obs, cfg.now) == (t, Skipping(after, k))
  {
    hide Apply;
  }

  // ---------------------------------------------------------------- the bulk form

  lemma {:induction false} ScreenOverflows(env: Env, s: LState, es: seq<Event>, cfg: Setting)
    ensures var c := Screen(env, s, es, cfg);
      && (c.tooLarge <==> Bytes(env, cfg.lim, es) > cfg.lim.MessageBytes())
      && (!c.tooLarge ==> c.used == Bytes(env, cfg.lim, es))
    decreases |es|
  {
    hide Encodes, Screen, Admitted, Candidate;
    if es == [] {
      ScreenStart(env, s, cfg);
    } else {
      ScreenOverflows(env, s, es[..|es| - 1], cfg);
      ScreenLast(env, s, es, cfg);
      AdmittedIs(env, cfg.lim, es[|es| - 1]);
    }
  }

  /** Two screenings that differ in skipped events only. */
  ghost predicate SkipsOnly(c: Screening, d: Screening, k: nat) {
    && !c.tooLarge && !d.tooLarge && c.used == d.used && c.seen == d.seen && c.rep == Skipping(d.rep, k)
  }

  lemma StepSkips(env: Env, s: LState, c: Screening, d: Screening, k: nat, ev: Event, cfg: Setting)
    requires SkipsOnly(c, d, k) && !ScreenStep(env, s, c, ev, cfg).tooLarge
    ensures var c', d' := ScreenStep(env, s, c, ev, cfg), ScreenStep(env, s, d, ev, cfg);
      if Encodes(env, cfg.lim, ev)
      then SkipsOnly(c', d', k) && exists m: bool :: c'.marked == c.marked + [m] && d'.marked == d.marked + [m]
      else SkipsOnly(c', d, k + 1) && c'.marked == c.marked + [false]
  {
    hide Encodes, Admitted, Candidate;
    AdmittedIs(env, cfg.lim, ev);
  }

  lemma CommitMore(env: Env, s: LState, es: seq<Event>, marked: seq<bool>, ev: Event, m: bool, cfg: Setting)
    requires |marked| == |es|
    ensures var (t, rep) := Commit(env, s, es, marked, cfg);
      Commit(env, s, es + [ev], marked + [m], cfg) == CommitStep(env, t, rep, ev, m, cfg)
  {
    hide CommitStep;
    CommitLast(env, s, es + [ev], marked + [m], cfg);
    assert (es + [ev])[..|es|] == es && (marked + [m])[..|es|] == marked;
  }

  /** Screening and committing a batch skips exactly the events that cannot be encoded. */
  lemma {:induction false} BulkSkips(env: Env, s: LState, es: seq<Event>, cfg: Setting)
    requires Bytes(env, cfg.lim, es) <= cfg.lim.MessageBytes()
    ensures var small := Encodable(env, cfg.lim, es);
      var c, d := Screen(env, s, es, cfg), Screen(env, s, small, cfg);
      && SkipsOnly(c, d, |es| - |small|) && |c.marked| == |es| && |d.marked| == |small|
      && Commit(env, s, es, c.marked, cfg) == Commit(env, s, small, d.marked, cfg)
    decreases |es|
  {
    hide Encodes, Screen, ScreenStep, Commit, CommitStep;
    if es == [] {
      ScreenStart(env, s, cfg);
    } else {
      var init, ev := es[..|es| - 1], es[|es| - 1];
      var small := Encodable(env, cfg.lim, init);
      AdmittedIs(env, cfg.lim, ev);
      BulkSkips(env, s, init, cfg);
      ScreenOverflows(env, s, es, cfg);
      ScreenLast(env, s, es, cfg);
      var c, d := Screen(env, s, init, cfg), Screen(env, s, small, cfg);
      StepSkips(env, s, c, d, |init| - |small|, ev, cfg);
      assert es == init + [ev];
      if Encodes(env, cfg.lim, ev) {
        var c', d' := ScreenStep(env, s, c, ev, cfg), ScreenStep(env, s, d, ev, cfg);
        var m :| c'.marked == c.marked + [m] && d'.marked == d.marked + [m];
        ScreenLast(env, s, small + [ev], cfg);
        assert (small + [ev])[..|small|] == small;
        CommitMore(env, s, init, c.marked, ev, m, cfg);
        CommitMore(env, s, small, d.marked, ev, m, cfg);
      } else {
        CommitMore(env, s, init, c.marked, ev, false, cfg);
        UnmarkedIsKept(env, Commit(env, s, init, c.marked, cfg).0, Commit(env, s, init, c.marked, cfg).1, ev, cfg);
      }
    }
  }

  lemma UnmarkedIsKept(env: Env, s: LState, rep: Report, ev: Event, cfg: Setting)
    ensures CommitStep(env, s, rep, ev, false, cfg) == (s, rep)
  {
  }

  // ---------------------------------------------------------------- both operations

  /** Both forms refuse a message exactly if its schema is another one or it is too large. */
  lemma RefusedExactly(env: Env, s: LState, msg: EventsMessage, cfg: Setting)
    ensures var error :=
      if msg.schema != 1 then Some(UnsupportedSchema) else if TooLarge(env, msg, cfg.lim) then Some(MessageTooLarge)
      else None;
      Bounded(env, s, msg, cfg).1.error == error && Bulk(env, s, msg, cfg).1.error == error
  {
    hide PlainRun, Screen, Commit, Bytes, OrderedBatch;
    var es := OrderedBatch(msg.events);
    LimitsAre(cfg.lim);
    OrderKeepsBytes(env, cfg.lim, msg.events);
    PlainSkips(env, s, es, cfg);
    ScreenOverflows(env, s, es, cfg);
  }

  /**
   * A message that is not refused: the plain form applies the events that can be encoded within the limit in turn and
   * counts each of the others as rejected; the bulk form does to the message what it does to those events, and counts
   * the others as rejected too.
   */
  lemma OversizedAreRejected(env: Env, s: LState, msg: EventsMessage, cfg: Setting)
    requires msg.schema == 1 && !TooLarge(env, msg, cfg.lim)
    ensures var es := OrderedBatch(msg.events);
      var small := Encodable(env, cfg.lim, es);
      var (t, rep) := ApplyAll(env, s, small, cfg.context, cfg.p, cfg.obs, cfg.now);
      var d := Screen(env, s, small, cfg);
      && Bounded(env, s, msg, cfg) == (t, Outcome(Skipping(rep, |es| - |small|), None))
      && |d.marked| == |small|
      && var (u, more) := Commit(env, s, small, d.marked, cfg);
         Bulk(env, s, msg, cfg) == (u, Outcome(Skipping(Plus(d.rep, more), |es| - |small|), None))
  {
    hide PlainRun, Screen, Commit, Bytes, OrderedBatch, ApplyAll;
    var es := OrderedBatch(msg.events);
    LimitsAre(cfg.lim);
    OrderKeepsBytes(env, cfg.lim, msg.events);
    PlainSkips(env, s, es, cfg);
    ScreenOverflows(env, s, es, cfg);
    BulkSkips(env, s, es, cfg);
  }

  /** So a message whose events all fit is applied in turn, every event of it. */
  lemma FittingMessageIsApplied(env: Env, s: LState, msg: EventsMessage, cfg: Setting)
    requires msg.schema == 1 && !TooLarge(env, msg, cfg.lim)
    requires forall ev | ev in msg.events :: Encodes(env, cfg.lim, ev)
    ensures var (t, rep) := ApplyAll(env, s, OrderedBatch(msg.events), cfg.context, cfg.p, cfg.obs, cfg.now);
      Bounded(env, s, msg, cfg) == (t, Outcome(rep, None))
  {
    hide Bounded, Bulk, ApplyAll, OrderedBatch, TooLarge, Encodes, Screen, Commit;
    OversizedAreRejected(env, s, msg, cfg);
    MessageRuns.BatchHolds(msg.events);
    AllEncodable(env, cfg.lim, OrderedBatch(msg.events));
  }

  // ---------------------------------------------------------------- what can enter the ledger

  /** What `t` holds and `s` does not is `ev`, or signed with the observer's key. */
  ghost predicate BringsOnly(s: LState, t: LState, ev: Event, obs: Option<Observer>) {
    && (forall id | id in s.events :: id in t.events && t.events[id] == s.events[id])
    && forall id | id in t.events && id !in s.events ::
         t.events[id] == ev || (obs.Some? && t.events[id].authorKey == obs.value.key)
  }

  lemma MoveBrings(env: Env, before: LState, s: LState, m: Move, t: LState, ev: Event, p: Policy, obs: Option<Observer>)
    requires Moved(env, s, m, t) && Application(env, before, s, m, ev, p, obs)
    ensures BringsOnly(s, t, ev, obs)
  {
    hide Validates, Conflicts, LinkFault, NextLink, NextParents, Normalized;
    if m.Store? {
      StoredEvents(env, s, m.ev);
    }
  }

  lemma StoredEvents(env: Env, s: LState, ev: Event)
    ensures Stored(env, s, ev).events == s.events[ev.id := ev]
  {
    hide Track, Refs, MarkOf, Heads;
  }

  lemma {:induction false} PathBrings(env: Env, states: seq<LState>, moves: seq<Move>, i: nat, ev: Event, p: Policy,
                                      obs: Option<Observer>)
    requires Path(env, states, moves) && i <= |moves|
    requires forall k | 0 <= k < |moves| :: Application(env, states[0], states[k], moves[k], ev, p, obs)
    ensures BringsOnly(states[0], states[i], ev, obs)
  {
    hide Moved, Application, BringsOnly;
    if i == 0 {
      BringsNothing(states[0], ev, obs);
    } else {
      PathBrings(env, states, moves, i - 1, ev, p, obs);
      MoveBrings(env, states[0], states[i - 1], moves[i - 1], states[i], ev, p, obs);
      BringsBoth(states[0], states[i - 1], states[i], ev, obs);
    }
  }

  lemma BringsNothing(s: LState, ev: Event, obs: Option<Observer>)
    ensures BringsOnly(s, s, ev, obs)
  {
  }

  lemma BringsBoth(s: LState, t: LState, u: LState, ev: Event, obs: Option<Observer>)
    requires BringsOnly(s, t, ev, obs) && BringsOnly(t, u, ev, obs)
    ensures BringsOnly(s, u, ev, obs)
  {
  }

  lemma StepBrings(env: Env, s: LState, step: Step)
    requires step.Receive? || step.ReceiveVerified?
    ensures BringsOnly(s, Do(env, s, step), step.ev, step.obs)
  {
    hide Do, Application, BringsOnly, Path;
    var states, moves := StepPath(env, s, step);
    PathShape(env, states, moves);
    forall k | 0 <= k < |moves| ensures Application(env, s, states[k], moves[k], step.ev, step.p, step.obs) {
      assert Allowed(env, s, states[k], moves[k], step);
    }
    PathBrings(env, states, moves, |moves|, step.ev, step.p, step.obs);
  }

  /** Each new event is one of the batch that can be encoded within the limit, or the observer's own. */
  ghost predicate Expected(env: Env, s: LState, t: LState, es: seq<Event>, cfg: Setting) {
    && (forall id | id in s.events :: id in t.events && t.events[id] == s.events[id])
    && forall id | id in t.events && id !in s.events ::
         || (t.events[id] in es && Encodes(env, cfg.lim, t.events[id]))
         || (cfg.obs.Some? && t.events[id].authorKey == cfg.obs.value.key)
  }

  lemma ExpectedOneMore(env: Env, s: LState, t: LState, u: LState, es: seq<Event>, ev: Event, cfg: Setting)
    requires Expected(env, s, t, es, cfg)
    requires u == t || (Encodes(env, cfg.lim, ev) && BringsOnly(t, u, ev, cfg.obs))
    ensures Expected(env, s, u, es + [ev], cfg)
  {
    hide Encodes;
    assert forall x :: x in es ==> x in es + [ev];
    assert ev in es + [ev];
  }

  lemma {:induction false} PlainBrings(env: Env, s: LState, es: seq<Event>, cfg: Setting)
    ensures Expected(env, s, PlainRun(env, s, es, cfg).s, es, cfg)
    decreases |es|
  {
    hide PlainStep, Do, Expected, Encodes, BringsOnly;
    if es == [] {
      ExpectedNothing(env, s, es, cfg);
    } else {
      var init, ev := es[..|es| - 1], es[|es| - 1];
      var g := PlainRun(env, s, init, cfg);
      PlainBrings(env, s, init, cfg);
      MessageRuns.PlainStepIsStep(env, g, ev, cfg);
      StepBrings(env, g.s, Receive(ev, cfg.context, cfg.p, cfg.obs, cfg.now));
      UnencodableIsKept(env, g, ev, cfg);
      ExpectedOneMore(env, s, g.s, PlainStep(env, g, ev, cfg).s, init, ev, cfg);
      assert es == init + [ev];
    }
  }

  lemma ExpectedNothing(env: Env, s: LState, es: seq<Event>, cfg: Setting)
    ensures Expected(env, s, s, es, cfg)
  {
  }

  lemma UnencodableIsKept(env: Env, g: Progress, ev: Event, cfg: Setting)
    ensures !Encodes(env, cfg.lim, ev) ==> PlainStep(env, g, ev, cfg).s == g.s
  {
    hide ApplyOne, Encodes, Admitted;
    AdmittedIs(env, cfg.lim, ev);
  }

  lemma {:induction false} MarkedIsEncodable(env: Env, s: LState, es: seq<Event>, cfg: Setting, k: nat)
    requires !Screen(env, s, es, cfg).tooLarge && k < |es| && Screen(env, s, es, cfg).marked[k]
    ensures Encodes(env, cfg.lim, es[k])
    decreases |es|
  {
    hide Encodes, Screen, Candidate, Admitted;
    var init, ev := es[..|es| - 1], es[|es| - 1];
    var c := Screen(env, s, init, cfg);
    ScreenLast(env, s, es, cfg);
    AdmittedIs(env, cfg.lim, ev);
    if k < |init| {
      MarkedIsEncodable(env, s, init, cfg, k);
    }
  }

  lemma {:induction false} CommitBrings(env: Env, s: LState, es: seq<Event>, marked: seq<bool>, cfg: Setting)
    requires |marked| == |es| && forall k | 0 <= k < |es| && marked[k] :: Encodes(env, cfg.lim, es[k])
    ensures Expected(env, s, Commit(env, s, es, marked, cfg).0, es, cfg)
    decreases |es|
  {
    hide CommitStep, Do, Expected, Encodes, BringsOnly;
    if es == [] {
      ExpectedNothing(env, s, es, cfg);
    } else {
      var k := |es| - 1;
      var (t, rep) := Commit(env, s, es[..k], marked[..k], cfg);
      CommitBrings(env, s, es[..k], marked[..k], cfg);
      MessageRuns.CommitStepIsStep(env, t, rep, es[k], marked[k], cfg);
      StepBrings(env, t, ReceiveVerified(es[k], cfg.context, cfg.p, cfg.obs, cfg.now));
      ExpectedOneMore(env, s, t, CommitStep(env, t, rep, es[k], marked[k], cfg).0, es[..k], es[k], cfg);
      assert es == es[..k] + [es[k]];
    }
  }

  /**
   * Whatever message either form is given, refused or not: each event it stores is one of the message that can be
   * encoded within the limit, or the observer's own. An oversized event is never stored.
   */
  lemma OversizedAreNeverStored(env: Env, s: LState, msg: EventsMessage, cfg: Setting)
    ensures Expected(env, s, Bounded(env, s, msg, cfg).0, msg.events, cfg)
    ensures Expected(env, s, Bulk(env, s, msg, cfg).0, msg.events, cfg)
  {
    hide PlainRun, Screen, Commit, OrderedBatch, Expected, Encodes;
    var es := OrderedBatch(msg.events);
    ExpectedNothing(env, s, msg.events, cfg);
    MessageRuns.BatchHolds(msg.events);
    PlainBrings(env, s, es, cfg);
    ExpectedInMore(env, s, PlainRun(env, s, es, cfg).s, es, msg.events, cfg);
    var c := Screen(env, s, es, cfg);
    if !c.tooLarge {
      forall k | 0 <= k < |es| && c.marked[k] ensures Encodes(env, cfg.lim, es[k]) {
        MarkedIsEncodable(env, s, es, cfg, k);
      }
      CommitBrings(env, s, es, c.marked, cfg);
      ExpectedInMore(env, s, Commit(env, s, es, c.marked, cfg).0, es, msg.events, cfg);
    }
  }

  lemma ExpectedInMore(env: Env, s: LState, t: LState, es: seq<Event>, more: seq<Event>, cfg: Setting)
    requires Expected(env, s, t, es, cfg) && forall ev | ev in es :: ev in more
    ensures Expected(env, s, t, more, cfg)
  {
    hide Encodes;
  }
}
