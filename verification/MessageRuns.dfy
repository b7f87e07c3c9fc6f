/** Applying a message, in either form and with any observer, is a run of the ledger. */
module MessageRuns {
  import opened BoundedApply
  import opened BoundedRefinement
  import opened LedgerIndexes
  import opened LedgerInvariants
  import opened LedgerModel
  import opened LedgerRuns
  import opened Results
  import opened Sorting
  import opened SyncModel

  /** The steps bring events of the message, verified ones in the bulk form, under its policy and observer. */
  ghost predicate FromMessage(es: seq<Event>, cfg: Setting, verified: bool, steps: seq<Step>) {
    forall i | 0 <= i < |steps| :: IsApplication(es, cfg, verified, steps[i])
  }

  ghost predicate IsApplication(es: seq<Event>, cfg: Setting, verified: bool, step: Step) {
    && (if verified then step.ReceiveVerified? else step.Receive?) && step.ev in es
    && step.context == cfg.context && step.p == cfg.p && step.obs == cfg.obs && step.now == cfg.now
  }

  lemma FromMore(es: seq<Event>, more: seq<Event>, cfg: Setting, verified: bool, steps: seq<Step>)
    requires FromMessage(es, cfg, verified, steps) && forall ev | ev in es :: ev in more
    ensures FromMessage(more, cfg, verified, steps)
  {
    forall i | 0 <= i < |steps| ensures IsApplication(more, cfg, verified, steps[i]) {
      assert IsApplication(es, cfg, verified, steps[i]);
    }
  }

  lemma FromOneMore(es: seq<Event>, cfg: Setting, verified: bool, steps: seq<Step>, step: Step)
    requires FromMessage(es, cfg, verified, steps) && IsApplication(es, cfg, verified, step)
    ensures FromMessage(es, cfg, verified, steps + [step])
  {
  }

  lemma ExecMore(env: Env, s: LState, steps: seq<Step>, step: Step)
    ensures Exec(env, s, steps + [step]) == Do(env, Exec(env, s, steps), step)
  {
    hide Do;
    assert (steps + [step])[..|steps|] == steps;
  }

  // ---------------------------------------------------------------- the bulk form

  lemma CommitStepIsStep(env: Env, s: LState, rep: Report, ev: Event, marked: bool, cfg: Setting)
    ensures var step := ReceiveVerified(ev, cfg.context, cfg.p, cfg.obs, cfg.now);
      CommitStep(env, s, rep, ev, marked, cfg).0 == if marked then Do(env, s, step) else s
  {
    hide ApplyVerified;
  }

  lemma {:induction false} CommitIsRun(env: Env, s: LState, es: seq<Event>, marked: seq<bool>, cfg: Setting)
      returns (steps: seq<Step>)
    requires |marked| == |es|
    ensures Commit(env, s, es, marked, cfg).0 == Exec(env, s, steps) && FromMessage(es, cfg, true, steps)
    decreases |es|
  {
    hide CommitStep, Do, FromMessage;
    if es == [] {
      steps := [];
      assert FromMessage(es, cfg, true, []) by { FromNothing(es, cfg, true); }
    } else {
      var k := |es| - 1;
      steps := CommitIsRun(env, s, es[..k], marked[..k], cfg);
      var (t, rep) := Commit(env, s, es[..k], marked[..k], cfg);
      CommitStepIsStep(env, t, rep, es[k], marked[k], cfg);
      FromMore(es[..k], es, cfg, true, steps);
      if marked[k] {
        var step := ReceiveVerified(es[k], cfg.context, cfg.p, cfg.obs, cfg.now);
        ExecMore(env, s, steps, step);
        FromOneMore(es, cfg, true, steps, step);
        steps := steps + [step];
      }
    }
  }

  lemma FromNothing(es: seq<Event>, cfg: Setting, verified: bool)
    ensures FromMessage(es, cfg, verified, [])
  {
  }

  /** The bulk form takes only steps that bring verified events of the message. */
  lemma BulkIsRun(env: Env, s: LState, msg: EventsMessage, cfg: Setting) returns (steps: seq<Step>)
    ensures Bulk(env, s, msg, cfg).0 == Exec(env, s, steps) && FromMessage(msg.events, cfg, true, steps)
  {
    hide Screen, Commit, Do, FromMessage, OrderedBatch;
    var es := OrderedBatch(msg.events);
    var c := Screen(env, s, es, cfg);
    FromNothing(msg.events, cfg, true);
    steps := [];
    if Refused(msg, cfg.lim) == None && !c.tooLarge {
      steps := CommitIsRun(env, s, es, c.marked, cfg);
      BatchHolds(msg.events);
      FromMore(es, msg.events, cfg, true, steps);
    }
  }

  lemma BatchHolds(batch: seq<Event>)
    ensures forall ev | ev in OrderedBatch(batch) :: ev in batch
  {
    hide Sort, GoesFirst, BatchMentions, BatchIds;
    var es := OrderedBatch(batch);
    SameElements(es, batch);
    forall ev | ev in es ensures ev in batch {
      assert ev in Elements(es);
    }
  }

  // ---------------------------------------------------------------- the plain form

  lemma PlainStepIsStep(env: Env, g: Progress, ev: Event, cfg: Setting)
    ensures var step := Receive(ev, cfg.context, cfg.p, cfg.obs, cfg.now);
      PlainStep(env, g, ev, cfg).s == g.s || PlainStep(env, g, ev, cfg).s == Do(env, g.s, step)
  {
    hide Apply;
  }

  lemma {:induction false} PlainIsRun(env: Env, s: LState, es: seq<Event>, cfg: Setting) returns (steps: seq<Step>)
    ensures PlainRun(env, s, es, cfg).s == Exec(env, s, steps) && FromMessage(es, cfg, false, steps)
    decreases |es|
  {
    hide PlainStep, Do, FromMessage;
    if es == [] {
      steps := [];
      FromNothing(es, cfg, false);
    } else {
      var k := |es| - 1;
      steps := PlainIsRun(env, s, es[..k], cfg);
      var g := PlainRun(env, s, es[..k], cfg);
      PlainStepIsStep(env, g, es[k], cfg);
      FromMore(es[..k], es, cfg, false, steps);
      if PlainStep(env, g, es[k], cfg).s != g.s {
        var step := Receive(es[k], cfg.context, cfg.p, cfg.obs, cfg.now);
        ExecMore(env, s, steps, step);
        FromOneMore(es, cfg, false, steps, step);
        steps := steps + [step];
      }
    }
  }

  lemma BoundedIsRun(env: Env, s: LState, msg: EventsMessage, cfg: Setting) returns (steps: seq<Step>)
    ensures Bounded(env, s, msg, cfg).0 == Exec(env, s, steps) && FromMessage(msg.events, cfg, false, steps)
  {
    hide PlainRun, Do, FromMessage, OrderedBatch;
    FromNothing(msg.events, cfg, false);
    steps := [];
    if Refused(msg, cfg.lim) == None {
      steps := PlainIsRun(env, s, OrderedBatch(msg.events), cfg);
      BatchHolds(msg.events);
      FromMore(OrderedBatch(msg.events), msg.events, cfg, false, steps);
    }
  }

  // ---------------------------------------------------------------- what messages keep

  /**
   * Whatever message is applied in bulk, with whatever observer: a sound ledger stays sound, exact indexes stay
   * exact, nothing stored is lost, and under a policy that requires known previous events chains stay unbroken.
   */
  lemma BulkKeeps(env: Env, s: LState, msg: EventsMessage, cfg: Setting)
    requires Sound(env, s)
    ensures var t := Bulk(env, s, msg, cfg).0;
      && Sound(env, t) && Grows(s, t) && (Exact(env, s) ==> Exact(env, t))
      && (PlainIds(env) && ChainOk(s) && cfg.p.requireKnownPrev && Trimmed(cfg.obs) ==> ChainOk(t))
  {
    hide Bulk, Sound, Exact, Grows, Exec, ChainOk, PlainIds, Trimmed, FromMessage, NothingDropped;
    var steps := BulkIsRun(env, s, msg, cfg);
    RunIsSound(env, s, steps);
    VerifiedRunGrows(env, s, msg.events, cfg, steps);
    if PlainIds(env) && ChainOk(s) && cfg.p.requireKnownPrev && Trimmed(cfg.obs) {
      forall i | 0 <= i < |steps| ensures Strict(Exec(env, s, steps[..i]), steps[i]) {
        VerifiedIsStrict(msg.events, cfg, steps, i, Exec(env, s, steps[..i]));
      }
      RunKeepsChain(env, s, steps);
    }
  }

  lemma VerifiedIsStrict(es: seq<Event>, cfg: Setting, steps: seq<Step>, i: nat, s: LState)
    requires FromMessage(es, cfg, true, steps) && i < |steps| && cfg.p.requireKnownPrev && Trimmed(cfg.obs)
    ensures Strict(s, steps[i])
  {
    hide Trimmed;
    assert IsApplication(es, cfg, true, steps[i]);
  }

  lemma {:induction false} VerifiedRunGrows(env: Env, s: LState, es: seq<Event>, cfg: Setting, steps: seq<Step>)
    requires FromMessage(es, cfg, true, steps)
    ensures Grows(s, Exec(env, s, steps)) && (Exact(env, s) ==> Exact(env, Exec(env, s, steps)))
    decreases |steps|
  {
    hide Do, Exact, Grows;
    if steps == [] {
      GrowsSelf(s);
    } else {
      var k := |steps| - 1;
      var init := steps[..k];
      assert IsApplication(es, cfg, true, steps[k]);
      forall i | 0 <= i < k ensures IsApplication(es, cfg, true, init[i]) {
        assert IsApplication(es, cfg, true, steps[i]);
      }
      VerifiedRunGrows(env, s, es, cfg, init);
      StepGrows(env, Exec(env, s, init), steps[k]);
      GrowsOn(s, Exec(env, s, init), Exec(env, s, steps));
    }
  }

  lemma GrowsOn(s: LState, t: LState, u: LState)
    requires Grows(s, t) && Grows(t, u)
    ensures Grows(s, u)
  {
  }

  // ---------------------------------------------------------------- both forms on reachable ledgers

  lemma SoundIsNonblank(env: Env, s: LState)
    requires Sound(env, s)
    ensures NonblankKeys(s)
  {
    hide MarksSound, MissingSound, AuthorSound, HeadsBetween, Genuine;
    forall id | id in s.events ensures Validates(env, s.events[id]) && s.events[id].id == id {
    }
  }

  /**
   * On every ledger that a run can reach, and without an observer, the two forms agree on a message within the
   * limits if and only if none of its events is masked, and always if its identifiers are unique.
   */
  lemma ReachableBulkIsPlain(env: Env, steps: seq<Step>, msg: EventsMessage, cfg: Setting)
    requires cfg.obs == None && TotalSize(env, cfg.lim, msg.events) <= cfg.lim.MessageBytes()
    ensures var s := Exec(env, EMPTY, steps);
      && (Refused(msg, cfg.lim) == None ==>
            (Bulk(env, s, msg, cfg) == Bounded(env, s, msg, cfg) <==>
             forall j | 0 <= j < |msg.events| :: !MaskedAt(env, s, OrderedBatch(msg.events), cfg, j)))
      && (UniqueIds(msg.events) ==> Bulk(env, s, msg, cfg) == Bounded(env, s, msg, cfg))
  {
    hide *;
    var s := Exec(env, EMPTY, steps);
    EmptyStart(env);
    RunIsSound(env, EMPTY, steps);
    SoundIsNonblank(env, s);
    if Refused(msg, cfg.lim) == None {
      BulkIsPlainExactly(env, s, msg, cfg);
    }
    if UniqueIds(msg.events) {
      BulkRefinesPlain(env, s, msg, cfg);
    }
  }
}
