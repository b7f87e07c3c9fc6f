/** The two bounded apply operations on the ledger object. */
module OptimizedApply {
  import opened BoundedApply
  import opened Ledger
  import LedgerIndexes
  import opened LedgerModel
  import opened Results
  import opened Strings
  import opened Sync
  import opened SyncModel
  import opened VerifiedEventCache

  // ---------------------------------------------------------------- one event at a time

  method PlainNext(l: Ledger, rep0: Report, used0: nat, ev: Event, cfg: Setting)
      returns (rep: Report, used: nat, tooLarge: bool)
    requires l.Valid()
    modifies l
    ensures l.Valid()
    ensures Progress(l.State(), rep, used, tooLarge)
        == PlainStep(l.env, Progress(old(l.State()), rep0, used0, false), ev, cfg)
  {
    hide ApplyOne, Ledger.Valid;
    rep, used, tooLarge := rep0, used0, false;
    var size := Admitted(l.env, cfg.lim, ev);
    if size.None? {
      rep := OneRejected(rep);
    } else if used + size.value > cfg.lim.MessageBytes() {
      tooLarge := true;
    } else {
      used := used + size.value;
      rep := ApplyNext(l, rep, ev, cfg.context, cfg.p, cfg.obs, cfg.now);
    }
  }

  /** Once the message is too large nothing changes any more. */
  lemma {:induction false} PlainStops(env: Env, s: LState, es: seq<Event>, i: nat, cfg: Setting)
    requires i <= |es| && PlainRun(env, s, es[..i], cfg).tooLarge
    ensures PlainRun(env, s, es, cfg) == PlainRun(env, s, es[..i], cfg)
    decreases |es|
  {
    hide ApplyOne;
    if i < |es| {
      assert es[..|es| - 1][..i] == es[..i];
      PlainStops(env, s, es[..|es| - 1], i, cfg);
    } else {
      assert es[..i] == es;
    }
  }

  method PlainAll(l: Ledger, es: seq<Event>, cfg: Setting) returns (rep: Report, tooLarge: bool)
    requires l.Valid()
    modifies l
    ensures l.Valid()
    ensures var g := PlainRun(l.env, old(l.State()), es, cfg);
      l.State() == g.s && rep == g.rep && tooLarge == g.tooLarge
  {
    hide *;
    ghost var s := l.State();
    rep, tooLarge := Report(0, 0, 0), false;
    var used: nat := 0;
    PlainStart(l.env, s, cfg);
    Slices(es);
    for i := 0 to |es|
      invariant l.Valid() && !tooLarge && Progress(l.State(), rep, used, false) == PlainRun(l.env, s, es[..i], cfg)
    {
      SliceMore(es, i);
      PlainLast(l.env, s, es[..i + 1], cfg);
      rep, used, tooLarge := PlainNext(l, rep, used, es[i], cfg);
      if tooLarge {
        PlainStops(l.env, s, es, i + 1, cfg);
        return;
      }
    }
  }

  method ApplyEventsMessageBounded(l: Ledger, msg: EventsMessage, cfg: Setting) returns (out: Outcome)
    requires l.Valid()
    modifies l
    ensures l.Valid() && (l.State(), out) == Bounded(l.env, old(l.State()), msg, cfg)
  {
    hide PlainRun, OrderedBatch, Ledger.Valid, Ledger.State;
    var refused := Refused(msg, cfg.lim);
    if refused.Some? {
      return Outcome(Report(0, 0, 0), refused);
    }
    var es := OrderEvents(msg.events);
    var rep, tooLarge := PlainAll(l, es, cfg);
    out := Outcome(rep, if tooLarge then Some(MessageTooLarge) else None);
  }

  // ---------------------------------------------------------------- first pass

  /** Content hashes and decodable keys are base64 text, which has no NUL in it. */
  ghost predicate NulFreeEnv(env: Env) {
    (forall ev: Event :: NulFree(env.contentId(ev))) && forall k: string | env.keyDecodes(k) :: NulFree(k)
  }

  /** An absent cache, or a consistent one that only verified triples were put into. */
  ghost predicate CacheOk(env: Env, cache: Cache?)
    reads cache
  {
    cache != null ==> cache.Valid() && Trusted(env, cache.expiry)
  }

  predicate Signed(env: Env, ev: Event) {
    env.sigOk(ev.authorKey, ev.id, ev.sig)
  }

  lemma CandidateNulFree(env: Env, ev: Event, p: Policy, now: int)
    requires NulFreeEnv(env) && Candidate(env, ev, p, now)
    ensures NulFree(ev.id) && NulFree(ev.authorKey) && env.keyDecodes(ev.authorKey) && env.sigDecodes(ev.sig)
  {
    hide TrimSpace, PolicyVerdict, NulFree;
  }

  /** A hit stands for a checked signature; a miss only forgets an expired entry. */
  method AskCache(env: Env, cache: Cache?, ev: Event, p: Policy, now: int) returns (hit: bool)
    requires CacheOk(env, cache) && NulFreeEnv(env) && Candidate(env, ev, p, now)
    modifies cache
    ensures CacheOk(env, cache) && (hit ==> Signed(env, ev))
  {
    hide Candidate, CacheKey, VerifiedKey, NulFreeEnv, Lists, NulFree;
    hit := false;
    if cache != null {
      CandidateNulFree(env, ev, p, now);
      ghost var before := cache.expiry;
      hit := cache.Match(ev.id, ev.authorKey, ev.sig, now);
      if hit {
        HitIsVerified(env, before, ev.id, ev.authorKey, ev.sig);
      }
    }
  }

  /** Screens one event and looks its signature up. */
  method ScreenNext(l: Ledger, cache: Cache?, ghost c: Screening, rep0: Report, used0: nat, seen0: set<string>,
                    ev: Event, cfg: Setting)
      returns (rep: Report, used: nat, seen: set<string>, tooLarge: bool, candidate: bool, verified: bool)
    requires !c.tooLarge && c.rep == rep0 && c.used == used0 && c.seen == seen0
    requires CacheOk(l.env, cache) && NulFreeEnv(l.env)
    modifies cache
    ensures CacheOk(l.env, cache)
    ensures ScreenStep(l.env, l.State(), c, ev, cfg) ==
      Screening(rep, used, seen, if tooLarge then c.marked else c.marked + [candidate], tooLarge)
    ensures (verified ==> candidate && Signed(l.env, ev)) && (candidate ==> Candidate(l.env, ev, cfg.p, cfg.now))
  {
    hide Candidate, CacheOk, NulFreeEnv, TrimSpace, Signed;
    rep, used, seen, tooLarge, candidate, verified := rep0, used0, seen0, false, false, false;
    var size := Admitted(l.env, cfg.lim, ev);
    if size.None? {
      rep := OneRejected(rep);
      return;
    }
    if used + size.value > cfg.lim.MessageBytes() {
      tooLarge := true;
      return;
    }
    used := used + size.value;
    var id := TrimSpace(ev.id);
    if id == "" {
      rep := OneRejected(rep);
    } else if id in seen {
      rep := OneDupe(rep);
    } else {
      seen := seen + {id};
      if ev.id in l.events {
        rep := OneDupe(rep);
      } else if !Candidate(l.env, ev, cfg.p, cfg.now) {
        rep := OneRejected(rep);
      } else {
        candidate := true;
        verified := AskCache(l.env, cache, ev, cfg.p, cfg.now);
      }
    }
  }

  lemma {:induction false} ScreenStops(env: Env, s: LState, es: seq<Event>, i: nat, cfg: Setting)
    requires i <= |es| && Screen(env, s, es[..i], cfg).tooLarge
    ensures Screen(env, s, es, cfg) == Screen(env, s, es[..i], cfg)
    decreases |es|
  {
    hide TrimSpace, Candidate;
    if i < |es| {
      assert es[..|es| - 1][..i] == es[..i];
      ScreenStops(env, s, es[..|es| - 1], i, cfg);
    } else {
      assert es[..i] == es;
    }
  }

  /** Which events have been screened so far, and what is known about their signatures. */
  ghost predicate Screened(env: Env, es: seq<Event>, candidate: seq<bool>, verified: seq<bool>, tasks: set<nat>,
                           cfg: Setting) {
    && |candidate| == |verified| <= |es|
    && (forall i | 0 <= i < |candidate| && candidate[i] :: Candidate(env, es[i], cfg.p, cfg.now))
    && (forall i | 0 <= i < |candidate| && verified[i] :: candidate[i] && Signed(env, es[i]))
    && (forall i | 0 <= i < |candidate| && candidate[i] :: verified[i] || i in tasks)
    && (forall t | t in tasks :: t < |candidate| && candidate[t])
  }

  lemma ScreenedMore(env: Env, es: seq<Event>, candidate: seq<bool>, verified: seq<bool>, tasks: set<nat>,
                     cfg: Setting, c: bool, v: bool)
    requires Screened(env, es, candidate, verified, tasks, cfg) && |candidate| < |es|
    requires (v ==> c && Signed(env, es[|candidate|])) && (c ==> Candidate(env, es[|candidate|], cfg.p, cfg.now))
    ensures Screened(env, es, candidate + [c], verified + [v], if c && !v then tasks + {|candidate|} else tasks, cfg)
  {
    hide Candidate, Signed;
  }

  /** Screens every event; the two buffers record the candidates and whose signatures are already known. */
  method ScreenAll(l: Ledger, cache: Cache?, es: seq<Event>, candidate: array<bool>, verified: array<bool>,
                   cfg: Setting)
      returns (rep: Report, tasks: set<nat>, tooLarge: bool)
    requires CacheOk(l.env, cache) && NulFreeEnv(l.env)
    requires candidate != verified && candidate.Length == verified.Length == |es|
    requires forall i | 0 <= i < |es| :: !candidate[i] && !verified[i]
    modifies cache, candidate, verified
    ensures CacheOk(l.env, cache)
    ensures var c := Screen(l.env, l.State(), es, cfg);
      tooLarge == c.tooLarge && rep == c.rep && (!tooLarge ==> candidate[..] == c.marked)
    ensures !tooLarge ==> Screened(l.env, es, candidate[..], verified[..], tasks, cfg)
  {
    hide *;
    ghost var s := l.State();
    rep, tooLarge := Report(0, 0, 0), false;
    var used: nat, seen: set<string> := 0, {};
    tasks := {};
    ScreenStart(l.env, s, cfg);
    Slices(es);
    NothingScreened(l.env, es, cfg);
    for i := 0 to |es|
      invariant CacheOk(l.env, cache) && !tooLarge && l.State() == s
      invariant forall j | i <= j < |es| :: !candidate[j] && !verified[j]
      invariant Screening(rep, used, seen, candidate[..i], false) == Screen(l.env, s, es[..i], cfg)
      invariant Screened(l.env, es, candidate[..i], verified[..i], tasks, cfg)
    {
      ghost var c, v := candidate[..i], verified[..i];
      SliceMore(es, i);
      ScreenLast(l.env, s, es[..i + 1], cfg);
      var isCandidate, isVerified;
      rep, used, seen, tooLarge, isCandidate, isVerified := ScreenNext(l, cache, Screen(l.env, s, es[..i], cfg), rep,
          used, seen, es[i], cfg);
      if tooLarge {
        ScreenStops(l.env, s, es, i + 1, cfg);
        return;
      }
      ScreenedMore(l.env, es, c, v, tasks, cfg, isCandidate, isVerified);
      if isCandidate {
        candidate[i] := true;
        if isVerified {
          verified[i] := true;
        } else {
          tasks := tasks + {i};
        }
      }
      assert candidate[..i + 1] == c + [isCandidate] && verified[..i + 1] == v + [isVerified];
    }
    assert candidate[..|es|] == candidate[..] && verified[..|es|] == verified[..];
  }

  lemma NothingScreened(env: Env, es: seq<Event>, cfg: Setting)
    ensures Screened(env, es, [], [], {}, cfg)
  {
    hide Candidate, Signed;
  }

  // ---------------------------------------------------------------- workers

  lemma TrustedMore(env: Env, before: map<string, int>, after: map<string, int>, ev: Event)
    requires Trusted(env, before) && Signed(env, ev) && NulFree(ev.id) && NulFree(ev.authorKey)
    requires forall k | k in after :: k == CacheKey(ev.id, ev.authorKey, ev.sig) || k in before
    ensures Trusted(env, after)
  {
    hide CacheKey, NulFree;
    assert VerifiedKey(env, CacheKey(ev.id, ev.authorKey, ev.sig));
  }

  /** Checks one signature and remembers it if it is good. */
  method Work(env: Env, cache: Cache?, ev: Event, cfg: Setting) returns (ok: bool)
    requires CacheOk(env, cache) && NulFreeEnv(env) && Candidate(env, ev, cfg.p, cfg.now)
    modifies cache
    ensures CacheOk(env, cache) && ok == Signed(env, ev)
  {
    hide Candidate, CacheKey, Trusted, NulFreeEnv, Lists, NulFree, Take, Without;
    CandidateNulFree(env, ev, cfg.p, cfg.now);
    if !env.keyDecodes(ev.authorKey) {
      return false;
    }
    if !env.sigDecodes(ev.sig) {
      return false;
    }
    ok := Signed(env, ev);
    if ok && cache != null {
      ghost var before := cache.expiry;
      cache.Put(ev.id, ev.authorKey, ev.sig, cfg.now);
      TrustedMore(env, before, cache.expiry, ev);
    }
  }

  /** The workers take the tasks in an arbitrary order. */
  method VerifyTasks(env: Env, cache: Cache?, es: seq<Event>, candidate: seq<bool>, tasks: set<nat>,
                     verified: array<bool>, cfg: Setting)
    requires CacheOk(env, cache) && NulFreeEnv(env) && |candidate| == verified.Length == |es|
    requires Screened(env, es, candidate, verified[..], tasks, cfg)
    modifies cache, verified
    ensures CacheOk(env, cache)
    ensures forall i | 0 <= i < |es| && candidate[i] :: verified[i] <==> Signed(env, es[i])
  {
    hide Candidate, Signed, CacheOk, NulFreeEnv;
    var pending := tasks;
    while pending != {}
      invariant CacheOk(env, cache) && pending <= tasks
      invariant forall i | 0 <= i < |es| && verified[i] :: Signed(env, es[i])
      invariant forall i | 0 <= i < |es| && candidate[i] && !verified[i] :: i in pending || !Signed(env, es[i])
      decreases pending
    {
      var t :| t in pending;
      pending := pending - {t};
      var ok := Work(env, cache, es[t], cfg);
      if ok {
        verified[t] := true;
      }
    }
  }

  // ---------------------------------------------------------------- second pass

  method CommitNext(l: Ledger, rep0: Report, ev: Event, candidate: bool, verified: bool, cfg: Setting)
      returns (rep: Report)
    requires l.Valid() && (candidate ==> (verified <==> Signed(l.env, ev)))
    modifies l
    ensures l.Valid() && (l.State(), rep) == CommitStep(l.env, old(l.State()), rep0, ev, candidate, cfg)
  {
    hide ApplyVerified, LedgerIndexes.Keyed;
    rep := rep0;
    if !candidate || !verified {
      if candidate && !verified {
        rep := OneRejected(rep);
      }
    } else {
      var refusal := l.ApplyVerifiedWithContext(ev, cfg.context, cfg.p, cfg.obs, cfg.now);
      rep := if refusal.Some? then OneRejected(rep) else OneApplied(rep);
    }
  }

  lemma Slices<T>(es: seq<T>)
    ensures es[..0] == [] && es[..|es|] == es
  {
  }

  lemma SliceMore<T>(es: seq<T>, i: nat)
    requires i < |es|
    ensures |es[..i + 1]| == i + 1 && es[..i + 1][..i] == es[..i] && es[..i + 1][i] == es[i]
  {
  }

  /** The counts of a step are added to whatever was counted before. */
  lemma CommitAdds(env: Env, s: LState, base: Report, rep: Report, ev: Event, marked: bool, cfg: Setting)
    ensures var a, b := CommitStep(env, s, Plus(base, rep), ev, marked, cfg), CommitStep(env, s, rep, ev, marked, cfg);
      a.0 == b.0 && a.1 == Plus(base, b.1)
  {
    hide ApplyVerified;
  }

  method CommitAll(l: Ledger, rep0: Report, es: seq<Event>, candidate: array<bool>, verified: array<bool>, cfg: Setting)
      returns (rep: Report)
    requires l.Valid() && candidate.Length == verified.Length == |es|
    requires forall i | 0 <= i < |es| && candidate[i] :: verified[i] <==> Signed(l.env, es[i])
    modifies l
    ensures l.Valid() && candidate[..] == old(candidate[..])
    ensures var r := Commit(l.env, old(l.State()), es, candidate[..], cfg); l.State() == r.0 && rep == Plus(rep0, r.1)
  {
    hide *;
    ghost var s, marked := l.State(), candidate[..];
    rep := rep0;
    CommitStart(l.env, s, cfg);
    Slices(es);
    Slices(marked);
    PlusZero(rep0);
    ghost var added := Report(0, 0, 0);
    for i := 0 to |es|
      invariant l.Valid() && candidate[..] == marked && verified[..] == old(verified[..])
      invariant (l.State(), added) == Commit(l.env, s, es[..i], marked[..i], cfg) && rep == Plus(rep0, added)
    {
      SliceMore(es, i);
      SliceMore(marked, i);
      CommitLast(l.env, s, es[..i + 1], marked[..i + 1], cfg);
      CommitAdds(l.env, l.State(), rep0, added, es[i], marked[i], cfg);
      ghost var t := l.State();
      assert candidate[i] == marked[i] && verified[i] == old(verified[..])[i];
      rep := CommitNext(l, rep, es[i], candidate[i], verified[i], cfg);
      added := CommitStep(l.env, t, added, es[i], marked[i], cfg).1;
    }
  }

  lemma PlusZero(rep: Report)
    ensures Plus(rep, Report(0, 0, 0)) == rep
  {
  }

  // ---------------------------------------------------------------- the whole operation

  /**
   * Screens, verifies in arbitrary order with a cache, and commits. The outcome is that of the bulk form,
   * whatever the cache held and whatever order the workers took.
   */
  method ApplyEventsMessageBoundedOptimized(l: Ledger, cache: Cache?, msg: EventsMessage, cfg: Setting)
      returns (out: Outcome)
    requires l.Valid() && CacheOk(l.env, cache) && NulFreeEnv(l.env)
    modifies l, cache
    ensures l.Valid() && CacheOk(l.env, cache)
    ensures (l.State(), out) == Bulk(l.env, old(l.State()), msg, cfg)
  {
    hide *;
    BulkCases(l.env, l.State(), msg, cfg);
    var refused := Refused(msg, cfg.lim);
    if refused.Some? {
      return Outcome(Report(0, 0, 0), refused);
    }
    var es := OrderEvents(msg.events);
    var candidate, verified := new bool[|es|](_ => false), new bool[|es|](_ => false);
    var rep, tasks, tooLarge := ScreenAll(l, cache, es, candidate, verified, cfg);
    if tooLarge {
      return Outcome(rep, Some(MessageTooLarge));
    }
    VerifyTasks(l.env, cache, es, candidate[..], tasks, verified, cfg);
    rep := CommitAll(l, rep, es, candidate, verified, cfg);
    out := Outcome(rep, None);
  }

  lemma BulkCases(env: Env, s: LState, msg: EventsMessage, cfg: Setting)
    ensures var es := OrderedBatch(msg.events);
      var c := Screen(env, s, es, cfg);
      Bulk(env, s, msg, cfg) ==
        if Refused(msg, cfg.lim).Some? then (s, Outcome(Report(0, 0, 0), Refused(msg, cfg.lim)))
        else if c.tooLarge then (s, Outcome(c.rep, Some(MessageTooLarge)))
        else (Commit(env, s, es, c.marked, cfg).0, Outcome(Plus(c.rep, Commit(env, s, es, c.marked, cfg).1), None))
  {
    hide Screen, Commit, OrderedBatch, Plus;
  }
}
