/** Applying a message under size limits: one event at a time, and screened, verified and committed in bulk. */
module BoundedApply {
  import opened LedgerModel
  import opened Results
  import opened Strings
  import opened Sync
  import opened SyncModel

  datatype Limits = Limits(maxEvents: int, maxEventBytes: int, maxMessageBytes: int) {
    function Events(): (r: nat) { if maxEvents <= 0 then 256 else maxEvents }
    function EventBytes(): (r: nat) { if maxEventBytes <= 0 then 256 * 1024 else maxEventBytes }
    function MessageBytes(): (r: nat) { if maxMessageBytes <= 0 then 1024 * 1024 else maxMessageBytes }
  }

  /** The arguments that stay fixed while a message is applied. */
  datatype Setting = Setting(context: string, p: Policy, obs: Option<Observer>, now: int, lim: Limits)

  /** What a call returns: the counts, and an error if the message was refused. */
  datatype Outcome = Outcome(rep: Report, error: Option<SyncError>)

  function OneRejected(rep: Report): (r: Report) { rep.(rejected := rep.rejected + 1) }

  function OneDupe(rep: Report): (r: Report) { rep.(dupe := rep.dupe + 1) }

  function OneApplied(rep: Report): (r: Report) { rep.(applied := rep.applied + 1) }

  function Plus(a: Report, b: Report): (r: Report) {
    Report(a.applied + b.applied, a.dupe + b.dupe, a.rejected + b.rejected)
  }

  /** The size of an event that can be encoded and fits the limit for one event. */
  function Admitted(env: Env, lim: Limits, ev: Event): (r: Option<nat>) {
    match env.marshalled(ev)
    case None => None
    case Some(n) => if n > lim.EventBytes() then None else Some(n)
  }

  // ---------------------------------------------------------------- one event at a time

  datatype Progress = Progress(s: LState, rep: Report, used: nat, tooLarge: bool)

  ghost function PlainStep(env: Env, g: Progress, ev: Event, cfg: Setting): (r: Progress)
    ensures !r.tooLarge ==> r.rep.Total() == g.rep.Total() + 1
  {
    if g.tooLarge then g
    else match Admitted(env, cfg.lim, ev)
      case None => g.(rep := OneRejected(g.rep))
      case Some(n) =>
        if g.used + n > cfg.lim.MessageBytes() then g.(tooLarge := true)
        else
          var (t, rep) := ApplyOne(env, g.s, g.rep, ev, cfg.context, cfg.p, cfg.obs, cfg.now);
          Progress(t, rep, g.used + n, false)
  }

  ghost function PlainRun(env: Env, s: LState, es: seq<Event>, cfg: Setting): (r: Progress)
    ensures !r.tooLarge ==> r.rep.Total() == |es|
    decreases |es|
  {
    if es == [] then Progress(s, Report(0, 0, 0), 0, false)
    else PlainStep(env, PlainRun(env, s, es[..|es| - 1], cfg), es[|es| - 1], cfg)
  }

  lemma PlainStart(env: Env, s: LState, cfg: Setting)
    ensures PlainRun(env, s, [], cfg) == Progress(s, Report(0, 0, 0), 0, false)
  {
    hide PlainStep;
  }

  lemma PlainLast(env: Env, s: LState, es: seq<Event>, cfg: Setting)
    requires es != []
    ensures PlainRun(env, s, es, cfg) == PlainStep(env, PlainRun(env, s, es[..|es| - 1], cfg), es[|es| - 1], cfg)
  {
    hide PlainStep;
  }

  function Refused(msg: EventsMessage, lim: Limits): (r: Option<SyncError>) {
    if msg.schema != SYNC_SCHEMA_V1 then Some(UnsupportedSchema)
    else if |msg.events| > lim.Events() then Some(MessageTooLarge)
    else None
  }

  /** The plain form of the operation. */
  ghost function Bounded(env: Env, s: LState, msg: EventsMessage, cfg: Setting): (r: (LState, Outcome)) {
    if Refused(msg, cfg.lim).Some? then (s, Outcome(Report(0, 0, 0), Refused(msg, cfg.lim)))
    else
      var g := PlainRun(env, s, OrderedBatch(msg.events), cfg);
      (g.s, Outcome(g.rep, if g.tooLarge then Some(MessageTooLarge) else None))
  }

  // ---------------------------------------------------------------- in bulk

  /** The state of the first pass: counts, bytes, identifiers met, and which events go on. */
  datatype Screening = Screening(rep: Report, used: nat, seen: set<string>, marked: seq<bool>, tooLarge: bool)

  /** Every check that needs neither the signature nor the state of earlier events. */
  predicate Candidate(env: Env, ev: Event, p: Policy, now: int) {
    NoCryptoVerdict(env, p, now, ev) == Fine && ev.id == env.contentId(ev)
  }

  ghost function ScreenStep(env: Env, s: LState, c: Screening, ev: Event, cfg: Setting): (r: Screening)
    ensures !r.tooLarge ==> |r.marked| == |c.marked| + 1
  {
    if c.tooLarge then c
    else match Admitted(env, cfg.lim, ev)
      case None => c.(rep := OneRejected(c.rep), marked := c.marked + [false])
      case Some(n) =>
        if c.used + n > cfg.lim.MessageBytes() then c.(tooLarge := true)
        else
          var d, id := c.(used := c.used + n), TrimSpace(ev.id);
          if id == "" then d.(rep := OneRejected(d.rep), marked := d.marked + [false])
          else if id in c.seen then d.(rep := OneDupe(d.rep), marked := d.marked + [false])
          else
            var e := d.(seen := d.seen + {id});
            if ev.id in s.events then e.(rep := OneDupe(e.rep), marked := e.marked + [false])
            else if !Candidate(env, ev, cfg.p, cfg.now) then e.(rep := OneRejected(e.rep), marked := e.marked + [false])
            else e.(marked := e.marked + [true])
  }

  ghost function Screen(env: Env, s: LState, es: seq<Event>, cfg: Setting): (r: Screening)
    ensures !r.tooLarge ==> |r.marked| == |es|
    decreases |es|
  {
    if es == [] then Screening(Report(0, 0, 0), 0, {}, [], false)
    else ScreenStep(env, s, Screen(env, s, es[..|es| - 1], cfg), es[|es| - 1], cfg)
  }

  lemma ScreenStart(env: Env, s: LState, cfg: Setting)
    ensures Screen(env, s, [], cfg) == Screening(Report(0, 0, 0), 0, {}, [], false)
  {
    hide ScreenStep;
  }

  lemma ScreenLast(env: Env, s: LState, es: seq<Event>, cfg: Setting)
    requires es != []
    ensures Screen(env, s, es, cfg) == ScreenStep(env, s, Screen(env, s, es[..|es| - 1], cfg), es[|es| - 1], cfg)
  {
    hide ScreenStep;
  }

  ghost function CommitStep(env: Env, s: LState, rep: Report, ev: Event, marked: bool, cfg: Setting)
    : (r: (LState, Report))
  {
    if !marked then (s, rep)
    else if !env.sigOk(ev.authorKey, ev.id, ev.sig) then (s, OneRejected(rep))
    else
      var (t, refusal) := ApplyVerified(env, s, ev, cfg.context, cfg.p, cfg.obs, cfg.now);
      (t, if refusal.Some? then OneRejected(rep) else OneApplied(rep))
  }

  /** Commits the marked events whose signatures check out. */
  ghost function Commit(env: Env, s: LState, es: seq<Event>, marked: seq<bool>, cfg: Setting): (r: (LState, Report))
    requires |marked| == |es|
    decreases |es|
  {
    if es == [] then (s, Report(0, 0, 0))
    else
      var k := |es| - 1;
      var (t, rep) := Commit(env, s, es[..k], marked[..k], cfg);
      CommitStep(env, t, rep, es[k], marked[k], cfg)
  }

  lemma CommitStart(env: Env, s: LState, cfg: Setting)
    ensures Commit(env, s, [], [], cfg) == (s, Report(0, 0, 0))
  {
    hide CommitStep;
  }

  lemma CommitLast(env: Env, s: LState, es: seq<Event>, marked: seq<bool>, cfg: Setting)
    requires es != [] && |marked| == |es|
    ensures var k := |es| - 1;
      var (t, rep) := Commit(env, s, es[..k], marked[..k], cfg);
      Commit(env, s, es, marked, cfg) == CommitStep(env, t, rep, es[k], marked[k], cfg)
  {
    hide CommitStep;
  }

  /** The bulk form of the operation; neither a cache nor the order of signature checks shows in it. */
  ghost function Bulk(env: Env, s: LState, msg: EventsMessage, cfg: Setting): (r: (LState, Outcome)) {
    if Refused(msg, cfg.lim).Some? then (s, Outcome(Report(0, 0, 0), Refused(msg, cfg.lim)))
    else
      var es := OrderedBatch(msg.events);
      var c := Screen(env, s, es, cfg);
      if c.tooLarge then (s, Outcome(c.rep, Some(MessageTooLarge)))
      else
        var (t, rep) := Commit(env, s, es, c.marked, cfg);
        (t, Outcome(Plus(c.rep, rep), None))
  }
}
