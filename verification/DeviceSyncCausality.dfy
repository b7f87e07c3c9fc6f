/** Causality across replicas: what happened before an event is held wherever the event is, and sorts before it. */
module DeviceSyncCausality {
  import opened DeviceSync
  import opened DeviceSyncRuns
  import opened Sorting
  import opened Strings

  // ---------------------------------------------------------------- happened-before

  /** Step `i` recorded `b` on a replica that held `a`. */
  ghost predicate Knew(idOf: IdHash, ys: seq<System>, steps: seq<Step>, i: int, a: Event, b: Event) {
    && 0 <= i < |steps| < |ys| && steps[i].Record? && steps[i].device in ys[i].replicas
    && var s := ys[i].replicas[steps[i].device];
       a in s.events && b == RecordedEvent(idOf, s, steps[i].kind, steps[i].payload, steps[i].now)
  }

  /** The first `n` steps made `b` depend on `a`. */
  ghost predicate Depends(idOf: IdHash, ys: seq<System>, steps: seq<Step>, n: int, a: Event, b: Event) {
    exists i :: 0 <= i < n && Knew(idOf, ys, steps, i, a, b)
  }

  /** Each event of the chain was recorded on a replica that held its predecessor. */
  ghost predicate IsCausal(idOf: IdHash, ys: seq<System>, steps: seq<Step>, chain: seq<Event>) {
    |chain| >= 2 && forall k | 0 <= k < |chain| - 1 :: Depends(idOf, ys, steps, |steps|, chain[k], chain[k + 1])
  }

  // ---------------------------------------------------------------- facts about one step

  lemma StepKeepsLogged(idOf: IdHash, y: System, step: Step, y': System, x: Event)
    requires SystemOk(y) && Next(idOf, y, step, y') && Logged(y.logs, x)
    ensures Logged(y'.logs, x)
  {
    hide LogsOk, ReplicaOk, RecordStep, ApplyStep, AskOk, FlightOk, RecordedEvent;
    if step.Record? {
      var d, s := step.device, y.replicas[step.device];
      assert ReplicaOk(y.logs, d, s);
      OwnLog(y.logs, d, s);
      var ev := RecordedEvent(idOf, s, step.kind, step.payload, step.now);
      LogGrowth(y.logs, d, ev, y'.logs, x);
    }
  }

  lemma {:induction false} RunKeepsLogged(idOf: IdHash, devices: set<string>, ys: seq<System>, steps: seq<Step>,
                                          i: nat, n: nat, x: Event)
    requires IsRun(idOf, devices, ys, steps) && i <= n < |ys| && Logged(ys[i].logs, x)
    ensures Logged(ys[n].logs, x)
  {
    hide Next, Logged, WithinLimit, SystemOk, Start;
    if i < n {
      RunKeepsLogged(idOf, devices, ys, steps, i, n - 1, x);
      RunKeeps(idOf, devices, ys, steps, n - 1);
      StepKeepsLogged(idOf, ys[n - 1], steps[n - 1], ys[n], x);
    }
  }

  /** The recorded event is new to every log, and is logged afterwards. */
  lemma RecordedIsNew(idOf: IdHash, y: System, step: Step, y': System)
    requires SystemOk(y) && Next(idOf, y, step, y') && step.Record?
    ensures var ev := RecordedEvent(idOf, y.replicas[step.device], step.kind, step.payload, step.now);
      !Logged(y.logs, ev) && Logged(y'.logs, ev)
  {
    hide LogsOk, ReplicaOk, RecordStep, ApplyStep, AskOk, FlightOk, RecordedEvent;
    var d, s := step.device, y.replicas[step.device];
    assert ReplicaOk(y.logs, d, s);
    OwnLog(y.logs, d, s);
    var ev := RecordedEvent(idOf, s, step.kind, step.payload, step.now);
    LogGrowth(y.logs, d, ev, y'.logs, ev);
  }

  /** The replica of a record step is as it should be, and its events are logged and earlier. */
  lemma KnewFacts(idOf: IdHash, devices: set<string>, ys: seq<System>, steps: seq<Step>, i: int, a: Event, b: Event)
    requires IsRun(idOf, devices, ys, steps) && Knew(idOf, ys, steps, i, a, b)
    ensures a.lamport < b.lamport && Logged(ys[i].logs, a) && !Logged(ys[i].logs, b) && Logged(ys[i + 1].logs, b)
  {
    hide Next, Logged, WithinLimit, LogsOk, AskOk, FlightOk, Start, RecordedEvent;
    RunKeeps(idOf, devices, ys, steps, i);
    assert Next(idOf, ys[i], steps[i], ys[i + 1]);
    RecordedIsNew(idOf, ys[i], steps[i], ys[i + 1]);
    assert ReplicaOk(ys[i].logs, steps[i].device, ys[i].replicas[steps[i].device]);
  }

  lemma DependsFacts(idOf: IdHash, devices: set<string>, ys: seq<System>, steps: seq<Step>, n: int, a: Event, b: Event)
    requires IsRun(idOf, devices, ys, steps) && 0 <= n < |ys| && Depends(idOf, ys, steps, n, a, b)
    ensures a.lamport < b.lamport && Before(a, b) && Logged(ys[n].logs, a) && Logged(ys[n].logs, b)
  {
    hide IsRun, Knew, Logged;
    var i :| 0 <= i < n && Knew(idOf, ys, steps, i, a, b);
    RunShape(idOf, devices, ys, steps);
    KnewFacts(idOf, devices, ys, steps, i, a, b);
    RunKeepsLogged(idOf, devices, ys, steps, i, n, a);
    RunKeepsLogged(idOf, devices, ys, steps, i + 1, n, b);
  }

  lemma RunShape(idOf: IdHash, devices: set<string>, ys: seq<System>, steps: seq<Step>)
    requires IsRun(idOf, devices, ys, steps)
    ensures |ys| == |steps| + 1
  {
  }

  /** An event that is logged by step `n` was recorded before it. */
  lemma DependsEarlier(idOf: IdHash, devices: set<string>, ys: seq<System>, steps: seq<Step>, n: int, a: Event,
                       b: Event)
    requires IsRun(idOf, devices, ys, steps) && 0 <= n < |ys|
    requires Depends(idOf, ys, steps, |steps|, a, b) && Logged(ys[n].logs, b)
    ensures Depends(idOf, ys, steps, n, a, b)
  {
    hide IsRun, Knew, Logged;
    var i :| 0 <= i < |steps| && Knew(idOf, ys, steps, i, a, b);
    RunShape(idOf, devices, ys, steps);
    KnewFacts(idOf, devices, ys, steps, i, a, b);
    if n <= i {
      RunKeepsLogged(idOf, devices, ys, steps, n, i, b);
    }
  }

  // ---------------------------------------------------------------- causally closed replicas and batches

  ghost predicate Closed(idOf: IdHash, ys: seq<System>, steps: seq<Step>, n: int, held: seq<Event>) {
    forall a, b | Depends(idOf, ys, steps, n, a, b) && b in held :: a in held
  }

  /** Whatever an event of the batch depends on is in the batch or was covered when the batch was asked for. */
  ghost predicate BatchClosed(idOf: IdHash, ys: seq<System>, steps: seq<Step>, n: int, asked: Cursors,
                              events: seq<Event>) {
    forall a, b | Depends(idOf, ys, steps, n, a, b) && b in events ::
      a in events || a.seqNo <= Cursor(asked, a.deviceId)
  }

  ghost predicate AllClosed(idOf: IdHash, ys: seq<System>, steps: seq<Step>, n: int)
    requires 0 <= n < |ys|
  {
    && (forall d | d in ys[n].replicas :: Closed(idOf, ys, steps, n, ys[n].replicas[d].events))
    && (forall f | f in ys[n].flights :: BatchClosed(idOf, ys, steps, n, f.asked, f.batch.events))
  }

  lemma DependsMore(idOf: IdHash, ys: seq<System>, steps: seq<Step>, n: int, a: Event, b: Event)
    requires n >= 0
    ensures Depends(idOf, ys, steps, n + 1, a, b) <==>
        Depends(idOf, ys, steps, n, a, b) || Knew(idOf, ys, steps, n, a, b)
  {
    hide Knew;
  }

  /** Events logged before a step gain no dependency from it. */
  lemma OldDepends(idOf: IdHash, devices: set<string>, ys: seq<System>, steps: seq<Step>, n: int, a: Event, b: Event)
    requires IsRun(idOf, devices, ys, steps) && 0 <= n < |steps| && Logged(ys[n].logs, b)
    ensures Depends(idOf, ys, steps, n + 1, a, b) ==> Depends(idOf, ys, steps, n, a, b)
  {
    hide IsRun, Knew, Logged, Depends;
    DependsMore(idOf, ys, steps, n, a, b);
    if Knew(idOf, ys, steps, n, a, b) {
      KnewFacts(idOf, devices, ys, steps, n, a, b);
    }
  }

  /** A set of logged events stays closed over a step. */
  lemma ClosedStays(idOf: IdHash, devices: set<string>, ys: seq<System>, steps: seq<Step>, n: int, held: seq<Event>)
    requires IsRun(idOf, devices, ys, steps) && 0 <= n < |steps| && Closed(idOf, ys, steps, n, held)
    requires forall ev | ev in held :: Logged(ys[n].logs, ev)
    ensures Closed(idOf, ys, steps, n + 1, held)
  {
    hide IsRun, Depends, Logged;
    forall a, b | Depends(idOf, ys, steps, n + 1, a, b) && b in held ensures a in held {
      OldDepends(idOf, devices, ys, steps, n, a, b);
    }
  }

  lemma BatchClosedStays(idOf: IdHash, devices: set<string>, ys: seq<System>, steps: seq<Step>, n: int,
                         asked: Cursors, events: seq<Event>)
    requires IsRun(idOf, devices, ys, steps) && 0 <= n < |steps| && BatchClosed(idOf, ys, steps, n, asked, events)
    requires forall ev | ev in events :: Logged(ys[n].logs, ev)
    ensures BatchClosed(idOf, ys, steps, n + 1, asked, events)
  {
    hide IsRun, Depends, Logged;
    forall a, b | Depends(idOf, ys, steps, n + 1, a, b) && b in events
      ensures a in events || a.seqNo <= Cursor(asked, a.deviceId)
    {
      OldDepends(idOf, devices, ys, steps, n, a, b);
    }
  }

  // -- building: the fresh events are sent in canonical order, so dependencies go first

  lemma FreshIsClosed(idOf: IdHash, devices: set<string>, ys: seq<System>, steps: seq<Step>, n: int, held: seq<Event>,
                      asked: Cursors, limit: nat)
    requires IsRun(idOf, devices, ys, steps) && 0 <= n < |ys|
    requires Closed(idOf, ys, steps, n, held) && Ordered(held, Before) && Distinct(held)
    ensures BatchClosed(idOf, ys, steps, n, asked, Fresh(held, asked, limit))
  {
    hide IsRun, Depends, Before, Fresh, FreshAll;
    var all, batch := FreshAll(held, asked), Fresh(held, asked, limit);
    FreshIsPrefix(held, asked, limit);
    FreshKeepsOrder(held, asked);
    forall a, b | Depends(idOf, ys, steps, n, a, b) && b in batch
      ensures a in batch || a.seqNo <= Cursor(asked, a.deviceId)
    {
      DependsFacts(idOf, devices, ys, steps, n, a, b);
      var j :| 0 <= j < |batch| && batch[j] == b;
      assert all[j] == b && b in all;
      if a.seqNo > Cursor(asked, a.deviceId) {
        assert a in held && a in all;
        var i :| 0 <= i < |all| && all[i] == a;
        SortsEarlier(all, i, j);
        assert batch[i] == a;
      }
    }
  }

  lemma SortsEarlier(s: seq<Event>, i: int, j: int)
    requires Ordered(s, Before) && 0 <= i < |s| && 0 <= j < |s| && Before(s[i], s[j])
    ensures i < j
  {
    hide Less;
    LessLaws(s[i].deviceId, s[i].deviceId, s[i].deviceId);
  }

  // -- delivering: what is appended comes from the batch

  lemma {:induction false} AppliedFrom(idOf: IdHash, s: State, events: seq<Event>, now: int, x: Event)
    requires x in ApplyAll(idOf, s, events, now).0.events
    ensures x in s.events || exists raw :: raw in events && x == Named(idOf, raw)
    decreases |events|
  {
    hide Named;
    if events != [] {
      var init, last := events[..|events| - 1], events[|events| - 1];
      var t := ApplyAll(idOf, s, init, now).0;
      if x in t.events {
        AppliedFrom(idOf, s, init, now, x);
        if x !in s.events {
          var raw :| raw in init && x == Named(idOf, raw);
          assert raw in events;
        }
      } else {
        assert last in events && x == Named(idOf, last);
      }
    }
  }

  lemma SavedHolds(events: seq<Event>, x: Event)
    requires x in PrunedEvents(events)
    ensures x in events
  {
    hide Sort;
    SameElements(events, Sort(events, Before));
    assert x in Elements(Sort(events, Before));
  }

  lemma DeliveredFrom(idOf: IdHash, logs: Logs, s: State, b: Batch, now: int, s': State, applied: nat, x: Event)
    requires LogsOk(logs) && ApplyStep(idOf, s, b, now, s', applied) && x in s'.events
    requires forall i | 0 <= i < |b.events| :: Logged(logs, b.events[i])
    ensures x in s.events || x in b.events
  {
    hide PrunedEvents, PrunedSeen, ApplyAll, LogsOk, Logged, Named;
    SavedHolds(ApplyAll(idOf, s, b.events, now).0.events, x);
    AppliedFrom(idOf, s, b.events, now, x);
    if x !in s.events {
      var raw :| raw in b.events && x == Named(idOf, raw);
      var i :| 0 <= i < |b.events| && b.events[i] == raw;
      NamedLogged(idOf, logs, raw);
    }
  }

  lemma DeliveredIsClosed(idOf: IdHash, devices: set<string>, ys: seq<System>, steps: seq<Step>, n: int)
    requires IsRun(idOf, devices, ys, steps) && 0 <= n < |steps| && steps[n].Deliver? && AllClosed(idOf, ys, steps, n)
    requires steps[n].flight.target in ys[n + 1].replicas
    ensures Closed(idOf, ys, steps, n + 1, ys[n + 1].replicas[steps[n].flight.target].events)
  {
    hide Depends, Logged, Continues, LogsOk, ApplyStep, WithinLimit, AtMost;
    var y, y', f, now := ys[n], ys[n + 1], steps[n].flight, steps[n].now;
    assert Next(idOf, y, steps[n], y');
    RunKeeps(idOf, devices, ys, steps, n);
    RunKeeps(idOf, devices, ys, steps, n + 1);
    var s, s' := y.replicas[f.target], y'.replicas[f.target];
    assert ReplicaOk(y.logs, f.target, s) && FlightOk(y, f) && WithinLimit(y'.logs) && ReplicaOk(y'.logs, f.target, s');
    ReceiverKeeps(idOf, y.logs, f.target, s, f.asked, f.batch, now, s', steps[n].applied);
    forall a, b | Depends(idOf, ys, steps, n + 1, a, b) && b in s'.events ensures a in s'.events {
      DeliveredHolds(idOf, devices, ys, steps, n, s, s', a, b);
    }
  }

  lemma DeliveredHolds(idOf: IdHash, devices: set<string>, ys: seq<System>, steps: seq<Step>, n: int, s: State,
                       s': State, a: Event, b: Event)
    requires IsRun(idOf, devices, ys, steps) && 0 <= n < |steps| && steps[n].Deliver?
    requires var f := steps[n].flight;
      && Closed(idOf, ys, steps, n, s.events) && BatchClosed(idOf, ys, steps, n, f.asked, f.batch.events)
      && HoldsPrefixes(ys[n].logs, s) && HoldsPrefixes(ys[n].logs, s') && LogsOk(ys[n].logs)
      && Continues(ys[n].logs, f.asked, f.batch.events) && AtMost(f.asked, s.cursors) && AtMost(s.cursors, s'.cursors)
      && ApplyStep(idOf, s, f.batch, steps[n].now, s', steps[n].applied)
      && forall i | 0 <= i < |f.batch.events| :: Covered(s', f.batch.events[i])
    requires Depends(idOf, ys, steps, n + 1, a, b) && b in s'.events
    ensures a in s'.events
  {
    hide IsRun, Depends, Logged, LogsOk, ApplyStep, HasPredecessor;
    RunShape(idOf, devices, ys, steps);
    var f, logs := steps[n].flight, ys[n].logs;
    assert Logged(logs, b);
    OldDepends(idOf, devices, ys, steps, n, a, b);
    DependsFacts(idOf, devices, ys, steps, n, a, b);
    DeliveredFrom(idOf, logs, s, f.batch, steps[n].now, s', steps[n].applied, b);
    assert Covered(s', a);
  }

  // -- recording: the new event depends on what its replica holds, and no other replica holds it

  lemma RecordedHeld(idOf: IdHash, y: System, step: Step, y': System)
    requires SystemOk(y) && SystemOk(y') && Next(idOf, y, step, y') && step.Record?
    ensures var d := step.device;
      && d in y.replicas && d in y'.replicas
      && var ev := RecordedEvent(idOf, y.replicas[d], step.kind, step.payload, step.now);
         (forall x | x in y.replicas[d].events :: x in y'.replicas[d].events)
         && forall x | x in y'.replicas[d].events :: x in y.replicas[d].events || x == ev
  {
    hide LogsOk, Logged, AskOk, FlightOk, RecordedEvent, RecordStep, ReplicaOk;
    var d, s, s' := step.device, y.replicas[step.device], y'.replicas[step.device];
    assert ReplicaOk(y.logs, d, s) && ReplicaOk(y'.logs, d, s');
    RecordAddsOne(idOf, s, step.kind, step.payload, step.expiry, step.now, s');
    forall x | x in s.events ensures x in s'.events {
      HeldIsLogged(y.logs, d, s);
      StepKeepsLogged(idOf, y, step, y', x);
      CursorStays(idOf, y.logs, y'.logs, d, s, step.kind, step.payload, step.expiry, step.now, s', x);
    }
  }

  lemma RecordAddsOne(idOf: IdHash, s: State, kind: string, payload: seq<bv8>, expiry: int, now: int, s': State)
    requires RecordStep(idOf, s, kind, payload, expiry, now, s')
    ensures var ev := RecordedEvent(idOf, s, kind, payload, now);
      forall x | x in s'.events :: x in s.events || x == ev
  {
    hide RecordedEvent, PrunedEvents, PrunedSeen;
    var ev := RecordedEvent(idOf, s, kind, payload, now);
    forall x | x in s'.events ensures x in s.events || x == ev {
      SavedHolds(s.events + [ev], x);
    }
  }

  lemma CursorStays(idOf: IdHash, logs: Logs, logs': Logs, d: string, s: State, kind: string, payload: seq<bv8>,
                    expiry: int, now: int, s': State, x: Event)
    requires RecordStep(idOf, s, kind, payload, expiry, now, s') && ReplicaOk(logs, d, s) && ReplicaOk(logs', d, s')
    requires x in s.events && Logged(logs', x)
    ensures x in s'.events
  {
    hide LogOf, Logged, PrunedEvents, PrunedSeen, Tracks, Before;
    OwnLog(logs, d, s);
    assert Covered(s, x);
    assert Covered(s', x);
  }

  lemma RecordedIsClosed(idOf: IdHash, devices: set<string>, ys: seq<System>, steps: seq<Step>, n: int)
    requires IsRun(idOf, devices, ys, steps) && 0 <= n < |steps| && steps[n].Record? && AllClosed(idOf, ys, steps, n)
    requires steps[n].device in ys[n + 1].replicas
    ensures Closed(idOf, ys, steps, n + 1, ys[n + 1].replicas[steps[n].device].events)
  {
    hide Depends, Logged, LogsOk, RecordStep, RecordedEvent, WithinLimit, AskOk, FlightOk, ReplicaOk;
    var y, y', d := ys[n], ys[n + 1], steps[n].device;
    assert Next(idOf, y, steps[n], y');
    RunKeeps(idOf, devices, ys, steps, n);
    RunKeeps(idOf, devices, ys, steps, n + 1);
    RecordedHeld(idOf, y, steps[n], y');
    RecordedIsNew(idOf, y, steps[n], y');
    var s, s' := y.replicas[d], y'.replicas[d];
    var ev := RecordedEvent(idOf, s, steps[n].kind, steps[n].payload, steps[n].now);
    forall a, b | Depends(idOf, ys, steps, n + 1, a, b) && b in s'.events ensures a in s'.events {
      DependsMore(idOf, ys, steps, n, a, b);
      if Depends(idOf, ys, steps, n, a, b) {
        DependsFacts(idOf, devices, ys, steps, n, a, b);
        assert b in s.events;
        assert a in s.events;
      }
    }
  }

  lemma HeldIsLogged(logs: Logs, d: string, s: State)
    requires ReplicaOk(logs, d, s)
    ensures (forall ev | ev in s.events :: Logged(logs, ev)) && Ordered(s.events, Before) && Distinct(s.events)
  {
    hide Logged, Before;
  }

  lemma SentIsLogged(y: System, f: Flight)
    requires FlightOk(y, f)
    ensures forall ev | ev in f.batch.events :: Logged(y.logs, ev)
  {
    hide Logged, AskOk, HasPredecessor;
    forall ev | ev in f.batch.events ensures Logged(y.logs, ev) {
      var i :| 0 <= i < |f.batch.events| && f.batch.events[i] == ev;
    }
  }

  // ---------------------------------------------------------------- runs

  lemma StepKeepsClosed(idOf: IdHash, devices: set<string>, ys: seq<System>, steps: seq<Step>, n: int)
    requires IsRun(idOf, devices, ys, steps) && 0 <= n < |steps| && AllClosed(idOf, ys, steps, n)
    ensures AllClosed(idOf, ys, steps, n + 1)
  {
    hide Closed, BatchClosed, WithinLimit, LogsOk, ReplicaOk, AskOk, FlightOk, RecordStep, ApplyStep, RecordedEvent,
      Logged, Start, BatchOf;
    var y, y', step := ys[n], ys[n + 1], steps[n];
    assert Next(idOf, y, step, y');
    RunKeeps(idOf, devices, ys, steps, n);
    forall d | d in y'.replicas ensures Closed(idOf, ys, steps, n + 1, y'.replicas[d].events) {
      if step.Record? && d == step.device {
        RecordedIsClosed(idOf, devices, ys, steps, n);
      } else if step.Deliver? && d == step.flight.target {
        DeliveredIsClosed(idOf, devices, ys, steps, n);
      } else {
        assert d in y.replicas && y'.replicas[d] == y.replicas[d];
        HeldIsLogged(y.logs, d, y.replicas[d]);
        ClosedStays(idOf, devices, ys, steps, n, y.replicas[d].events);
      }
    }
    forall f | f in y'.flights ensures BatchClosed(idOf, ys, steps, n + 1, f.asked, f.batch.events) {
      if f in y.flights {
        SentIsLogged(y, f);
        BatchClosedStays(idOf, devices, ys, steps, n, f.asked, f.batch.events);
      } else {
        BuiltIsClosed(idOf, devices, ys, steps, n, f);
      }
    }
  }

  lemma BuiltIsClosed(idOf: IdHash, devices: set<string>, ys: seq<System>, steps: seq<Step>, n: int, f: Flight)
    requires IsRun(idOf, devices, ys, steps) && 0 <= n < |steps| && AllClosed(idOf, ys, steps, n)
    requires steps[n].Build? && f in ys[n + 1].flights && f !in ys[n].flights
    ensures BatchClosed(idOf, ys, steps, n + 1, f.asked, f.batch.events)
  {
    hide Closed, BatchClosed, WithinLimit, LogsOk, ReplicaOk, AskOk, Logged, Start, Fresh;
    var y, step := ys[n], steps[n];
    assert Next(idOf, y, step, ys[n + 1]);
    RunKeeps(idOf, devices, ys, steps, n);
    RunKeeps(idOf, devices, ys, steps, n + 1);
    var s := y.replicas[step.source];
    HeldIsLogged(y.logs, step.source, s);
    FreshIsClosed(idOf, devices, ys, steps, n, s.events, step.ask.1, LimitOf(step.limit));
    assert FlightOk(ys[n + 1], f);
    SentIsLogged(ys[n + 1], f);
    BatchClosedStays(idOf, devices, ys, steps, n, f.asked, f.batch.events);
  }

  /** In every run each replica is causally closed. */
  lemma {:induction false} RunIsClosed(idOf: IdHash, devices: set<string>, ys: seq<System>, steps: seq<Step>, n: nat)
    requires IsRun(idOf, devices, ys, steps) && n < |ys|
    ensures AllClosed(idOf, ys, steps, n)
  {
    hide IsRun, AllClosed;
    RunShape(idOf, devices, ys, steps);
    if n == 0 {
      StartsClosed(idOf, devices, ys, steps);
    } else {
      RunIsClosed(idOf, devices, ys, steps, n - 1);
      StepKeepsClosed(idOf, devices, ys, steps, n - 1);
    }
  }

  lemma StartsClosed(idOf: IdHash, devices: set<string>, ys: seq<System>, steps: seq<Step>)
    requires IsRun(idOf, devices, ys, steps)
    ensures AllClosed(idOf, ys, steps, 0)
  {
    hide Knew, Next, WithinLimit;
  }

  // ---------------------------------------------------------------- the order extends happened-before

  /** Along a causal chain Lamport times rise. */
  lemma {:induction false} ChainRises(idOf: IdHash, devices: set<string>, ys: seq<System>, steps: seq<Step>,
                                      chain: seq<Event>)
    requires IsRun(idOf, devices, ys, steps) && IsCausal(idOf, ys, steps, chain)
    ensures chain[0].lamport < chain[|chain| - 1].lamport
    decreases |chain|
  {
    hide IsRun, Depends;
    var k := |chain| - 1;
    RunShape(idOf, devices, ys, steps);
    assert Depends(idOf, ys, steps, |steps|, chain[k - 1], chain[k]);
    DependsFacts(idOf, devices, ys, steps, |steps|, chain[k - 1], chain[k]);
    if k > 1 {
      ChainRises(idOf, devices, ys, steps, chain[..k]);
    }
  }

  /** A replica that holds the last event of a causal chain holds the first. */
  lemma {:induction false} ChainIsHeld(idOf: IdHash, devices: set<string>, ys: seq<System>, steps: seq<Step>,
                                       chain: seq<Event>, n: nat, d: string)
    requires IsRun(idOf, devices, ys, steps) && IsCausal(idOf, ys, steps, chain)
    requires n < |ys| && d in ys[n].replicas && chain[|chain| - 1] in ys[n].replicas[d].events
    ensures chain[0] in ys[n].replicas[d].events
    decreases |chain|
  {
    hide IsRun, Depends, Logged;
    var k, held := |chain| - 1, ys[n].replicas[d].events;
    RunIsClosed(idOf, devices, ys, steps, n);
    LoggedAt(idOf, devices, ys, steps, n, d);
    assert Depends(idOf, ys, steps, |steps|, chain[k - 1], chain[k]);
    DependsEarlier(idOf, devices, ys, steps, n, chain[k - 1], chain[k]);
    assert chain[k - 1] in held;
    if k > 1 {
      ChainIsHeld(idOf, devices, ys, steps, chain[..k], n, d);
    }
  }

  lemma LoggedAt(idOf: IdHash, devices: set<string>, ys: seq<System>, steps: seq<Step>, n: nat, d: string)
    requires IsRun(idOf, devices, ys, steps) && n < |ys| && d in ys[n].replicas
    ensures (forall ev | ev in ys[n].replicas[d].events :: Logged(ys[n].logs, ev))
    ensures Ordered(ys[n].replicas[d].events, Before)
  {
    hide IsRun, LogsOk, ReplicaOk, AskOk, FlightOk, Logged, Before;
    RunKeeps(idOf, devices, ys, steps, n);
    HeldIsLogged(ys[n].logs, d, ys[n].replicas[d]);
  }

  /**
   * Causal consistency: whenever, in any run, an event happened before another, directly or through any chain of
   * events recorded on any replicas, every replica that comes to hold the later one holds the earlier one too,
   * at an earlier position.
   */
  lemma OrderExtendsHappenedBefore(idOf: IdHash, devices: set<string>, ys: seq<System>, steps: seq<Step>,
                                   chain: seq<Event>, n: nat, d: string, j: int)
    requires IsRun(idOf, devices, ys, steps) && IsCausal(idOf, ys, steps, chain)
    requires n < |ys| && d in ys[n].replicas && 0 <= j < |ys[n].replicas[d].events|
    requires ys[n].replicas[d].events[j] == chain[|chain| - 1]
    ensures Before(chain[0], chain[|chain| - 1])
    ensures exists i | 0 <= i < j :: ys[n].replicas[d].events[i] == chain[0]
  {
    hide IsRun, Depends, Logged;
    var held := ys[n].replicas[d].events;
    ChainRises(idOf, devices, ys, steps, chain);
    ChainIsHeld(idOf, devices, ys, steps, chain, n, d);
    LoggedAt(idOf, devices, ys, steps, n, d);
    var i :| 0 <= i < |held| && held[i] == chain[0];
    SortsEarlier(held, i, j);
  }
}
