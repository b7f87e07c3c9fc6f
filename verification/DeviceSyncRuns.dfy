/** Runs of many replicas that record, ask, build and deliver in any order. */
module DeviceSyncRuns {
  import opened DeviceSync
  import opened Sorting
  import opened Strings

  type Logs = map<string, seq<Event>>

  /** Everything a device ever recorded; device `d` recorded event number `i + 1` as `logs[d][i]`. */
  function LogOf(logs: Logs, d: string): (r: seq<Event>) {
    if d in logs then logs[d] else []
  }

  ghost predicate Logged(logs: Logs, ev: Event) {
    1 <= ev.seqNo <= |LogOf(logs, ev.deviceId)| && LogOf(logs, ev.deviceId)[ev.seqNo - 1] == ev
  }

  ghost predicate LogsOk(logs: Logs) {
    && (forall d, i | d in logs && 0 <= i < |logs[d]| ::
          logs[d][i].deviceId == d && logs[d][i].seqNo == i + 1 && TrimSpace(logs[d][i].id) != "")
    && (forall d, i, j | d in logs && 0 <= i < j < |logs[d]| :: logs[d][i].lamport < logs[d][j].lamport)
    && (forall a, b | Logged(logs, a) && Logged(logs, b) && a.id == b.id :: a == b)
  }

  ghost predicate Covered(s: State, ev: Event) {
    ev.seqNo <= Cursor(s.cursors, ev.deviceId)
  }

  /** The replica holds, for each device, exactly the prefix 1..cursor of its log, each event once. */
  ghost predicate HoldsPrefixes(logs: Logs, s: State) {
    && (forall d: string :: Cursor(s.cursors, d) <= |LogOf(logs, d)|)
    && (forall ev :: ev in s.events <==> Logged(logs, ev) && Covered(s, ev))
    && Distinct(s.events)
  }

  /** Lamport time dominates what is held, and only covered events are remembered as seen. */
  ghost predicate Tracks(logs: Logs, s: State) {
    && (forall ev | ev in s.events :: ev.lamport <= s.lamport)
    && (forall id | id in s.seen :: SeenCovered(logs, s, id))
  }

  ghost predicate SeenCovered(logs: Logs, s: State, id: string) {
    exists ev :: Logged(logs, ev) && ev.id == id && Covered(s, ev)
  }

  ghost predicate Owns(logs: Logs, d: string, s: State) {
    s.localDevice == d && s.nextSeq == |LogOf(logs, d)| == Cursor(s.cursors, d)
  }

  ghost predicate ReplicaOk(logs: Logs, d: string, s: State) {
    HoldsPrefixes(logs, s) && Tracks(logs, s) && Owns(logs, d, s) && Ordered(s.events, Before)
  }

  /** A batch built for cursors `asked`: logged events that continue those cursors without a gap. */
  ghost predicate Continues(logs: Logs, asked: Cursors, events: seq<Event>) {
    && (forall i | 0 <= i < |events| :: Logged(logs, events[i]) && events[i].seqNo > Cursor(asked, events[i].deviceId))
    && (forall i | 0 <= i < |events| :: HasPredecessor(asked, events, i))
    && (forall i, j | 0 <= i < j < |events| && events[i].deviceId == events[j].deviceId ::
         events[i].seqNo < events[j].seqNo)
  }

  ghost predicate HasPredecessor(asked: Cursors, events: seq<Event>, i: int)
    requires 0 <= i < |events|
  {
    events[i].seqNo == Cursor(asked, events[i].deviceId) + 1 ||
    exists j | 0 <= j < i :: events[j].deviceId == events[i].deviceId && events[j].seqNo == events[i].seqNo - 1
  }

  ghost predicate AtMost(a: Cursors, b: Cursors) {
    forall d: string :: Cursor(a, d) <= Cursor(b, d)
  }

  // ---------------------------------------------------------------- applying a batch

  lemma CoveredOnce(logs: Logs, s: State, ev: Event)
    requires LogsOk(logs) && Tracks(logs, s) && Logged(logs, ev) && !Covered(s, ev)
    ensures ev.id !in s.seen
  {
    assert ev.id in s.seen ==> SeenCovered(logs, s, ev.id);
  }

  /** `t` is `s` with the next event of a device appended. */
  ghost predicate Extended(logs: Logs, s: State, ev: Event, t: State) {
    && Logged(logs, ev) && ev.seqNo == Cursor(s.cursors, ev.deviceId) + 1
    && t.cursors == s.cursors[ev.deviceId := ev.seqNo] && t.events == s.events + [ev]
    && t.lamport >= s.lamport && t.lamport >= ev.lamport
    && t.seen.Keys == s.seen.Keys + {ev.id}
  }

  lemma ExtendKeepsPrefixes(logs: Logs, s: State, ev: Event, t: State)
    requires HoldsPrefixes(logs, s) && Extended(logs, s, ev, t)
    ensures HoldsPrefixes(logs, t)
  {
    assert forall d: string :: Cursor(t.cursors, d) == if d == ev.deviceId then ev.seqNo else Cursor(s.cursors, d);
    assert ev !in s.events;
    forall x
      ensures x in t.events <==> Logged(logs, x) && Covered(t, x)
    {
      assert x in t.events <==> x in s.events || x == ev;
      if Logged(logs, x) && x.deviceId == ev.deviceId && x.seqNo == ev.seqNo {
        assert x == ev;
      }
    }
  }

  lemma ExtendKeepsTracks(logs: Logs, s: State, ev: Event, t: State)
    requires Tracks(logs, s) && Extended(logs, s, ev, t)
    ensures Tracks(logs, t)
  {
    hide Logged;
    forall id | id in t.seen
      ensures SeenCovered(logs, t, id)
    {
      if id == ev.id {
        assert Logged(logs, ev) && Covered(t, ev);
      } else {
        assert SeenCovered(logs, s, id);
        var x :| Logged(logs, x) && x.id == id && Covered(s, x);
        assert Covered(t, x);
      }
    }
    assert forall x | x in t.events :: x in s.events || x == ev;
  }

  lemma NamedLogged(idOf: IdHash, logs: Logs, ev: Event)
    requires LogsOk(logs) && Logged(logs, ev)
    ensures Named(idOf, ev) == ev
  {
    assert ev.deviceId in logs;
  }

  /** One event of a gap-free batch: skipped if covered, appended if it is the next one. */
  lemma ApplyOneKeeps(idOf: IdHash, logs: Logs, s: State, ev: Event, now: int)
    requires LogsOk(logs) && HoldsPrefixes(logs, s) && Tracks(logs, s)
    requires Logged(logs, ev) && ev.seqNo <= Cursor(s.cursors, ev.deviceId) + 1
    ensures var (t, one) := ApplyOne(idOf, s, ev, now);
      && HoldsPrefixes(logs, t) && Tracks(logs, t)
      && t.localDevice == s.localDevice && t.nextSeq == s.nextSeq && t.outbox == s.outbox
      && (one <==> !Covered(s, ev))
      && t.cursors == (if one then s.cursors[ev.deviceId := ev.seqNo] else s.cursors)
      && t.events == (if one then s.events + [ev] else s.events)
  {
    hide HoldsPrefixes, LogsOk, TrimSpace;
    NamedLogged(idOf, logs, ev);
    var (t, one) := ApplyOne(idOf, s, ev, now);
    if Covered(s, ev) {
      if ev.id !in s.seen {
        SeenMore(logs, s, ev, t);
      }
    } else {
      CoveredOnce(logs, s, ev);
      ExtendKeepsPrefixes(logs, s, ev, t);
      ExtendKeepsTracks(logs, s, ev, t);
    }
  }

  lemma SeenMore(logs: Logs, s: State, ev: Event, t: State)
    requires HoldsPrefixes(logs, s) && Tracks(logs, s) && Logged(logs, ev) && Covered(s, ev)
    requires t == s.(seen := t.seen) && t.seen.Keys == s.seen.Keys + {ev.id}
    ensures HoldsPrefixes(logs, t) && Tracks(logs, t)
  {
    forall id | id in t.seen
      ensures SeenCovered(logs, t, id)
    {
      if id == ev.id {
        assert Logged(logs, ev) && Covered(t, ev);
      } else {
        assert SeenCovered(logs, s, id);
        var x :| Logged(logs, x) && x.id == id && Covered(s, x);
        assert Covered(t, x);
      }
    }
  }

  /** Applying any gap-free batch for earlier cursors keeps the prefixes and reaches every event of the batch. */
  lemma {:induction false} ApplyAllKeeps(idOf: IdHash, logs: Logs, s: State, asked: Cursors, events: seq<Event>,
                                         now: int)
    requires LogsOk(logs) && HoldsPrefixes(logs, s) && Tracks(logs, s)
    requires Continues(logs, asked, events) && AtMost(asked, s.cursors)
    ensures var (t, n) := ApplyAll(idOf, s, events, now);
      && HoldsPrefixes(logs, t) && Tracks(logs, t)
      && t.localDevice == s.localDevice && t.nextSeq == s.nextSeq && t.outbox == s.outbox
      && AtMost(s.cursors, t.cursors)
      && (forall i | 0 <= i < |events| :: Covered(t, events[i]))
      && (forall d: string :: MovedBy(s, t, events, d))
      && |t.events| == |s.events| + n
  {
    hide HoldsPrefixes, Tracks, LogsOk, ApplyOne, Logged;
    if events != [] {
      var k := |events| - 1;
      var init, last := events[..k], events[k];
      ContinuesPrefix(logs, asked, events, k);
      ApplyAllKeeps(idOf, logs, s, asked, init, now);
      var (t, n) := ApplyAll(idOf, s, init, now);
      AtMostTrans(asked, s.cursors, t.cursors);
      NextInLine(logs, asked, t, events, k);
      ApplyOneKeeps(idOf, logs, t, last, now);
      var (u, one) := ApplyOne(idOf, t, last, now);
      AfterOne(s, t, u, one, events, k);
    }
  }

  /** The cursor of `d` stayed, or was moved to an event of the batch. */
  ghost predicate MovedBy(s: State, t: State, events: seq<Event>, d: string) {
    || Cursor(t.cursors, d) == Cursor(s.cursors, d)
    || exists i | 0 <= i < |events| :: events[i].deviceId == d && events[i].seqNo == Cursor(t.cursors, d)
  }

  lemma ContinuesPrefix(logs: Logs, asked: Cursors, events: seq<Event>, k: nat)
    requires Continues(logs, asked, events) && k <= |events|
    ensures Continues(logs, asked, events[..k])
  {
    hide Logged;
    var init := events[..k];
    forall i | 0 <= i < k ensures HasPredecessor(asked, init, i) {
      assert HasPredecessor(asked, events, i);
      if init[i].seqNo != Cursor(asked, init[i].deviceId) + 1 {
        var j :| 0 <= j < i && events[j].deviceId == events[i].deviceId && events[j].seqNo == events[i].seqNo - 1;
        assert init[j] == events[j];
      }
    }
  }

  lemma AfterOne(s: State, t: State, u: State, one: bool, events: seq<Event>, k: nat)
    requires k < |events| && AtMost(s.cursors, t.cursors)
    requires forall i | 0 <= i < k :: Covered(t, events[..k][i])
    requires forall d: string :: MovedBy(s, t, events[..k], d)
    requires one <==> !Covered(t, events[k])
    requires u.cursors == if one then t.cursors[events[k].deviceId := events[k].seqNo] else t.cursors
    ensures AtMost(s.cursors, u.cursors)
    ensures forall i | 0 <= i < |events| && i <= k :: Covered(u, events[i])
    ensures forall d: string :: MovedBy(s, u, events, d)
  {
    forall i | 0 <= i < k ensures Covered(t, events[i]) {
      assert Covered(t, events[..k][i]);
    }
    forall d: string
      ensures MovedBy(s, u, events, d)
    {
      assert MovedBy(s, t, events[..k], d);
      if one && d == events[k].deviceId {
        assert events[k].seqNo == Cursor(u.cursors, d);
      } else if Cursor(t.cursors, d) != Cursor(s.cursors, d) {
        var i :| 0 <= i < k && events[..k][i].deviceId == d && events[..k][i].seqNo == Cursor(t.cursors, d);
        assert events[i].deviceId == d;
      }
    }
  }

  // ---------------------------------------------------------------- building a batch

  /** All events that the peer's cursors do not cover, in held order. */
  function FreshAll(events: seq<Event>, peer: Cursors): (r: seq<Event>)
    ensures forall ev :: ev in r <==> ev in events && ev.seqNo > Cursor(peer, ev.deviceId)
  {
    if events == [] then []
    else
      var rest := FreshAll(events[1..], peer);
      assert forall ev :: ev in events <==> ev == events[0] || ev in events[1..];
      if events[0].seqNo <= Cursor(peer, events[0].deviceId) then rest else [events[0]] + rest
  }

  lemma {:induction false} FreshIsPrefix(events: seq<Event>, peer: Cursors, limit: nat)
    ensures var all := FreshAll(events, peer);
      Fresh(events, peer, limit) == all[..if limit < |all| then limit else |all|]
    decreases events
  {
    hide Cursor;
    if limit > 0 && events != [] {
      var tail := events[1..];
      var rest := FreshAll(tail, peer);
      if events[0].seqNo <= Cursor(peer, events[0].deviceId) {
        FreshIsPrefix(tail, peer, limit);
      } else {
        FreshIsPrefix(tail, peer, limit - 1);
        var k := if limit - 1 < |rest| then limit - 1 else |rest|;
        assert ([events[0]] + rest)[..k + 1] == [events[0]] + rest[..k];
      }
    }
  }

  lemma {:induction false} FreshKeepsOrder(events: seq<Event>, peer: Cursors)
    requires Ordered(events, Before) && Distinct(events)
    ensures Ordered(FreshAll(events, peer), Before) && Distinct(FreshAll(events, peer))
  {
    hide Before;
    if events != [] {
      var tail := events[1..];
      FreshKeepsOrder(tail, peer);
      var rest := FreshAll(tail, peer);
      forall i | 0 <= i < |rest| ensures !Before(rest[i], events[0]) && rest[i] != events[0] {
        assert rest[i] in tail;
        var k :| 0 <= k < |tail| && tail[k] == rest[i];
        assert events[k + 1] == rest[i];
      }
      PrependKeepsOrder(events[0], rest);
    }
  }

  lemma PrependKeepsOrder(x: Event, rest: seq<Event>)
    requires Ordered(rest, Before) && Distinct(rest)
    requires forall i | 0 <= i < |rest| :: !Before(rest[i], x) && rest[i] != x
    ensures Ordered([x] + rest, Before) && Distinct([x] + rest)
  {
    hide Before;
  }

  lemma LoggedOrder(logs: Logs, a: Event, b: Event)
    requires LogsOk(logs) && Logged(logs, a) && Logged(logs, b) && a.deviceId == b.deviceId
    ensures a.seqNo < b.seqNo ==> Before(a, b)
    ensures a.seqNo == b.seqNo ==> a == b
  {
    hide Less;
    assert a.deviceId in logs;
  }

  /** The batch for any cursors is gap-free. */
  lemma BatchContinues(logs: Logs, s: State, peer: Cursors, limit: nat)
    requires LogsOk(logs) && HoldsPrefixes(logs, s) && Ordered(s.events, Before)
    ensures Continues(logs, peer, Fresh(s.events, peer, limit))
  {
    hide LogsOk, Before, Logged;
    var all, events := FreshAll(s.events, peer), Fresh(s.events, peer, limit);
    FreshIsPrefix(s.events, peer, limit);
    FreshKeepsOrder(s.events, peer);
    forall i | 0 <= i < |events| ensures events[i] == all[i] && events[i] in all {
      assert all[i] in all;
    }
    forall i, j | 0 <= i < j < |events| && events[i].deviceId == events[j].deviceId
      ensures events[i].seqNo < events[j].seqNo
    {
      LoggedOrder(logs, events[i], events[j]);
      LoggedOrder(logs, events[j], events[i]);
      assert !Before(all[j], all[i]) && all[i] != all[j];
    }
    forall i | 0 <= i < |events| ensures HasPredecessor(peer, events, i) {
      PredecessorSent(logs, s, peer, all, |events|, i);
      assert events == all[..|events|];
    }
  }

  /** The predecessor of a fresh event is fresh too, unless it is covered, and comes earlier. */
  lemma PredecessorSent(logs: Logs, s: State, peer: Cursors, all: seq<Event>, n: nat, i: int)
    requires LogsOk(logs) && HoldsPrefixes(logs, s) && all == FreshAll(s.events, peer) && Ordered(all, Before)
    requires 0 <= i < n <= |all|
    ensures HasPredecessor(peer, all[..n], i)
  {
    hide LogsOk, Before, Logged, FreshAll;
    var ev := all[i];
    assert ev in all;
    if ev.seqNo != Cursor(peer, ev.deviceId) + 1 {
      var pe := Predecessor(logs, s, ev);
      assert pe in all;
      var j :| 0 <= j < |all| && all[j] == pe;
      LoggedOrder(logs, pe, ev);
      assert j != i && !(j > i);
      assert all[..n][j] == pe;
    }
  }

  lemma Predecessor(logs: Logs, s: State, ev: Event) returns (pe: Event)
    requires LogsOk(logs) && HoldsPrefixes(logs, s) && ev in s.events && ev.seqNo > 1
    ensures pe in s.events && pe.deviceId == ev.deviceId && pe.seqNo == ev.seqNo - 1 && Logged(logs, pe)
  {
    assert Logged(logs, ev) && ev.deviceId in logs;
    pe := logs[ev.deviceId][ev.seqNo - 2];
    assert Logged(logs, pe) && Covered(s, pe);
  }

  // ---------------------------------------------------------------- saving

  ghost function AllLogged(logs: Logs): (r: set<Event>) {
    set d, i | d in logs && 0 <= i < |logs[d]| :: logs[d][i]
  }

  /** The event count stays within the truncation limit. */
  ghost predicate WithinLimit(logs: Logs) {
    |AllLogged(logs)| <= MAX_EVENTS
  }

  lemma HeldWithinLimit(logs: Logs, s: State)
    requires HoldsPrefixes(logs, s) && WithinLimit(logs)
    ensures |s.events| <= MAX_EVENTS
  {
    DistinctSize(s.events);
    forall ev | ev in s.events ensures ev in AllLogged(logs) {
      assert Logged(logs, ev) && ev.deviceId in logs;
      assert logs[ev.deviceId][ev.seqNo - 1] == ev;
    }
    SubsetSize(Elements(s.events), AllLogged(logs));
  }

  /** Saving only sorts, as long as the event count is within the limit. */
  lemma SaveKeeps(logs: Logs, t: State, s': State)
    requires HoldsPrefixes(logs, t) && Tracks(logs, t) && WithinLimit(logs)
    requires s'.cursors == t.cursors && s'.lamport == t.lamport
    requires s'.events == PrunedEvents(t.events) && PrunedSeen(t.seen, s'.seen)
    ensures HoldsPrefixes(logs, s') && Tracks(logs, s') && Ordered(s'.events, Before)
  {
    hide HoldsPrefixes, Tracks, Before, WeakOrder, Distinct;
    HeldWithinLimit(logs, t);
    assert s'.events == Sort(t.events, Before);
    BeforeIsWeakOrder();
    SortOrdered(t.events, Before);
    RearrangedKeeps(logs, t, s');
  }

  lemma RearrangedKeeps(logs: Logs, t: State, s': State)
    requires HoldsPrefixes(logs, t) && Tracks(logs, t)
    requires s'.cursors == t.cursors && s'.lamport == t.lamport
    requires multiset(s'.events) == multiset(t.events) && s'.seen.Keys <= t.seen.Keys
    ensures HoldsPrefixes(logs, s') && Tracks(logs, s')
  {
    hide Logged;
    SameElements(t.events, s'.events);
    DistinctPermutation(t.events, s'.events);
    assert forall ev :: ev in s'.events <==> ev in Elements(t.events);
    forall id | id in s'.seen ensures SeenCovered(logs, s', id) {
      assert SeenCovered(logs, t, id);
      var x :| Logged(logs, x) && x.id == id && Covered(t, x);
      assert Covered(s', x);
    }
  }

  // ---------------------------------------------------------------- many replicas

  /** A batch in flight: built for the cursors that `target` had when it asked. */
  datatype Flight = Flight(target: string, asked: Cursors, batch: Batch)

  datatype System = System(replicas: map<string, State>, logs: Logs, asks: set<(string, Cursors)>, flights: set<Flight>)

  /** Every step any replica can take. Batches may be delivered late, repeatedly, out of order or never. */
  datatype Step =
    | Record(device: string, kind: string, payload: seq<bv8>, expiry: int, now: int)
    | Ask(device: string)
    | Build(source: string, ask: (string, Cursors), limit: int)
    | Deliver(flight: Flight, now: int, applied: nat)

  ghost predicate Next(idOf: IdHash, y: System, step: Step, y': System) {
    match step
    case Record(d, kind, payload, expiry, now) =>
      && d in y.replicas && CanRecord(y.replicas[d], kind, payload)
      && d in y'.replicas
      && RecordStep(idOf, y.replicas[d], kind, payload, expiry, now, y'.replicas[d])
      && var ev := RecordedEvent(idOf, y.replicas[d], kind, payload, now);
        && TrimSpace(ev.id) != "" && (forall x | Logged(y.logs, x) :: x.id != ev.id)
        && y' == y.(replicas := y.replicas[d := y'.replicas[d]], logs := y.logs[d := LogOf(y.logs, d) + [ev]])
    case Ask(d) =>
      d in y.replicas && y' == y.(asks := y.asks + {(d, y.replicas[d].cursors)})
    case Build(a, ask, limit) =>
      && a in y.replicas && ask in y.asks
      && y' == y.(flights := y.flights + {Flight(ask.0, ask.1, BatchOf(y.replicas[a], ask.1, limit))})
    case Deliver(f, now, applied) =>
      && f in y.flights && f.target in y.replicas && f.target in y'.replicas
      && ApplyStep(idOf, y.replicas[f.target], f.batch, now, y'.replicas[f.target], applied)
      && y' == y.(replicas := y.replicas[f.target := y'.replicas[f.target]])
  }

  ghost predicate AskOk(y: System, ask: (string, Cursors)) {
    ask.0 in y.replicas && AtMost(ask.1, y.replicas[ask.0].cursors)
  }

  ghost predicate FlightOk(y: System, f: Flight) {
    AskOk(y, (f.target, f.asked)) && Continues(y.logs, f.asked, f.batch.events)
  }

  ghost predicate SystemOk(y: System) {
    && LogsOk(y.logs)
    && (forall d | d in y.replicas :: ReplicaOk(y.logs, d, y.replicas[d]))
    && (forall ask | ask in y.asks :: AskOk(y, ask))
    && (forall f | f in y.flights :: FlightOk(y, f))
  }

  ghost function Start(devices: set<string>): (y: System) {
    System(map d | d in devices :: State(d, 0, 0, map[d := 0], map[], [], []), map[], {}, {})
  }

  lemma StartOk(devices: set<string>)
    ensures SystemOk(Start(devices))
  {
  }

  // -- recording

  lemma LogGrowth(logs: Logs, d: string, ev: Event, logs': Logs, x: Event)
    requires logs' == logs[d := LogOf(logs, d) + [ev]] && ev.deviceId == d && ev.seqNo == |LogOf(logs, d)| + 1
    ensures Logged(logs', x) <==> Logged(logs, x) || x == ev
    ensures forall e: string :: |LogOf(logs', e)| == |LogOf(logs, e)| + if e == d then 1 else 0
  {
  }

  lemma OtherReplicaKeeps(logs: Logs, d: string, ev: Event, logs': Logs, e: string, s: State)
    requires logs' == logs[d := LogOf(logs, d) + [ev]] && ev.deviceId == d && ev.seqNo == |LogOf(logs, d)| + 1
    requires e != d && ReplicaOk(logs, e, s)
    ensures ReplicaOk(logs', e, s)
  {
    hide Logged, Before, LogOf;
    forall x ensures Logged(logs', x) <==> Logged(logs, x) || x == ev {
      LogGrowth(logs, d, ev, logs', x);
    }
    LogGrowth(logs, d, ev, logs', ev);
    assert !Covered(s, ev);
    forall id | id in s.seen ensures SeenCovered(logs', s, id) {
      assert SeenCovered(logs, s, id);
    }
  }

  lemma ContinuesGrowth(logs: Logs, d: string, ev: Event, logs': Logs, asked: Cursors, events: seq<Event>)
    requires logs' == logs[d := LogOf(logs, d) + [ev]] && ev.deviceId == d && ev.seqNo == |LogOf(logs, d)| + 1
    requires Continues(logs, asked, events)
    ensures Continues(logs', asked, events)
  {
    forall i | 0 <= i < |events| ensures Logged(logs', events[i]) {
      LogGrowth(logs, d, ev, logs', events[i]);
    }
  }

  lemma LogsGrowth(logs: Logs, d: string, ev: Event, logs': Logs, s: State)
    requires LogsOk(logs) && ReplicaOk(logs, d, s)
    requires logs' == logs[d := LogOf(logs, d) + [ev]] && ev.deviceId == d && ev.seqNo == |LogOf(logs, d)| + 1
    requires ev.lamport > s.lamport && TrimSpace(ev.id) != "" && forall x | Logged(logs, x) :: x.id != ev.id
    ensures LogsOk(logs')
  {
    hide Before, TrimSpace, Logged, Tracks;
    forall a, b | Logged(logs', a) && Logged(logs', b) && a.id == b.id ensures a == b {
      LogGrowth(logs, d, ev, logs', a);
      LogGrowth(logs, d, ev, logs', b);
    }
    LamportTops(logs, d, s, ev.lamport);
  }

  /** The replica of a device dominates the Lamport times of its own log. */
  lemma LamportTops(logs: Logs, d: string, s: State, lamport: nat)
    requires LogsOk(logs) && ReplicaOk(logs, d, s) && lamport > s.lamport
    ensures forall i | 0 <= i < |LogOf(logs, d)| :: LogOf(logs, d)[i].lamport < lamport
  {
    hide Before, TrimSpace, SeenCovered;
    forall i | 0 <= i < |LogOf(logs, d)| ensures LogOf(logs, d)[i].lamport < lamport {
      var x := LogOf(logs, d)[i];
      assert d in logs && x == logs[d][i];
      assert Logged(logs, x) && Covered(s, x);
    }
  }

  /** The recording replica itself. */
  lemma RecorderKeeps(idOf: IdHash, logs: Logs, d: string, s: State, kind: string, payload: seq<bv8>, expiry: int,
                      now: int, s': State, logs': Logs)
    requires LogsOk(logs) && ReplicaOk(logs, d, s) && RecordStep(idOf, s, kind, payload, expiry, now, s')
    requires var ev := RecordedEvent(idOf, s, kind, payload, now);
      logs' == logs[d := LogOf(logs, d) + [ev]] && LogsOk(logs')
    requires WithinLimit(logs')
    ensures ReplicaOk(logs', d, s')
  {
    hide Logged, Before, LogsOk, PrunedEvents, PrunedSeen, WithinLimit, RecordedEvent;
    var ev := RecordedEvent(idOf, s, kind, payload, now);
    forall x ensures Logged(logs', x) <==> Logged(logs, x) || x == ev {
      LogGrowth(logs, d, ev, logs', x);
    }
    LogGrowth(logs, d, ev, logs', ev);
    var t := s.(cursors := s.cursors[d := ev.seqNo], events := s.events + [ev], lamport := ev.lamport,
                seen := s.seen[ev.id := now]);
    assert !Covered(s, ev);
    forall id | id in s.seen ensures SeenCovered(logs', s, id) {
      assert SeenCovered(logs, s, id);
    }
    assert HoldsPrefixes(logs', s) && Tracks(logs', s);
    ExtendKeepsPrefixes(logs', s, ev, t);
    ExtendKeepsTracks(logs', s, ev, t);
    SaveKeeps(logs', t, s');
  }

  /** The replica that receives a batch. */
  lemma ReceiverKeeps(idOf: IdHash, logs: Logs, d: string, s: State, asked: Cursors, b: Batch, now: int, s': State,
                      applied: nat)
    requires LogsOk(logs) && ReplicaOk(logs, d, s) && WithinLimit(logs)
    requires Continues(logs, asked, b.events) && AtMost(asked, s.cursors)
    requires ApplyStep(idOf, s, b, now, s', applied)
    ensures ReplicaOk(logs, d, s') && AtMost(s.cursors, s'.cursors)
    ensures forall i | 0 <= i < |b.events| :: Covered(s', b.events[i])
    ensures |s'.events| == |s.events| + applied
  {
    hide HoldsPrefixes, Tracks, LogsOk, Before, PrunedEvents, PrunedSeen, WithinLimit, ApplyAll, Continues;
    ApplyAllKeeps(idOf, logs, s, asked, b.events, now);
    var (t, n) := ApplyAll(idOf, s, b.events, now);
    SaveKeeps(logs, t, s');
    OwnCursor(logs, d, s, t);
    SaveLength(logs, t, s');
  }

  lemma SaveLength(logs: Logs, t: State, s': State)
    requires HoldsPrefixes(logs, t) && WithinLimit(logs) && s'.events == PrunedEvents(t.events)
    ensures |s'.events| == |t.events|
  {
    HeldWithinLimit(logs, t);
  }

  lemma OwnCursor(logs: Logs, d: string, s: State, t: State)
    requires Owns(logs, d, s) && HoldsPrefixes(logs, t) && AtMost(s.cursors, t.cursors)
    ensures Cursor(t.cursors, d) == |LogOf(logs, d)|
  {
  }

  // -- steps and runs

  /** Every step of every replica keeps the invariant of the whole system. */
  lemma StepKeeps(idOf: IdHash, y: System, step: Step, y': System)
    requires SystemOk(y) && Next(idOf, y, step, y') && WithinLimit(y'.logs)
    ensures SystemOk(y')
  {
    hide SystemOk, Next, WithinLimit;
    match step
    case Record(d, kind, payload, expiry, now) => RecordKeeps(idOf, y, step, y');
    case Ask(d) => AskKeeps(idOf, y, step, y');
    case Build(a, ask, limit) => BuildKeeps(idOf, y, step, y');
    case Deliver(f, now, applied) => DeliverKeeps(idOf, y, step, y');
  }

  lemma AskKeeps(idOf: IdHash, y: System, step: Step, y': System)
    requires SystemOk(y) && Next(idOf, y, step, y') && step.Ask?
    ensures SystemOk(y')
  {
    hide ReplicaOk, LogsOk, Continues;
    forall ask | ask in y'.asks ensures AskOk(y', ask) {
      assert ask in y.asks ==> AskOk(y, ask);
    }
    forall f | f in y'.flights ensures FlightOk(y', f) {
      assert FlightOk(y, f);
    }
  }

  lemma RecordKeeps(idOf: IdHash, y: System, step: Step, y': System)
    requires SystemOk(y) && Next(idOf, y, step, y') && WithinLimit(y'.logs) && step.Record?
    ensures SystemOk(y')
  {
    hide ReplicaOk, LogsOk, WithinLimit, Continues, RecordedEvent, LogOf, Logged;
    var d, s := step.device, y.replicas[step.device];
    var ev := RecordedEvent(idOf, s, step.kind, step.payload, step.now);
    assert ReplicaOk(y.logs, d, s);
    OwnLog(y.logs, d, s);
    LogsGrowth(y.logs, d, ev, y'.logs, s);
    RecorderKeeps(idOf, y.logs, d, s, step.kind, step.payload, step.expiry, step.now, y'.replicas[d], y'.logs);
    forall e | e in y'.replicas ensures ReplicaOk(y'.logs, e, y'.replicas[e]) {
      if e != d {
        assert ReplicaOk(y.logs, e, y.replicas[e]);
        OtherReplicaKeeps(y.logs, d, ev, y'.logs, e, y.replicas[e]);
      }
    }
    assert AtMost(s.cursors, y'.replicas[d].cursors);
    forall ask | ask in y'.asks ensures AskOk(y', ask) {
      assert AskOk(y, ask);
      AtMostTrans(ask.1, y.replicas[ask.0].cursors, y'.replicas[ask.0].cursors);
    }
    forall f | f in y'.flights ensures FlightOk(y', f) {
      assert FlightOk(y, f);
      AtMostTrans(f.asked, y.replicas[f.target].cursors, y'.replicas[f.target].cursors);
      ContinuesGrowth(y.logs, d, ev, y'.logs, f.asked, f.batch.events);
    }
  }

  lemma OwnLog(logs: Logs, d: string, s: State)
    requires ReplicaOk(logs, d, s)
    ensures s.localDevice == d && s.nextSeq == |LogOf(logs, d)| == Cursor(s.cursors, d)
  {
  }

  lemma AtMostTrans(a: Cursors, b: Cursors, c: Cursors)
    requires AtMost(a, b) && (b == c || AtMost(b, c))
    ensures AtMost(a, c)
  {
  }

  lemma BuildKeeps(idOf: IdHash, y: System, step: Step, y': System)
    requires SystemOk(y) && Next(idOf, y, step, y') && step.Build?
    ensures SystemOk(y')
  {
    hide LogsOk, Continues, HoldsPrefixes, Tracks, Owns;
    var s := y.replicas[step.source];
    assert ReplicaOk(y.logs, step.source, s);
    BatchContinues(y.logs, s, step.ask.1, LimitOf(step.limit));
    assert AskOk(y, step.ask);
    assert forall f | f in y.flights :: FlightOk(y, f);
    assert forall ask | ask in y'.asks :: AskOk(y, ask) && AskOk(y', ask);
    forall f | f in y'.flights ensures FlightOk(y', f) {
      if f in y.flights {
        assert FlightOk(y, f);
      }
    }
  }

  lemma DeliverKeeps(idOf: IdHash, y: System, step: Step, y': System)
    requires SystemOk(y) && Next(idOf, y, step, y') && WithinLimit(y'.logs) && step.Deliver?
    ensures SystemOk(y')
  {
    hide LogsOk, Continues, ReplicaOk, ApplyStep, WithinLimit;
    var f, s := step.flight, y.replicas[step.flight.target];
    assert FlightOk(y, f) && ReplicaOk(y.logs, f.target, s);
    ReceiverKeeps(idOf, y.logs, f.target, s, f.asked, f.batch, step.now, y'.replicas[f.target], step.applied);
    forall ask | ask in y'.asks ensures AskOk(y', ask) {
      assert AskOk(y, ask);
      AtMostTrans(ask.1, y.replicas[ask.0].cursors, y'.replicas[ask.0].cursors);
    }
    forall g | g in y'.flights ensures FlightOk(y', g) {
      assert FlightOk(y, g);
      AtMostTrans(g.asked, y.replicas[g.target].cursors, y'.replicas[g.target].cursors);
    }
    assert forall e | e in y'.replicas && e != f.target :: ReplicaOk(y.logs, e, y.replicas[e]);
  }

  ghost predicate IsRun(idOf: IdHash, devices: set<string>, ys: seq<System>, steps: seq<Step>) {
    && |ys| == |steps| + 1 && ys[0] == Start(devices)
    && (forall i | 0 <= i < |steps| :: Next(idOf, ys[i], steps[i], ys[i + 1]))
    && forall i | 0 <= i < |ys| :: WithinLimit(ys[i].logs)
  }

  /**
   * In every run each replica holds, for each device, exactly the gap-free prefix 1..cursor of that
   * device's log, no event twice, in canonical order.
   */
  lemma {:induction false} RunKeeps(idOf: IdHash, devices: set<string>, ys: seq<System>, steps: seq<Step>, i: nat)
    requires IsRun(idOf, devices, ys, steps) && i < |ys|
    ensures SystemOk(ys[i])
  {
    hide SystemOk, Next, WithinLimit, Start;
    if i == 0 {
      StartOk(devices);
    } else {
      RunKeeps(idOf, devices, ys, steps, i - 1);
      StepKeeps(idOf, ys[i - 1], steps[i - 1], ys[i]);
    }
  }

  /** Replicas with equal cursors hold the identical sequence. */
  lemma EqualCursorsEqualEvents(logs: Logs, d: string, s: State, e: string, t: State)
    requires LogsOk(logs) && ReplicaOk(logs, d, s) && ReplicaOk(logs, e, t)
    requires forall x: string :: Cursor(s.cursors, x) == Cursor(t.cursors, x)
    ensures s.events == t.events
  {
    hide Before, Logged, LogsOk, WeakOrder;
    forall ev ensures ev in s.events <==> ev in t.events {
      assert Covered(s, ev) <==> Covered(t, ev);
    }
    assert Elements(s.events) == Elements(t.events);
    BeforeIsWeakOrder();
    forall a, b | a in Elements(s.events) && b in Elements(s.events) && a != b
      ensures Before(a, b) || Before(b, a)
    {
      Comparable(logs, a, b);
    }
    SortedUnique(s.events, t.events, Before);
  }

  lemma Comparable(logs: Logs, a: Event, b: Event)
    requires LogsOk(logs) && Logged(logs, a) && Logged(logs, b) && a != b
    ensures Before(a, b) || Before(b, a)
  {
    hide Less, LogsOk, Logged;
    LessLaws(a.deviceId, b.deviceId, a.deviceId);
    if a.deviceId == b.deviceId {
      LoggedOrder(logs, a, b); LoggedOrder(logs, b, a);
    }
  }

  /** A pull with current cursors delivers as many missing events as the limit admits, and all of them apply. */
  lemma PullDelivers(idOf: IdHash, logs: Logs, a: string, source: State, b: string, target: State, limit: int, now: int)
    requires LogsOk(logs) && ReplicaOk(logs, a, source) && ReplicaOk(logs, b, target)
    ensures var batch := BatchOf(source, target.cursors, limit);
      var missing := set ev | ev in source.events && ev !in target.events;
      && |batch.events| == (if LimitOf(limit) < |missing| then LimitOf(limit) else |missing|)
      && ApplyAll(idOf, target, batch.events, now).1 == |batch.events|
  {
    hide Before, Logged, LogsOk;
    var peer := target.cursors;
    var all := FreshAll(source.events, peer);
    var missing := set ev | ev in source.events && ev !in target.events;
    var events := BatchOf(source, peer, limit).events;
    FreshIsPrefix(source.events, peer, LimitOf(limit));
    FreshKeepsOrder(source.events, peer);
    DistinctSize(all);
    forall ev ensures ev in all <==> ev in missing {
      assert ev in source.events ==> Logged(logs, ev);
      assert Logged(logs, ev) ==> (ev in target.events <==> Covered(target, ev));
    }
    assert Elements(all) == missing;
    BatchContinues(logs, source, peer, LimitOf(limit));
    AllApply(idOf, logs, target, events, now);
  }

  lemma {:induction false} AllApply(idOf: IdHash, logs: Logs, s: State, events: seq<Event>, now: int)
    requires LogsOk(logs) && HoldsPrefixes(logs, s) && Tracks(logs, s) && Continues(logs, s.cursors, events)
    ensures ApplyAll(idOf, s, events, now).1 == |events|
  {
    hide HoldsPrefixes, Tracks, LogsOk, ApplyOne, Logged;
    if events != [] {
      var k := |events| - 1;
      var init, last := events[..k], events[k];
      ContinuesPrefix(logs, s.cursors, events, k);
      AllApply(idOf, logs, s, init, now);
      ApplyAllKeeps(idOf, logs, s, s.cursors, init, now);
      var t := ApplyAll(idOf, s, init, now).0;
      assert MovedBy(s, t, init, last.deviceId);
      assert !Covered(t, last) by {
        if Cursor(t.cursors, last.deviceId) != Cursor(s.cursors, last.deviceId) {
          var i :| 0 <= i < k && init[i].deviceId == last.deviceId && init[i].seqNo == Cursor(t.cursors, last.deviceId);
          assert events[i].seqNo < events[k].seqNo;
        }
      }
      NextInLine(logs, s.cursors, t, events, k);
      ApplyOneKeeps(idOf, logs, t, last, now);
    }
  }

  /** Once the earlier events of a gap-free batch are covered, the next one is covered or next in line. */
  lemma NextInLine(logs: Logs, asked: Cursors, t: State, events: seq<Event>, k: nat)
    requires Continues(logs, asked, events) && k < |events| && AtMost(asked, t.cursors)
    requires forall i | 0 <= i < k :: Covered(t, events[..k][i])
    ensures Logged(logs, events[k]) && events[k].seqNo <= Cursor(t.cursors, events[k].deviceId) + 1
  {
    hide Logged;
    assert HasPredecessor(asked, events, k);
    if events[k].seqNo != Cursor(asked, events[k].deviceId) + 1 {
      var j :| 0 <= j < k && events[j].deviceId == events[k].deviceId && events[j].seqNo == events[k].seqNo - 1;
      assert Covered(t, events[..k][j]);
    } else {
      assert Cursor(asked, events[k].deviceId) <= Cursor(t.cursors, events[k].deviceId);
    }
  }
}
