/** Version-vector replication of one user's events between devices. */
module DeviceSync {
  import opened Results
  import opened Sorting
  import opened Strings

  const SCHEMA_V1 := 1
  const MAX_EVENTS := 50000
  const MAX_SEEN := 200000
  const DEFAULT_LIMIT := 256
  const DEFAULT_OUTBOX_TTL := 604800

  datatype Event = Event(id: string, deviceId: string, seqNo: nat, lamport: nat, createdAt: int, kind: string,
      payload: seq<bv8>)

  datatype OutboxItem = OutboxItem(eventId: string, retryCount: int, nextAttemptAt: int, expiresAt: int)

  type Cursors = map<string, nat>

  datatype Batch = Batch(schemaVersion: int, deviceId: string, cursors: Cursors, events: seq<Event>)

  datatype State = State(
    localDevice: string, nextSeq: nat, lamport: nat, cursors: Cursors, seen: map<string, int>,
    events: seq<Event>, outbox: seq<OutboxItem>)

  /** The identifier hash, as an arbitrary function of the other fields. */
  type IdHash = Event -> string

  /** A missing cursor reads as zero. */
  function Cursor(cursors: Cursors, device: string): (r: nat) {
    if device in cursors then cursors[device] else 0
  }

  /** The canonical order: Lamport time, then device, then sequence number. */
  predicate Before(a: Event, b: Event) {
    || a.lamport < b.lamport
    || (a.lamport == b.lamport
        && (Less(a.deviceId, b.deviceId) || (a.deviceId == b.deviceId && a.seqNo < b.seqNo)))
  }

  lemma BeforeIsWeakOrder()
    ensures WeakOrder(Before)
  {
    hide Less;
    forall a, b, c
      ensures !Before(a, a)
      ensures Before(a, b) && Before(b, c) ==> Before(a, c)
      ensures Before(a, c) ==> Before(a, b) || Before(b, c)
    {
      LessLaws(a.deviceId, b.deviceId, c.deviceId);
      LessLaws(a.deviceId, c.deviceId, b.deviceId);
      LessLaws(b.deviceId, c.deviceId, a.deviceId);
    }
  }

  // ---------------------------------------------------------------- pruning

  /** Sorted into canonical order, keeping the newest MAX_EVENTS. */
  function PrunedEvents(events: seq<Event>): (r: seq<Event>) {
    var s := Sort(events, Before);
    if |s| > MAX_EVENTS then s[|s| - MAX_EVENTS..] else s
  }

  /** Nothing is invented, the limit is kept, and what was dropped does not come after anything that stayed. */
  lemma PrunedKeepsNewest(events: seq<Event>, gone: Event, kept: Event)
    requires gone in events && gone !in PrunedEvents(events) && kept in PrunedEvents(events)
    ensures kept in events && |PrunedEvents(events)| == 50000 && gone.lamport <= kept.lamport
  {
    hide Sort, WeakOrder, Less;
    var s := Sort(events, Before);
    BeforeIsWeakOrder();
    SortOrdered(events, Before);
    SameElements(s, events);
    assert gone in Elements(s) && kept in Elements(s);
    var i :| 0 <= i < |s| && s[i] == gone;
    var k := |s| - MAX_EVENTS;
    var r := PrunedEvents(events);
    var j :| 0 <= j < |r| && r[j] == kept;
    assert s[k + j] == kept;
    SuffixHolds(s, k, i);
    assert !Before(s[k + j], s[i]);
  }

  /** A saved state lists its events by Lamport time, then device, then number. */
  lemma SavedInOrder(events: seq<Event>, i: nat, j: nat)
    requires i < j < |PrunedEvents(events)|
    ensures var a, b := PrunedEvents(events)[i], PrunedEvents(events)[j];
      || a.lamport < b.lamport
      || (a.lamport == b.lamport && (Less(a.deviceId, b.deviceId) || (a.deviceId == b.deviceId && a.seqNo <= b.seqNo)))
  {
    hide Sort, WeakOrder, Less;
    var s, r := Sort(events, Before), PrunedEvents(events);
    BeforeIsWeakOrder();
    SortOrdered(events, Before);
    var k := if |s| > MAX_EVENTS then |s| - MAX_EVENTS else 0;
    assert r[i] == s[k + i] && r[j] == s[k + j];
    assert !Before(s[k + j], s[k + i]);
    LessLaws(r[i].deviceId, r[j].deviceId, r[i].deviceId);
  }

  lemma SuffixHolds(s: seq<Event>, k: nat, i: nat)
    requires k <= |s| && i < |s|
    ensures i >= k ==> s[i] in s[k..]
  {
    if i >= k {
      assert s[k..][i - k] == s[i];
    }
  }

  /** Seen identifiers are dropped oldest first once there are too many. */
  ghost predicate PrunedSeen(before: map<string, int>, after: map<string, int>) {
    && after.Keys <= before.Keys
    && (forall id | id in after :: after[id] == before[id])
    && |after.Keys| == (if |before.Keys| > MAX_SEEN then MAX_SEEN else |before.Keys|)
    && forall gone, kept | gone in before && gone !in after && kept in after :: before[gone] <= before[kept]
  }

  method PruneSeen(seen: map<string, int>) returns (r: map<string, int>)
    ensures PrunedSeen(seen, r)
  {
    r := seen;
    while |r.Keys| > MAX_SEEN
      invariant r.Keys <= seen.Keys
      invariant forall id | id in r :: r[id] == seen[id]
      invariant |r.Keys| >= (if |seen.Keys| > MAX_SEEN then MAX_SEEN else |seen.Keys|)
      invariant |r.Keys| > MAX_SEEN ==> |seen.Keys| > MAX_SEEN
      invariant forall gone, kept | gone in seen && gone !in r && kept in r :: seen[gone] <= seen[kept]
      invariant |seen.Keys| <= MAX_SEEN ==> r == seen
      decreases |r.Keys|
    {
      var oldest := Oldest(r);
      assert (r - {oldest}).Keys == r.Keys - {oldest};
      r := r - {oldest};
    }
  }

  method Oldest(m: map<string, int>) returns (id: string)
    requires m != map[]
    ensures id in m && forall x | x in m :: m[id] <= m[x]
  {
    var rest := m.Keys;
    id :| id in m;
    while rest != {}
      invariant id in m && rest <= m.Keys
      invariant forall x | x in m.Keys - rest :: m[id] <= m[x]
      decreases rest
    {
      var x :| x in rest;
      if m[x] < m[id] {
        id := x;
      }
      rest := rest - {x};
    }
  }

  // ---------------------------------------------------------------- recording

  function RecordedEvent(idOf: IdHash, s: State, kind: string, payload: seq<bv8>, now: int): (ev: Event)
    ensures ev.deviceId == s.localDevice && ev.seqNo == s.nextSeq + 1 && ev.lamport > s.lamport
    ensures ev.lamport > ev.seqNo && (ev.lamport == s.lamport + 1 || ev.lamport == ev.seqNo + 1)
    ensures ev.kind == TrimSpace(kind) && ev.payload == payload && ev.createdAt == now && ev.id == idOf(ev.(id := ""))
  {
    var seqNo := s.nextSeq + 1;
    var lamport := (if s.lamport < seqNo then seqNo else s.lamport) + 1;
    var ev := Event("", s.localDevice, seqNo, lamport, now, TrimSpace(kind), payload);
    ev.(id := idOf(ev))
  }

  predicate CanRecord(s: State, kind: string, payload: seq<bv8>) {
    TrimSpace(kind) != "" && payload != [] && TrimSpace(s.localDevice) != ""
  }

  /** The state after recording, up to which old seen identifiers were dropped. */
  ghost predicate RecordStep(idOf: IdHash, s: State, kind: string, payload: seq<bv8>, expiry: int, now: int,
                             s': State) {
    var ev := RecordedEvent(idOf, s, kind, payload, now);
    && s'.localDevice == s.localDevice
    && s'.nextSeq == ev.seqNo && s'.lamport == ev.lamport
    && s'.cursors == s.cursors[ev.deviceId := ev.seqNo]
    && s'.events == PrunedEvents(s.events + [ev])
    && PrunedSeen(s.seen[ev.id := now], s'.seen)
    && s'.outbox == s.outbox + [OutboxItem(ev.id, 0, now, now + if expiry > 0 then expiry else DEFAULT_OUTBOX_TTL)]
  }

  // ---------------------------------------------------------------- batches

  /** The first `limit` events that the peer's cursors do not cover. */
  function Fresh(events: seq<Event>, peer: Cursors, limit: nat): (r: seq<Event>)
    ensures |r| <= limit
  {
    if limit == 0 || events == [] then []
    else if events[0].seqNo <= Cursor(peer, events[0].deviceId) then Fresh(events[1..], peer, limit)
    else [events[0]] + Fresh(events[1..], peer, limit - 1)
  }

  /** One more event looked at. */
  lemma FreshNext(events: seq<Event>, peer: Cursors, i: nat, max: nat, out: seq<Event>)
    requires i < |events| && |out| < max
    ensures var ev, left := events[i], max - |out|;
      out + Fresh(events[i..], peer, left) ==
        if ev.seqNo > Cursor(peer, ev.deviceId) then (out + [ev]) + Fresh(events[i + 1..], peer, left - 1)
        else out + Fresh(events[i + 1..], peer, left)
  {
    assert events[i..][1..] == events[i + 1..];
  }

  lemma FreshFirst(events: seq<Event>, peer: Cursors, max: nat)
    ensures [] + Fresh(events[0..], peer, max) == Fresh(events, peer, max)
  {
    assert events[0..] == events;
  }

  lemma FreshDone(rest: seq<Event>, peer: Cursors, limit: nat)
    ensures rest == [] || limit == 0 ==> Fresh(rest, peer, limit) == []
  {
  }

  function LimitOf(limit: int): (r: nat) {
    if limit <= 0 then DEFAULT_LIMIT else limit
  }

  function BatchOf(s: State, peer: Cursors, limit: int): (b: Batch) {
    Batch(SCHEMA_V1, s.localDevice, s.cursors, Fresh(s.events, peer, LimitOf(limit)))
  }

  function Named(idOf: IdHash, ev: Event): (r: Event) {
    if TrimSpace(ev.id) == "" then ev.(id := idOf(ev)) else ev
  }

  /** One event of a batch; the flag says whether it was appended. */
  function ApplyOne(idOf: IdHash, s: State, raw: Event, now: int): (r: (State, bool)) {
    var ev := Named(idOf, raw);
    if ev.id in s.seen then (s, false)
    else if ev.seqNo <= Cursor(s.cursors, ev.deviceId) then (s.(seen := s.seen[ev.id := now]), false)
    else
      (s.(lamport := (if s.lamport < ev.lamport then ev.lamport else s.lamport) + 1,
          events := s.events + [ev],
          cursors := s.cursors[ev.deviceId := ev.seqNo],
          seen := s.seen[ev.id := now]), true)
  }

  /**
   * An event, named by its hash if it came without an identifier, is appended exactly if it was not seen and its number
   * is beyond the device's cursor; then the clock moves past both times. Either way it counts as seen.
   */
  lemma AppliedExactly(idOf: IdHash, s: State, raw: Event, now: int)
    ensures var (t, applied) := ApplyOne(idOf, s, raw, now);
      var id := if TrimSpace(raw.id) == "" then idOf(raw) else raw.id;
      && (applied <==> id !in s.seen && (raw.deviceId !in s.cursors ==> raw.seqNo > 0)
                       && (raw.deviceId in s.cursors ==> raw.seqNo > s.cursors[raw.deviceId]))
      && id in t.seen && (id !in s.seen ==> t.seen == s.seen[id := now])
      && t.outbox == s.outbox && t.nextSeq == s.nextSeq && t.localDevice == s.localDevice
      && (applied ==> t.events == s.events + [raw.(id := id)] && t.cursors == s.cursors[raw.deviceId := raw.seqNo]
                      && t.lamport > s.lamport && t.lamport > raw.lamport
                      && (t.lamport == s.lamport + 1 || t.lamport == raw.lamport + 1))
      && (!applied ==> t == s.(seen := t.seen))
  {
    hide TrimSpace;
  }

  function ApplyAll(idOf: IdHash, s: State, events: seq<Event>, now: int): (r: (State, nat)) {
    if events == [] then (s, 0)
    else
      var (t, n) := ApplyAll(idOf, s, events[..|events| - 1], now);
      var (u, one) := ApplyOne(idOf, t, events[|events| - 1], now);
      (u, if one then n + 1 else n)
  }

  ghost predicate ApplyStep(idOf: IdHash, s: State, b: Batch, now: int, s': State, applied: nat) {
    var (t, n) := ApplyAll(idOf, s, b.events, now);
    && applied == n
    && s' == t.(events := PrunedEvents(t.events), seen := s'.seen)
    && PrunedSeen(t.seen, s'.seen)
  }

  class Service {
    const idOf: IdHash
    var localDevice: string
    var nextSeq: nat
    var lamport: nat
    var cursors: Cursors
    var seen: map<string, int>
    var events: seq<Event>
    var outbox: seq<OutboxItem>

    function Snapshot(): (s: State)
      reads this
    {
      State(localDevice, nextSeq, lamport, cursors, seen, events, outbox)
    }

    constructor (idOf: IdHash, device: string)
      ensures this.idOf == idOf
      ensures Snapshot() == State(TrimSpace(device), 0, 0, map[TrimSpace(device) := 0], map[], [], [])
    {
      this.idOf := idOf;
      localDevice, nextSeq, lamport := TrimSpace(device), 0, 0;
      cursors, seen, events, outbox := map[TrimSpace(device) := 0], map[], [], [];
    }

    /** Sorts and truncates the state, as every save does. */
    method Save()
      modifies this`events, this`seen
      ensures events == PrunedEvents(old(events)) && PrunedSeen(old(seen), seen)
    {
      events := Sort(events, Before);
      if |events| > MAX_EVENTS {
        events := events[|events| - MAX_EVENTS..];
      }
      seen := PruneSeen(seen);
    }

    method Record(kind: string, payload: seq<bv8>, expiry: int, now: int) returns (r: Option<Event>)
      modifies this
      ensures r.Some? <==> CanRecord(old(Snapshot()), kind, payload)
      ensures r.None? ==> Snapshot() == old(Snapshot())
      ensures r.Some? ==> r.value == RecordedEvent(idOf, old(Snapshot()), kind, payload, now)
      ensures r.Some? ==> RecordStep(idOf, old(Snapshot()), kind, payload, expiry, now, Snapshot())
    {
      hide PrunedEvents, PrunedSeen, TrimSpace;
      if TrimSpace(kind) == "" || payload == [] || TrimSpace(localDevice) == "" {
        return None;
      }
      ghost var s := Snapshot();
      nextSeq := nextSeq + 1;
      if lamport < nextSeq {
        lamport := nextSeq;
      }
      lamport := lamport + 1;
      var ev := Event("", localDevice, nextSeq, lamport, now, TrimSpace(kind), payload);
      ev := ev.(id := idOf(ev));
      assert ev == RecordedEvent(idOf, s, kind, payload, now);
      hide RecordedEvent;
      AppendLocal(ev, if expiry > 0 then now + expiry else now + DEFAULT_OUTBOX_TTL, now);
      return Some(ev);
    }

    /** Stores an own event, queues it for sending and saves. */
    method AppendLocal(ev: Event, exp: int, now: int)
      modifies this`events, this`cursors, this`seen, this`outbox
      ensures events == PrunedEvents(old(events) + [ev]) && cursors == old(cursors)[ev.deviceId := ev.seqNo]
      ensures PrunedSeen(old(seen)[ev.id := now], seen)
      ensures outbox == old(outbox) + [OutboxItem(ev.id, 0, now, exp)]
    {
      hide PrunedEvents, PrunedSeen;
      events := events + [ev];
      cursors := cursors[ev.deviceId := ev.seqNo];
      seen := seen[ev.id := now];
      outbox := outbox + [OutboxItem(ev.id, 0, now, exp)];
      Save();
    }

    method BuildBatch(peer: Cursors, limit: int) returns (b: Batch)
      ensures b == BatchOf(Snapshot(), peer, limit)
    {
      hide Fresh;
      var max := if limit <= 0 then DEFAULT_LIMIT else limit;
      FreshFirst(events, peer, max);
      var out: seq<Event> := [];
      var i := 0;
      while i < |events| && |out| < max
        invariant 0 <= i <= |events| && |out| <= max
        invariant out + Fresh(events[i..], peer, max - |out|) == Fresh(events, peer, max)
      {
        var ev := events[i];
        FreshNext(events, peer, i, max, out);
        if ev.seqNo > Cursor(peer, ev.deviceId) {
          out := out + [ev];
        }
        i := i + 1;
      }
      FreshDone(events[i..], peer, max - |out|);
      assert out + [] == out;
      return Batch(SCHEMA_V1, localDevice, cursors, out);
    }

    /** Appends one event unless its identifier was seen or the cursor covers it. */
    method ApplyEvent(raw: Event, now: int) returns (applied: bool)
      modifies this
      ensures (Snapshot(), applied) == ApplyOne(idOf, old(Snapshot()), raw, now)
    {
      hide TrimSpace;
      var ev := raw;
      if TrimSpace(ev.id) == "" {
        ev := ev.(id := idOf(ev));
      }
      if ev.id in seen {
        return false;
      }
      if ev.seqNo <= Cursor(cursors, ev.deviceId) {
        seen := seen[ev.id := now];
        return false;
      }
      if lamport < ev.lamport {
        lamport := ev.lamport;
      }
      lamport := lamport + 1;
      events := events + [ev];
      cursors := cursors[ev.deviceId := ev.seqNo];
      seen := seen[ev.id := now];
      return true;
    }

    method ApplyBatch(b: Batch, now: int) returns (r: Option<nat>)
      modifies this
      ensures r.Some? <==> b.schemaVersion == SCHEMA_V1
      ensures r.None? ==> Snapshot() == old(Snapshot())
      ensures r.Some? ==> ApplyStep(idOf, old(Snapshot()), b, now, Snapshot(), r.value)
    {
      hide PrunedEvents, PrunedSeen, ApplyOne;
      if b.schemaVersion != SCHEMA_V1 {
        return None;
      }
      ghost var s0 := Snapshot();
      var applied := 0;
      for i := 0 to |b.events|
        invariant (Snapshot(), applied) == ApplyAll(idOf, s0, b.events[..i], now)
      {
        assert b.events[..i + 1][..i] == b.events[..i];
        var one := ApplyEvent(b.events[i], now);
        if one {
          applied := applied + 1;
        }
      }
      assert b.events[..|b.events|] == b.events;
      Save();
      return Some(applied);
    }
  }
}
