/** The priority scheduler as a state machine: three FIFO classes, per-peer quotas, weighted round robin. */
module SchedulerModel {
  import opened Results
  import opened Strings

  datatype Class = Critical | Normal | Background

  datatype SchedItem = SchedItem(peerId: string, role: string, context: string, eventIds: seq<string>,
      maxMessageBytes: int)

  /** How many items a peer is charged for, in all and by class. */
  datatype Quota = Quota(total: int, c: int, n: int, b: int) {
    function Of(k: Class): (r: int) {
      match k
      case Critical => c
      case Normal => n
      case Background => b
    }

    function Charge(k: Class, d: int): (q: Quota)
      ensures q.total == total + d
      ensures forall j: Class :: q.Of(j) == if j == k then Of(j) + d else Of(j)
    {
      match k
      case Critical => Quota(total + d, c + d, n, b)
      case Normal => Quota(total + d, c, n + d, b)
      case Background => Quota(total + d, c, n, b + d)
    }
  }

  const NO_QUOTA := Quota(0, 0, 0, 0)

  datatype Limits = Limits(maxTotal: int, maxPerPeer: int, maxC: int, maxN: int, maxB: int) {
    function Of(k: Class): (r: int) {
      match k
      case Critical => maxC
      case Normal => maxN
      case Background => maxB
    }
  }

  datatype Queues = Queues(c: seq<SchedItem>, n: seq<SchedItem>, b: seq<SchedItem>) {
    function Of(k: Class): (r: seq<SchedItem>) {
      match k
      case Critical => c
      case Normal => n
      case Background => b
    }

    function With(k: Class, q: seq<SchedItem>): (r: Queues)
      ensures forall j: Class :: r.Of(j) == if j == k then q else Of(j)
    {
      match k
      case Critical => Queues(q, n, b)
      case Normal => Queues(c, q, b)
      case Background => Queues(c, n, q)
    }

    function Total(): (r: nat) {
      |c| + |n| + |b|
    }
  }

  datatype Sched = Sched(limits: Limits, queues: Queues, peers: map<string, Quota>, pattern: seq<Class>, patIdx: nat)

  // ---------------------------------------------------------------- transitions

  function Repeat(k: Class, times: int): (r: seq<Class>)
    ensures |r| == if times < 0 then 0 else times
    ensures forall i | 0 <= i < |r| :: r[i] == k
    decreases times
  {
    if times <= 0 then [] else Repeat(k, times - 1) + [k]
  }

  /** Each class occurs as often as its weight; three zero weights fall back to one each. */
  function Pattern(wC: int, wN: int, wB: int): (r: seq<Class>)
    ensures r != []
  {
    var p := Repeat(Critical, wC) + Repeat(Normal, wN) + Repeat(Background, wB);
    if p == [] then [Critical, Normal, Background] else p
  }

  function Initial(limits: Limits, wC: int, wN: int, wB: int): (s: Sched) {
    Sched(limits, Queues([], [], []), map[], Pattern(wC, wN, wB), 0)
  }

  function PeerName(peer: string): (r: string)
    ensures r != []
  {
    var t := TrimSpace(peer);
    if t == "" then "unknown" else t
  }

  function QuotaOf(s: Sched, peer: string): (q: Quota) {
    if peer in s.peers then s.peers[peer] else NO_QUOTA
  }

  /** The class an item lands in once full classes have demoted it; None if even the lowest is full. */
  function Settle(limits: Limits, q: Quota, k: Class): (r: Option<Class>)
    decreases match k case Critical => 2 case Normal => 1 case Background => 0
  {
    if q.Of(k) >= limits.Of(k) || q.total >= limits.maxPerPeer then
      match k
      case Critical => Settle(limits, q, Normal)
      case Normal => Settle(limits, q, Background)
      case Background => None
    else Some(k)
  }

  /** Drops queued background, then normal items until there is room; None if only critical items are left. */
  function Evict(limits: Limits, q: Queues): (r: Option<Queues>)
    decreases q.Total()
  {
    if q.Total() < limits.maxTotal then Some(q)
    else if q.b != [] then Evict(limits, q.(b := q.b[1..]))
    else if q.n != [] then Evict(limits, q.(n := q.n[1..]))
    else None
  }

  function MakeRoom(limits: Limits, q: Queues, k: Class): (r: Option<Queues>) {
    if limits.maxTotal > 0 && q.Total() >= limits.maxTotal then
      if k != Critical then None else Evict(limits, q)
    else Some(q)
  }

  /** What remains queued after a call that evicted and then refused. */
  function Drained(limits: Limits, q: Queues): (r: Queues)
    decreases q.Total()
  {
    if q.Total() < limits.maxTotal then q
    else if q.b != [] then Drained(limits, q.(b := q.b[1..]))
    else if q.n != [] then Drained(limits, q.(n := q.n[1..]))
    else q
  }

  function Enqueue(s: Sched, peer: string, k: Class, item: SchedItem): (r: (Sched, bool)) {
    var p := PeerName(peer);
    var q := QuotaOf(s, p);
    var s1 := s.(peers := s.peers[p := q]);
    var settled := Settle(s.limits, q, k);
    if settled.None? then (s1, false)
    else
      var room := MakeRoom(s.limits, s.queues, settled.value);
      if room.None? then
        (if settled.value == Critical then s1.(queues := Drained(s.limits, s.queues)) else s1, false)
      else
        var j := settled.value;
        (s1.(queues := room.value.With(j, room.value.Of(j) + [item.(peerId := p)]),
             peers := s.peers[p := q.Charge(j, 1)]), true)
  }

  /** Uncharges a served item; a peer without charges is forgotten. */
  function Discharge(peers: map<string, Quota>, peer: string, k: Class): (r: map<string, Quota>) {
    if peer !in peers then peers
    else
      var q := peers[peer].Charge(k, -1);
      if q.total <= 0 then peers - {peer} else peers[peer := q]
  }

  function Bump(s: Sched): (r: nat) {
    if s.patIdx + 1 >= |s.pattern| then 0 else s.patIdx + 1
  }

  /** Walks the pattern for at most `tries` positions and serves the first nonempty class. */
  function Try(s: Sched, tries: nat): (r: (Sched, Option<SchedItem>))
    requires s.patIdx < |s.pattern|
    decreases tries
  {
    if tries == 0 then (s, None)
    else
      var k := s.pattern[s.patIdx];
      var s1 := s.(patIdx := Bump(s));
      var q := s.queues.Of(k);
      if q == [] then Try(s1, tries - 1)
      else (s1.(queues := s.queues.With(k, q[1..]), peers := Discharge(s.peers, q[0].peerId, k)), Some(q[0]))
  }

  function Next(s: Sched): (r: (Sched, Option<SchedItem>))
    requires s.patIdx < |s.pattern|
  {
    if s.queues.Total() == 0 then (s, None) else Try(s, |s.pattern|)
  }
}
