/** The scheduler's objects: a compacting FIFO queue and the scheduler that owns three of them. */
module Scheduler {
  import opened Results
  import opened SchedulerModel

  /** A queue whose served prefix is compacted away once it dominates the buffer. */
  class FifoQueue {
    var items: seq<SchedItem>
    var head: nat

    ghost predicate Valid()
      reads this
    {
      head <= |items|
    }

    ghost function Contents(): (r: seq<SchedItem>)
      requires Valid()
      reads this
    {
      items[head..]
    }

    constructor ()
      ensures Valid() && Contents() == []
    {
      items, head := [], 0;
    }

    function Len(): (r: int)
      requires Valid()
      reads this
      ensures r == |Contents()|
    {
      |items| - head
    }

    method Push(it: SchedItem)
      requires Valid()
      modifies this
      ensures Valid() && Contents() == old(Contents()) + [it]
    {
      items := items + [it];
    }

    method Pop() returns (r: Option<SchedItem>)
      requires Valid()
      modifies this
      ensures Valid()
      ensures old(Contents()) == [] ==> r == None && Contents() == []
      ensures old(Contents()) != [] ==> r == Some(old(Contents())[0]) && Contents() == old(Contents())[1..]
    {
      if Len() == 0 {
        return None;
      }
      r := Some(items[head]);
      head := head + 1;
      if head > 64 && head * 2 >= |items| {
        items := items[head..];
        head := 0;
      }
    }
  }

  class PriorityScheduler {
    const limits: Limits
    const qC: FifoQueue
    const qN: FifoQueue
    const qB: FifoQueue
    var peers: map<string, Quota>
    const pattern: seq<Class>
    var patIdx: nat

    ghost predicate Valid()
      reads this, qC, qN, qB
    {
      && qC != qN && qN != qB && qC != qB
      && qC.Valid() && qN.Valid() && qB.Valid()
      && patIdx < |pattern|
    }

    ghost function State(): (s: Sched)
      requires Valid()
      reads this, qC, qN, qB
    {
      Sched(limits, Queues(qC.Contents(), qN.Contents(), qB.Contents()), peers, pattern, patIdx)
    }

    constructor (limits: Limits, wC: int, wN: int, wB: int)
      ensures Valid() && State() == Initial(limits, wC, wN, wB)
      ensures fresh(qC) && fresh(qN) && fresh(qB)
    {
      this.limits := limits;
      qC := new FifoQueue();
      qN := new FifoQueue();
      qB := new FifoQueue();
      peers := map[];
      var p := BuildPattern(wC, wN, wB);
      pattern := p;
      patIdx := 0;
    }

    /** The number of queued items. */
    method Len() returns (r: int)
      requires Valid()
      ensures r == State().queues.Total()
    {
      r := qC.Len() + qN.Len() + qB.Len();
    }

    /** Pops from the queue of class `k`. */
    method PopFrom(k: Class) returns (r: Option<SchedItem>)
      requires Valid()
      modifies qC, qN, qB
      ensures Valid() && peers == old(peers) && patIdx == old(patIdx)
      ensures var q := old(State()).queues.Of(k);
        if q == [] then r == None && State() == old(State())
        else r == Some(q[0]) && State() == old(State()).(queues := old(State()).queues.With(k, q[1..]))
    {
      match k
      case Critical => r := qC.Pop();
      case Normal => r := qN.Pop();
      case Background => r := qB.Pop();
    }

    method PushTo(k: Class, it: SchedItem)
      requires Valid()
      modifies qC, qN, qB
      ensures Valid() && peers == old(peers) && patIdx == old(patIdx)
      ensures State() == old(State()).(queues := old(State()).queues.With(k, old(State()).queues.Of(k) + [it]))
    {
      match k
      case Critical => qC.Push(it);
      case Normal => qN.Push(it);
      case Background => qB.Push(it);
    }

    /** Drops background, then normal items until the total fits; false if only critical items are left. */
    method EvictForCritical() returns (ok: bool)
      requires Valid()
      modifies qC, qN, qB
      ensures Valid() && peers == old(peers) && patIdx == old(patIdx)
      ensures ok == Evict(limits, old(State()).queues).Some?
      ensures State() == old(State()).(queues := Drained(limits, old(State()).queues))
      ensures ok ==> Evict(limits, old(State()).queues).value == State().queues
    {
      var total := Len();
      while total >= limits.maxTotal
        invariant Valid() && total == State().queues.Total()
        invariant peers == old(peers) && patIdx == old(patIdx)
        invariant State() == old(State()).(queues := State().queues)
        invariant Drained(limits, State().queues) == Drained(limits, old(State()).queues)
        invariant Evict(limits, State().queues) == Evict(limits, old(State()).queues)
        decreases State().queues.Total()
      {
        var it := PopFrom(Background);
        if it.Some? {
          total := total - 1;
          continue;
        }
        it := PopFrom(Normal);
        if it.Some? {
          total := total - 1;
          continue;
        }
        return false;
      }
      return true;
    }

    /** Lowers the class while it, or the peer, is full. */
    method Demote(q: Quota, cls: Class) returns (r: Option<Class>)
      ensures r == Settle(limits, q, cls)
    {
      var k := cls;
      while q.Of(k) >= limits.Of(k) || q.total >= limits.maxPerPeer
        invariant Settle(limits, q, k) == Settle(limits, q, cls)
        decreases match k case Critical => 2 case Normal => 1 case Background => 0
      {
        match k
        case Critical => k := Normal;
        case Normal => k := Background;
        case Background => return None;
      }
      return Some(k);
    }

    /** Queues an item, demoting it while its class is full for the peer; returns whether it was queued. */
    method Enqueue(peerId: string, cls: Class, item: SchedItem) returns (ok: bool)
      requires Valid()
      modifies this, qC, qN, qB
      ensures Valid()
      ensures (State(), ok) == SchedulerModel.Enqueue(old(State()), peerId, cls, item)
    {
      hide Evict, Drained, Settle, PeerName, Queues.Of, Queues.With, Quota.Charge, FifoQueue.Valid, FifoQueue.Contents;
      var peer := PeerName(peerId);
      if peer !in peers {
        peers := peers[peer := NO_QUOTA];
      }
      var q := peers[peer];
      assert peers == old(peers)[peer := q];
      var settled := Demote(q, cls);
      if settled.None? {
        return false;
      }
      var k := settled.value;
      var total := Len();
      if limits.maxTotal > 0 && total >= limits.maxTotal {
        if k != Critical {
          return false;
        }
        var room := EvictForCritical();
        if !room {
          return false;
        }
      }
      PushTo(k, item.(peerId := peer));
      peers := peers[peer := q.Charge(k, 1)];
      assert peers == old(peers)[peer := q.Charge(k, 1)];
      return true;
    }

    /** Uncharges the peer of a served item; a peer without charges is forgotten. */
    method Uncharge(peer: string, k: Class)
      modifies this`peers
      ensures peers == Discharge(old(peers), peer, k)
    {
      if peer in peers {
        var q := peers[peer].Charge(k, -1);
        peers := if q.total <= 0 then peers - {peer} else peers[peer := q];
      }
    }

    /** Advances one position of the pattern and serves its class, if anything is queued there. */
    method ServePosition() returns (r: Option<SchedItem>)
      requires Valid()
      modifies this, qC, qN, qB
      ensures Valid()
      ensures var s := old(State());
        var k, s1 := s.pattern[s.patIdx], s.(patIdx := Bump(s));
        var q := s.queues.Of(k);
        if q == [] then r == None && State() == s1
        else
          && r == Some(q[0])
          && State() == s1.(queues := s.queues.With(k, q[1..]), peers := Discharge(s.peers, q[0].peerId, k))
    {
      hide Queues.Of, Queues.With, Discharge;
      var cls := pattern[patIdx];
      patIdx := patIdx + 1;
      if patIdx >= |pattern| {
        patIdx := 0;
      }
      r := PopFrom(cls);
      if r.Some? {
        Uncharge(r.value.peerId, cls);
      }
    }

    /** Serves the next item in weighted round-robin order. */
    method Next() returns (r: Option<SchedItem>)
      requires Valid()
      modifies this, qC, qN, qB
      ensures Valid()
      ensures (State(), r) == SchedulerModel.Next(old(State()))
    {
      hide Try, Queues.Of, Queues.With, Discharge, Bump, FifoQueue.Valid, FifoQueue.Contents;
      var total := Len();
      if total == 0 {
        return None;
      }
      var tries := |pattern|;
      while tries > 0
        invariant Valid() && tries >= 0
        invariant Try(State(), tries) == Try(old(State()), |pattern|)
      {
        TryStep(State(), tries);
        r := ServePosition();
        if r.Some? {
          return;
        }
        tries := tries - 1;
      }
      TryNothing(State());
      return None;
    }
  }

  lemma TryStep(s: Sched, tries: nat)
    requires s.patIdx < |s.pattern| && tries > 0
    ensures var k, s1 := s.pattern[s.patIdx], s.(patIdx := Bump(s));
      var q := s.queues.Of(k);
      Try(s, tries) ==
        if q == [] then Try(s1, tries - 1)
        else (s1.(queues := s.queues.With(k, q[1..]), peers := Discharge(s.peers, q[0].peerId, k)), Some(q[0]))
  {
    hide Queues.Of, Queues.With, Discharge;
  }

  lemma TryNothing(s: Sched)
    requires s.patIdx < |s.pattern|
    ensures Try(s, 0) == (s, None)
  {
  }

  method BuildPattern(wC: int, wN: int, wB: int) returns (p: seq<Class>)
    ensures p == Pattern(wC, wN, wB)
  {
    p := [];
    p := AppendClass(p, Critical, wC);
    p := AppendClass(p, Normal, wN);
    p := AppendClass(p, Background, wB);
    if |p| == 0 {
      p := [Critical, Normal, Background];
    }
  }

  method AppendClass(p0: seq<Class>, k: Class, weight: int) returns (p: seq<Class>)
    ensures p == p0 + Repeat(k, weight)
  {
    p := p0;
    var i := 0;
    while i < weight
      invariant 0 <= i && (i <= weight || i == 0)
      invariant p == p0 + Repeat(k, i)
    {
      p := p + [k];
      i := i + 1;
    }
  }
}
