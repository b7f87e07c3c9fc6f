/** What every run of the scheduler keeps: bounds, quotas, FIFO order and weighted fairness. */
module SchedulerRuns {
  import opened Results
  import opened SchedulerModel
  import opened Strings

  // ---------------------------------------------------------------- counting

  /** The number of queued items of a peer. */
  function Count(q: seq<SchedItem>, peer: string): (r: nat) {
    if q == [] then 0 else (if q[0].peerId == peer then 1 else 0) + Count(q[1..], peer)
  }

  lemma {:induction false} CountAppend(q: seq<SchedItem>, it: SchedItem, peer: string)
    ensures Count(q + [it], peer) == Count(q, peer) + if it.peerId == peer then 1 else 0
  {
    if q == [] {
      assert q + [it] == [it];
    } else {
      CountAppend(q[1..], it, peer);
      assert (q + [it])[1..] == q[1..] + [it];
    }
  }

  function AtLeastZero(x: int): (r: nat) {
    if x < 0 then 0 else x
  }

  /** Charges bound what is queued, and caps bound the charges. */
  ghost predicate PeerOk(s: Sched, peer: string) {
    var q := QuotaOf(s, peer);
    && q.total == q.Of(Critical) + q.Of(Normal) + q.Of(Background)
    && q.total <= AtLeastZero(s.limits.maxPerPeer)
    && forall k: Class :: ClassOk(s, peer, k)
  }

  ghost predicate ClassOk(s: Sched, peer: string, k: Class) {
    Count(s.queues.Of(k), peer) <= QuotaOf(s, peer).Of(k) <= AtLeastZero(s.limits.Of(k))
  }

  /** The invariant of every run. */
  ghost predicate Inv(s: Sched) {
    && s.patIdx < |s.pattern|
    && (s.limits.maxTotal > 0 ==> s.queues.Total() <= s.limits.maxTotal)
    && forall peer: string :: PeerOk(s, peer)
  }

  /** Charges equal what is queued. */
  ghost predicate Exact(s: Sched) {
    forall peer: string, k: Class :: QuotaOf(s, peer).Of(k) == Count(s.queues.Of(k), peer)
  }

  // ---------------------------------------------------------------- single calls

  lemma InitialInv(limits: Limits, wC: int, wN: int, wB: int)
    ensures Inv(Initial(limits, wC, wN, wB)) && Exact(Initial(limits, wC, wN, wB))
  {
  }

  /** The item that a critical arrival pushes out of a full scheduler. */
  function Victim(s: Sched, peer: string, k: Class): (r: Option<Class>) {
    if Settle(s.limits, QuotaOf(s, PeerName(peer)), k) != Some(Critical) then None
    else if s.limits.maxTotal <= 0 || s.queues.Total() < s.limits.maxTotal then None
    else if s.queues.b != [] then Some(Background)
    else if s.queues.n != [] then Some(Normal)
    else None
  }

  function DropFirst(q: Queues, victim: Option<Class>): (r: Queues)
    requires victim.Some? ==> q.Of(victim.value) != []
  {
    if victim.None? then q else q.With(victim.value, q.Of(victim.value)[1..])
  }

  lemma SettleLands(limits: Limits, q: Quota, k: Class)
    ensures var r := Settle(limits, q, k);
      r.Some? ==> q.Of(r.value) < limits.Of(r.value) && q.total < limits.maxPerPeer
  {
  }

  /**
   * A call queues its item behind its class and evicts at most one item, never a critical one; a refusal
   * changes no queue.
   */
  lemma EnqueueEffect(s: Sched, peer: string, k: Class, item: SchedItem)
    requires Inv(s)
    ensures var (s', ok) := Enqueue(s, peer, k, item);
      var p, v := PeerName(peer), Victim(s, peer, k);
      && s'.limits == s.limits && s'.pattern == s.pattern && s'.patIdx == s.patIdx
      && (v.Some? ==> v.value != Critical && s.queues.Of(v.value) != [])
      && (!ok ==> s'.queues == s.queues && s'.peers == s.peers[p := QuotaOf(s, p)])
      && (ok ==> exists j: Class ::
            && Settle(s.limits, QuotaOf(s, p), k) == Some(j)
            && s'.queues == DropFirst(s.queues, v).With(j, DropFirst(s.queues, v).Of(j) + [item.(peerId := p)])
            && s'.peers == s.peers[p := QuotaOf(s, p).Charge(j, 1)])
      && (ok && s.limits.maxTotal > 0 ==> s'.queues.Total() <= s.limits.maxTotal)
  {
    hide PeerOk, Settle, PeerName;
    var settled := Settle(s.limits, QuotaOf(s, PeerName(peer)), k);
    if settled == Some(Critical) && s.limits.maxTotal > 0 && s.queues.Total() >= s.limits.maxTotal {
      EvictOne(s.limits, s.queues);
    }
  }

  /** An item of class `k` may be demoted to class `j`. */
  predicate AtOrBelow(j: Class, k: Class) {
    k == Critical || j == k || j == Background
  }

  predicate HasRoom(limits: Limits, q: Quota, j: Class) {
    q.Of(j) < limits.Of(j) && q.total < limits.maxPerPeer
  }

  /** Of the classes an item of class `k` may land in, `j` is the highest one with room. */
  ghost predicate Lands(limits: Limits, q: Quota, k: Class, j: Class) {
    && AtOrBelow(j, k) && HasRoom(limits, q, j)
    && forall i: Class | AtOrBelow(i, k) && AtOrBelow(j, i) && i != j :: !HasRoom(limits, q, i)
  }

  lemma SettlesHighest(limits: Limits, q: Quota, k: Class, j: Class)
    ensures Settle(limits, q, k) == Some(j) <==> Lands(limits, q, k, j)
  {
    assert Settle(limits, q, Background) == if HasRoom(limits, q, Background) then Some(Background) else None;
    assert Settle(limits, q, Normal) == if HasRoom(limits, q, Normal) then Some(Normal) else
                                        Settle(limits, q, Background);
  }

  /**
   * A call accepts its item if and only if a class at or below the asked one has room and the scheduler is not full, or
   * the item is critical there and something less urgent can be evicted. The item goes to the end of the highest such
   * class and is charged to its peer there.
   */
  lemma EnqueueAcceptsExactly(s: Sched, peer: string, k: Class, item: SchedItem, j: Class)
    requires Inv(s)
    ensures var (s', ok) := Enqueue(s, peer, k, item);
      var p, q := PeerName(peer), QuotaOf(s, PeerName(peer));
      && (Lands(s.limits, q, k, j) ==>
            && (ok <==> s.limits.maxTotal <= 0 || s.queues.Total() < s.limits.maxTotal
                        || (j == Critical && (s.queues.n != [] || s.queues.b != [])))
            && (ok ==> s'.queues.Of(j) != [] && s'.queues.Of(j)[|s'.queues.Of(j)| - 1] == item.(peerId := p)
                       && QuotaOf(s', p) == q.Charge(j, 1)))
      && (ok ==> exists i: Class :: Lands(s.limits, q, k, i))
  {
    hide PeerOk, Settle, PeerName, Enqueue, Lands;
    var p, q := PeerName(peer), QuotaOf(s, PeerName(peer));
    forall i: Class ensures Settle(s.limits, q, k) == Some(i) <==> Lands(s.limits, q, k, i) {
      SettlesHighest(s.limits, q, k, i);
    }
    EnqueueEffect(s, peer, k, item);
    if Settle(s.limits, q, k) == Some(j) {
      RoomDecides(s, peer, k, item, j);
    }
  }

  lemma RoomDecides(s: Sched, peer: string, k: Class, item: SchedItem, j: Class)
    requires Inv(s) && Settle(s.limits, QuotaOf(s, PeerName(peer)), k) == Some(j)
    ensures Enqueue(s, peer, k, item).1 <==>
      s.limits.maxTotal <= 0 || s.queues.Total() < s.limits.maxTotal
      || (j == Critical && (s.queues.n != [] || s.queues.b != []))
  {
    hide PeerOk, Settle, PeerName;
    if s.limits.maxTotal > 0 && s.queues.Total() >= s.limits.maxTotal {
      EvictOne(s.limits, s.queues);
    }
  }

  /** Items go by the trimmed name of their peer; nameless peers share one. */
  lemma PeersGoByName(a: string, b: string)
    ensures PeerName(a) == PeerName(b) <==>
      TrimSpace(a) == TrimSpace(b) || (TrimSpace(a) in {"", "unknown"} && TrimSpace(b) in {"", "unknown"})
  {
    hide TrimSpace;
  }

  lemma EvictOne(limits: Limits, q: Queues)
    requires limits.maxTotal > 0 && q.Total() == limits.maxTotal
    ensures q.b == [] && q.n == [] ==> Evict(limits, q) == None && Drained(limits, q) == q
    ensures q.b != [] ==> Evict(limits, q) == Some(q.With(Background, q.b[1..]))
    ensures q.b == [] && q.n != [] ==> Evict(limits, q) == Some(q.With(Normal, q.n[1..]))
  {
  }

  lemma CountDrop(q: seq<SchedItem>, peer: string)
    requires q != []
    ensures Count(q[1..], peer) == Count(q, peer) - if q[0].peerId == peer then 1 else 0
  {
  }

  /** `s'` is `s` after evicting `v` and queueing `it` in class `j`. */
  ghost predicate Queued(s: Sched, s': Sched, v: Option<Class>, j: Class, it: SchedItem) {
    && s'.limits == s.limits
    && (v.Some? ==> s.queues.Of(v.value) != [])
    && s'.queues == DropFirst(s.queues, v).With(j, DropFirst(s.queues, v).Of(j) + [it])
    && s'.peers == s.peers[it.peerId := QuotaOf(s, it.peerId).Charge(j, 1)]
  }

  lemma QueuedKeepsPeer(s: Sched, s': Sched, v: Option<Class>, j: Class, it: SchedItem, x: string)
    requires Queued(s, s', v, j, it) && PeerOk(s, x)
    requires QuotaOf(s, it.peerId).Of(j) < s.limits.Of(j) && QuotaOf(s, it.peerId).total < s.limits.maxPerPeer
    ensures PeerOk(s', x)
  {
    hide Count, Queues.Of, Queues.With, Quota.Of, Quota.Charge, Limits.Of;
    var base := DropFirst(s.queues, v);
    var q, q' := QuotaOf(s, x), QuotaOf(s', x);
    assert q' == if x == it.peerId then q.Charge(j, 1) else q;
    CountAppend(base.Of(j), it, x);
    if v.Some? {
      CountDrop(s.queues.Of(v.value), x);
    }
    forall k: Class ensures ClassOk(s', x, k) {
      assert ClassOk(s, x, k);
      assert Count(base.Of(k), x) <= Count(s.queues.Of(k), x);
    }
  }

  lemma EnqueueKeepsInv(s: Sched, peer: string, k: Class, item: SchedItem)
    requires Inv(s)
    ensures Inv(Enqueue(s, peer, k, item).0)
  {
    hide Settle, PeerName, Enqueue, PeerOk;
    var (s', ok) := Enqueue(s, peer, k, item);
    var p, v := PeerName(peer), Victim(s, peer, k);
    EnqueueEffect(s, peer, k, item);
    SettleLands(s.limits, QuotaOf(s, p), k);
    forall x: string ensures PeerOk(s', x) {
      assert PeerOk(s, x);
      if ok {
        var j := Settle(s.limits, QuotaOf(s, p), k).value;
        QueuedKeepsPeer(s, s', v, j, item.(peerId := p), x);
      } else {
        SameQuotaOk(s, s', x);
      }
    }
  }

  lemma SameQuotaOk(s: Sched, s': Sched, x: string)
    requires PeerOk(s, x) && s'.limits == s.limits && s'.queues == s.queues && QuotaOf(s', x) == QuotaOf(s, x)
    ensures PeerOk(s', x)
  {
    forall k: Class ensures ClassOk(s', x, k) {
      assert ClassOk(s, x, k);
    }
  }

  /** Exact charges stay exact exactly when the call evicts nothing: an evicted item stays charged. */
  lemma EnqueueKeepsExact(s: Sched, peer: string, k: Class, item: SchedItem)
    requires Inv(s) && Exact(s)
    ensures Exact(Enqueue(s, peer, k, item).0) <==> Victim(s, peer, k) == None
  {
    hide Settle, PeerName, Enqueue, PeerOk, Count;
    var (s', ok) := Enqueue(s, peer, k, item);
    var p, v := PeerName(peer), Victim(s, peer, k);
    EnqueueEffect(s, peer, k, item);
    if v == None {
      forall x: string, i: Class ensures QuotaOf(s', x).Of(i) == Count(s'.queues.Of(i), x) {
        assert QuotaOf(s, x).Of(i) == Count(s.queues.Of(i), x);
        CountAppend(s.queues.Of(i), item.(peerId := p), x);
      }
    } else {
      assert ok by { VictimMeansQueued(s, peer, k, item); }
      var x := s.queues.Of(v.value)[0].peerId;
      CountDrop(s.queues.Of(v.value), x);
      assert QuotaOf(s, x).Of(v.value) == Count(s.queues.Of(v.value), x);
      assert QuotaOf(s', x).Of(v.value) != Count(s'.queues.Of(v.value), x);
    }
  }

  lemma VictimMeansQueued(s: Sched, peer: string, k: Class, item: SchedItem)
    requires Inv(s) && Victim(s, peer, k).Some?
    ensures Enqueue(s, peer, k, item).1
  {
    hide Settle, PeerName, PeerOk;
    EvictOne(s.limits, s.queues);
  }

  // ---------------------------------------------------------------- serving

  /** The class that a walk of at most `tries` positions serves. */
  function TryClass(s: Sched, tries: nat): (r: Option<Class>)
    requires s.patIdx < |s.pattern|
    ensures r.Some? ==> s.queues.Of(r.value) != []
    decreases tries
  {
    if tries == 0 then None
    else if s.queues.Of(s.pattern[s.patIdx]) == [] then TryClass(s.(patIdx := Bump(s)), tries - 1)
    else Some(s.pattern[s.patIdx])
  }

  function NextClass(s: Sched): (r: Option<Class>)
    requires s.patIdx < |s.pattern|
    ensures r.Some? ==> s.queues.Of(r.value) != []
  {
    if s.queues.Total() == 0 then None else TryClass(s, |s.pattern|)
  }

  lemma {:induction false} TryEffect(s: Sched, tries: nat)
    requires s.patIdx < |s.pattern|
    ensures var (s', r) := Try(s, tries);
      && s'.limits == s.limits && s'.pattern == s.pattern && s'.patIdx < |s'.pattern|
      && match TryClass(s, tries)
         case None => r == None && s'.queues == s.queues && s'.peers == s.peers
         case Some(k) =>
           && r == Some(s.queues.Of(k)[0])
           && s'.queues == s.queues.With(k, s.queues.Of(k)[1..])
           && s'.peers == Discharge(s.peers, s.queues.Of(k)[0].peerId, k)
    decreases tries
  {
    if tries > 0 && s.queues.Of(s.pattern[s.patIdx]) == [] {
      TryEffect(s.(patIdx := Bump(s)), tries - 1);
    }
  }

  /** A call serves the first item of one class, or changes no queue. */
  lemma NextEffect(s: Sched)
    requires s.patIdx < |s.pattern|
    ensures var (s', r) := Next(s);
      && s'.limits == s.limits && s'.pattern == s.pattern && s'.patIdx < |s'.pattern|
      && match NextClass(s)
         case None => r == None && s'.queues == s.queues && s'.peers == s.peers
         case Some(k) =>
           && r == Some(s.queues.Of(k)[0])
           && s'.queues == s.queues.With(k, s.queues.Of(k)[1..])
           && s'.peers == Discharge(s.peers, s.queues.Of(k)[0].peerId, k)
  {
    TryEffect(s, |s.pattern|);
  }

  lemma DischargeQuota(s: Sched, peer: string, k: Class, x: string)
    requires peer in s.peers && s.peers[peer].total == s.peers[peer].c + s.peers[peer].n + s.peers[peer].b
    requires s.peers[peer].c >= 0 && s.peers[peer].n >= 0 && s.peers[peer].b >= 0
    requires s.peers[peer].Of(k) >= 1
    ensures var s' := s.(peers := Discharge(s.peers, peer, k));
      QuotaOf(s', x) == if x == peer then QuotaOf(s, x).Charge(k, -1) else QuotaOf(s, x)
  {
  }

  /** `s'` is `s` after serving the first item of class `k`. */
  ghost predicate Served1(s: Sched, s': Sched, k: Class) {
    && s'.limits == s.limits && s.queues.Of(k) != []
    && s'.queues == s.queues.With(k, s.queues.Of(k)[1..])
    && s'.peers == Discharge(s.peers, s.queues.Of(k)[0].peerId, k)
  }

  lemma ServedQuota(s: Sched, s': Sched, k: Class, x: string)
    requires Served1(s, s', k) && PeerOk(s, s.queues.Of(k)[0].peerId)
    ensures QuotaOf(s', x) ==
      if x == s.queues.Of(k)[0].peerId then QuotaOf(s, x).Charge(k, -1) else QuotaOf(s, x)
  {
    hide Count, Discharge, Queues.With, Quota.Charge;
    var peer := s.queues.Of(k)[0].peerId;
    CountDrop(s.queues.Of(k), peer);
    assert ClassOk(s, peer, k) && ClassOk(s, peer, Critical) && ClassOk(s, peer, Normal)
        && ClassOk(s, peer, Background);
    DischargeQuota(s, peer, k, x);
  }

  lemma ServedKeepsPeer(s: Sched, s': Sched, k: Class, x: string)
    requires Served1(s, s', k) && PeerOk(s, s.queues.Of(k)[0].peerId) && PeerOk(s, x)
    ensures PeerOk(s', x)
  {
    hide Count, Discharge, Queues.Of, Queues.With, Quota.Of, Quota.Charge, Limits.Of;
    ServedQuota(s, s', k, x);
    CountDrop(s.queues.Of(k), x);
    forall j: Class ensures ClassOk(s', x, j) {
      assert ClassOk(s, x, j);
    }
  }

  lemma ServedKeepsExact(s: Sched, s': Sched, k: Class)
    requires Served1(s, s', k) && PeerOk(s, s.queues.Of(k)[0].peerId) && Exact(s)
    ensures Exact(s')
  {
    hide Count, Discharge, Queues.Of, Queues.With, Quota.Of, Quota.Charge, PeerOk;
    forall x: string, j: Class ensures QuotaOf(s', x).Of(j) == Count(s'.queues.Of(j), x) {
      ServedQuota(s, s', k, x);
      CountDrop(s.queues.Of(k), x);
      assert QuotaOf(s, x).Of(j) == Count(s.queues.Of(j), x);
    }
  }

  lemma NextKeepsInv(s: Sched)
    requires Inv(s)
    ensures Inv(Next(s).0)
    ensures Exact(s) ==> Exact(Next(s).0)
  {
    hide Next, NextClass, Discharge, PeerOk;
    var s' := Next(s).0;
    NextEffect(s);
    match NextClass(s)
    case None =>
      forall x: string ensures PeerOk(s', x) && QuotaOf(s', x) == QuotaOf(s, x) {
        assert PeerOk(s, x);
        SameQuotaOk(s, s', x);
      }
    case Some(k) =>
      assert PeerOk(s, s.queues.Of(k)[0].peerId);
      forall x: string ensures PeerOk(s', x) {
        assert PeerOk(s, x);
        ServedKeepsPeer(s, s', k, x);
      }
      if Exact(s) {
        ServedKeepsExact(s, s', k);
      }
  }

  /** The distance from the current position to position `i` of the pattern. */
  function Distance(s: Sched, i: nat): (r: nat)
    requires s.patIdx < |s.pattern| && i < |s.pattern|
  {
    if s.patIdx <= i then i - s.patIdx else i + |s.pattern| - s.patIdx
  }

  lemma {:induction false} TryReaches(s: Sched, tries: nat, i: nat)
    requires s.patIdx < |s.pattern| && i < |s.pattern| && Distance(s, i) < tries
    requires s.queues.Of(s.pattern[i]) != []
    ensures TryClass(s, tries).Some?
    decreases tries
  {
    if s.queues.Of(s.pattern[s.patIdx]) == [] {
      TryReaches(s.(patIdx := Bump(s)), tries - 1, i);
    }
  }

  lemma {:induction false} TryFinds(s: Sched, tries: nat)
    requires s.patIdx < |s.pattern|
    ensures TryClass(s, tries).Some? ==> TryClass(s, tries).value in s.pattern
    decreases tries
  {
    if tries > 0 && s.queues.Of(s.pattern[s.patIdx]) == [] {
      TryFinds(s.(patIdx := Bump(s)), tries - 1);
    }
  }

  /**
   * A call comes back empty-handed exactly when every class of the pattern is empty; with all weights
   * at least one that means when nothing is queued.
   */
  lemma NextFailsExactly(s: Sched)
    requires s.patIdx < |s.pattern|
    ensures Next(s).1 == None <==> forall k | k in s.pattern :: s.queues.Of(k) == []
    ensures Critical in s.pattern && Normal in s.pattern && Background in s.pattern ==>
      (Next(s).1 == None <==> s.queues.Total() == 0)
  {
    NextEffect(s);
    TryFinds(s, |s.pattern|);
    if k :| k in s.pattern && s.queues.Of(k) != [] {
      var i :| 0 <= i < |s.pattern| && s.pattern[i] == k;
      TryReaches(s, |s.pattern|, i);
      assert s.queues.Total() > 0;
    }
    assert s.queues.Of(Critical) == s.queues.c && s.queues.Of(Normal) == s.queues.n
        && s.queues.Of(Background) == s.queues.b;
  }

  // ---------------------------------------------------------------- runs

  datatype Op = Enq(peer: string, cls: Class, item: SchedItem) | Serve

  function Do(s: Sched, op: Op): (r: Sched)
    requires s.patIdx < |s.pattern|
    ensures r.patIdx < |r.pattern| && r.pattern == s.pattern && r.limits == s.limits
  {
    match op
    case Enq(peer, cls, item) => Enqueue(s, peer, cls, item).0
    case Serve =>
      NextEffect(s);
      Next(s).0
  }

  function Exec(s: Sched, ops: seq<Op>): (r: Sched)
    requires s.patIdx < |s.pattern|
    ensures r.patIdx < |r.pattern| && r.pattern == s.pattern && r.limits == s.limits
  {
    if ops == [] then s else Do(Exec(s, ops[..|ops| - 1]), ops[|ops| - 1])
  }

  /** In every run the total bound, the peer caps and the charge bounds hold. */
  lemma {:induction false} RunKeepsInv(s: Sched, ops: seq<Op>)
    requires Inv(s)
    ensures Inv(Exec(s, ops))
  {
    hide PeerOk, Enqueue, Next;
    if ops != [] {
      var init, last := ops[..|ops| - 1], ops[|ops| - 1];
      RunKeepsInv(s, init);
      var t := Exec(s, init);
      match last
      case Enq(peer, cls, item) => EnqueueKeepsInv(t, peer, cls, item);
      case Serve => NextKeepsInv(t);
    }
  }

  ghost predicate NoEviction(s: Sched, ops: seq<Op>)
    requires s.patIdx < |s.pattern|
  {
    forall i | 0 <= i < |ops| && ops[i].Enq? :: Victim(Exec(s, ops[..i]), ops[i].peer, ops[i].cls) == None
  }

  /** In an eviction-free run the charges are exactly the queued items. */
  lemma {:induction false} RunKeepsExact(s: Sched, ops: seq<Op>)
    requires Inv(s) && Exact(s) && NoEviction(s, ops)
    ensures Exact(Exec(s, ops))
  {
    hide PeerOk, Enqueue, Next, Exact, Victim;
    if ops != [] {
      var init, last := ops[..|ops| - 1], ops[|ops| - 1];
      assert ops[..|init|] == init;
      forall i | 0 <= i < |init| && init[i].Enq?
        ensures Victim(Exec(s, init[..i]), init[i].peer, init[i].cls) == None
      {
        assert init[..i] == ops[..i] && init[i] == ops[i];
      }
      RunKeepsExact(s, init);
      RunKeepsInv(s, init);
      var t := Exec(s, init);
      match last
      case Enq(peer, cls, item) => EnqueueKeepsExact(t, peer, cls, item);
      case Serve => NextKeepsInv(t);
    }
  }

  // ---------------------------------------------------------------- FIFO order

  /** What an operation appends to, serves from and evicts from class `k`. */
  function PushedBy(s: Sched, op: Op, k: Class): (r: seq<SchedItem>) {
    if op.Enq? && Enqueue(s, op.peer, op.cls, op.item).1
       && Settle(s.limits, QuotaOf(s, PeerName(op.peer)), op.cls) == Some(k)
    then [op.item.(peerId := PeerName(op.peer))] else []
  }

  function ServedBy(s: Sched, op: Op, k: Class): (r: seq<SchedItem>)
    requires s.patIdx < |s.pattern|
  {
    if op.Serve? && NextClass(s) == Some(k) then [s.queues.Of(k)[0]] else []
  }

  function EvictedBy(s: Sched, op: Op, k: Class): (r: seq<SchedItem>) {
    if op.Enq? && Enqueue(s, op.peer, op.cls, op.item).1 && Victim(s, op.peer, op.cls) == Some(k)
        && s.queues.Of(k) != []
    then [s.queues.Of(k)[0]] else []
  }

  lemma EnqueueFifo(s: Sched, op: Op, k: Class)
    requires Inv(s) && op.Enq?
    ensures s.queues.Of(k) + PushedBy(s, op, k) == EvictedBy(s, op, k) + Do(s, op).queues.Of(k)
    ensures EvictedBy(s, op, Critical) == []
  {
    hide Enqueue, Settle, PeerOk, PeerName, Queues.Of, Queues.With, Quota.Charge, Quota.Of;
    EnqueueEffect(s, op.peer, op.cls, op.item);
  }

  lemma ServeFifo(s: Sched, k: Class)
    requires Inv(s)
    ensures s.queues.Of(k) == ServedBy(s, Serve, k) + Do(s, Serve).queues.Of(k)
  {
    hide Next, PeerOk, NextClass, Discharge, Queues.Of, Queues.With;
    NextEffect(s);
  }

  /** Each operation removes from the front of a class and adds at its back. */
  lemma OneStepFifo(s: Sched, op: Op, k: Class)
    requires Inv(s)
    ensures s.queues.Of(k) + PushedBy(s, op, k) == ServedBy(s, op, k) + EvictedBy(s, op, k) + Do(s, op).queues.Of(k)
    ensures EvictedBy(s, op, Critical) == []
  {
    hide Enqueue, PeerOk, Settle, NextClass, Victim, Do, Queues.Of;
    if op.Enq? {
      EnqueueFifo(s, op, k);
      assert ServedBy(s, op, k) + EvictedBy(s, op, k) == EvictedBy(s, op, k);
    } else {
      ServeFifo(s, k);
      assert s.queues.Of(k) + PushedBy(s, op, k) == s.queues.Of(k);
      assert ServedBy(s, op, k) + EvictedBy(s, op, k) == ServedBy(s, op, k);
    }
  }

  function Pushed(s: Sched, ops: seq<Op>, k: Class): (r: seq<SchedItem>)
    requires s.patIdx < |s.pattern|
  {
    if ops == [] then []
    else Pushed(s, ops[..|ops| - 1], k) + PushedBy(Exec(s, ops[..|ops| - 1]), ops[|ops| - 1], k)
  }

  function Served(s: Sched, ops: seq<Op>, k: Class): (r: seq<SchedItem>)
    requires s.patIdx < |s.pattern|
  {
    if ops == [] then []
    else Served(s, ops[..|ops| - 1], k) + ServedBy(Exec(s, ops[..|ops| - 1]), ops[|ops| - 1], k)
  }

  /** Items that left class `k`, served or evicted, in order. */
  function Gone(s: Sched, ops: seq<Op>, k: Class): (r: seq<SchedItem>)
    requires s.patIdx < |s.pattern|
  {
    if ops == [] then []
    else
      var t, op := Exec(s, ops[..|ops| - 1]), ops[|ops| - 1];
      Gone(s, ops[..|ops| - 1], k) + (ServedBy(t, op, k) + EvictedBy(t, op, k))
  }

  /**
   * In every run the items of a class leave in the order in which they were queued, nothing is lost or
   * invented, and critical items leave only by being served.
   */
  lemma {:induction false} RunIsFifo(s: Sched, ops: seq<Op>, k: Class)
    requires Inv(s)
    ensures s.queues.Of(k) + Pushed(s, ops, k) == Gone(s, ops, k) + Exec(s, ops).queues.Of(k)
    ensures Gone(s, ops, Critical) == Served(s, ops, Critical)
  {
    hide PeerOk, PushedBy, ServedBy, EvictedBy, Do, Queues.Of;
    if ops != [] {
      var init, op := ops[..|ops| - 1], ops[|ops| - 1];
      var t := Exec(s, init);
      RunIsFifo(s, init, k);
      RunKeepsInv(s, init);
      OneStepFifo(t, op, k); OneStepFifo(t, op, Critical);
      var out := ServedBy(t, op, k) + EvictedBy(t, op, k);
      calc {
        s.queues.Of(k) + Pushed(s, ops, k);
        (s.queues.Of(k) + Pushed(s, init, k)) + PushedBy(t, op, k);
        (Gone(s, init, k) + t.queues.Of(k)) + PushedBy(t, op, k);
        Gone(s, init, k) + (t.queues.Of(k) + PushedBy(t, op, k));
        Gone(s, init, k) + (out + Do(t, op).queues.Of(k));
        Gone(s, ops, k) + Exec(s, ops).queues.Of(k);
      }
      assert ServedBy(t, op, Critical) + [] == ServedBy(t, op, Critical);
    }
  }

  // ---------------------------------------------------------------- weighted fairness

  /** The number of positions a call inspects. */
  function Depth(s: Sched, tries: nat): (r: nat)
    requires s.patIdx < |s.pattern|
    ensures tries > 0 ==> r >= 1
    decreases tries
  {
    if tries == 0 then 0
    else if s.queues.Of(s.pattern[s.patIdx]) == [] then 1 + Depth(s.(patIdx := Bump(s)), tries - 1)
    else 1
  }

  /** The index `d` positions further along the cyclic pattern. */
  function Along(p: seq<Class>, i: nat, d: nat): (r: nat)
    requires i < |p|
    ensures r < |p|
    decreases d
  {
    if d == 0 then i else Along(p, if i + 1 >= |p| then 0 else i + 1, d - 1)
  }

  /** Occurrences of `k` among `d` positions of the cyclic pattern from `i` on. */
  function Seen(p: seq<Class>, i: nat, d: nat, k: Class): (r: nat)
    requires i < |p|
    decreases d
  {
    if d == 0 then 0
    else (if p[i] == k then 1 else 0) + Seen(p, if i + 1 >= |p| then 0 else i + 1, d - 1, k)
  }

  function Weight(p: seq<Class>, k: Class): (r: nat) {
    if p == [] then 0 else (if p[0] == k then 1 else 0) + Weight(p[1..], k)
  }

  lemma {:induction false} SeenSplit(p: seq<Class>, i: nat, d: nat, e: nat, k: Class)
    requires i < |p|
    ensures Seen(p, i, d + e, k) == Seen(p, i, d, k) + Seen(p, Along(p, i, d), e, k)
    ensures Along(p, i, d + e) == Along(p, Along(p, i, d), e)
    decreases d
  {
    if d > 0 {
      SeenSplit(p, if i + 1 >= |p| then 0 else i + 1, d - 1, e, k);
    }
  }

  lemma {:induction false} SeenToEnd(p: seq<Class>, i: nat, k: Class)
    requires i < |p|
    ensures Seen(p, i, |p| - i, k) == Weight(p[i..], k)
    ensures Along(p, i, |p| - i) == 0
    decreases |p| - i
  {
    assert p[i..][1..] == p[i + 1..];
    if i + 1 < |p| {
      SeenToEnd(p, i + 1, k);
    }
  }

  lemma {:induction false} SeenFromStart(p: seq<Class>, i: nat, k: Class)
    requires i < |p|
    ensures Along(p, 0, i) == i
    ensures Seen(p, 0, i, k) + Weight(p[i..], k) == Weight(p, k)
  {
    if i == 0 {
      assert p[0..] == p;
    } else {
      SeenFromStart(p, i - 1, k);
      SeenSplit(p, 0, i - 1, 1, k);
      assert p[i - 1..][1..] == p[i..];
    }
  }

  /** A full turn of the pattern sees each class as often as its weight, wherever it starts. */
  lemma FullTurn(p: seq<Class>, i: nat, k: Class)
    requires i < |p|
    ensures Seen(p, i, |p|, k) == Weight(p, k)
  {
    SeenSplit(p, i, |p| - i, i, k);
    SeenToEnd(p, i, k);
    SeenFromStart(p, i, k);
  }

  /** While class `k` is nonempty, a call serves it exactly when the walk stops at it. */
  lemma {:induction false} WalkServes(s: Sched, tries: nat, k: Class)
    requires s.patIdx < |s.pattern| && s.queues.Of(k) != []
    ensures Seen(s.pattern, s.patIdx, Depth(s, tries), k) == if TryClass(s, tries) == Some(k) then 1 else 0
    ensures Try(s, tries).0.patIdx == Along(s.pattern, s.patIdx, Depth(s, tries))
    decreases tries
  {
    if tries > 0 {
      var t := s.(patIdx := Bump(s));
      if s.queues.Of(s.pattern[s.patIdx]) == [] {
        WalkServes(t, tries - 1, k);
      } else {
        assert Seen(s.pattern, s.patIdx, 1, k) == if s.pattern[s.patIdx] == k then 1 else 0;
        assert Along(s.pattern, s.patIdx, 1) == Bump(s);
      }
    }
  }

  function Serves(ops: seq<Op>): (r: nat) {
    if ops == [] then 0 else Serves(ops[..|ops| - 1]) + if ops[|ops| - 1].Serve? then 1 else 0
  }

  /** Positions inspected along a run. */
  function Walked(s: Sched, ops: seq<Op>): (r: nat)
    requires s.patIdx < |s.pattern|
  {
    if ops == [] then 0
    else
      var t := Exec(s, ops[..|ops| - 1]);
      Walked(s, ops[..|ops| - 1]) + if ops[|ops| - 1].Serve? then Depth(t, |t.pattern|) else 0
  }

  ghost predicate NeverEmpty(s: Sched, ops: seq<Op>, k: Class)
    requires s.patIdx < |s.pattern|
  {
    forall i | 0 <= i <= |ops| :: Exec(s, ops[..i]).queues.Of(k) != []
  }

  lemma {:induction false} WalkedServes(s: Sched, ops: seq<Op>, k: Class)
    requires s.patIdx < |s.pattern| && NeverEmpty(s, ops, k)
    ensures |Served(s, ops, k)| == Seen(s.pattern, s.patIdx, Walked(s, ops), k)
    ensures Exec(s, ops).patIdx == Along(s.pattern, s.patIdx, Walked(s, ops))
    ensures Walked(s, ops) >= Serves(ops)
  {
    hide Try, TryClass, Seen, Along, Depth, Queues.Of, Enqueue, Next, NextClass;
    if ops == [] {
      SeenSplit(s.pattern, s.patIdx, 0, 0, k);
      AlongNothing(s.pattern, s.patIdx);
    } else {
      var init, op := ops[..|ops| - 1], ops[|ops| - 1];
      var t := Exec(s, init);
      forall i | 0 <= i <= |init| ensures Exec(s, init[..i]).queues.Of(k) != [] {
        assert init[..i] == ops[..i];
      }
      WalkedServes(s, init, k);
      assert ops[..|init|] == init && t.queues.Of(k) != [];
      match op
      case Enq(peer, cls, item) =>
        EnqueueKeepsPosition(t, peer, cls, item);
      case Serve =>
        NextWalks(t, k);
        SeenSplit(s.pattern, s.patIdx, Walked(s, init), Depth(t, |t.pattern|), k);
    }
  }

  lemma EnqueueKeepsPosition(s: Sched, peer: string, cls: Class, item: SchedItem)
    ensures Enqueue(s, peer, cls, item).0.patIdx == s.patIdx
  {
  }

  /** While class `k` is nonempty, a call walks at least one position and serves `k` as often as it sees it. */
  lemma NextWalks(s: Sched, k: Class)
    requires s.patIdx < |s.pattern| && s.queues.Of(k) != []
    ensures |ServedBy(s, Serve, k)| == Seen(s.pattern, s.patIdx, Depth(s, |s.pattern|), k)
    ensures Next(s).0.patIdx == Along(s.pattern, s.patIdx, Depth(s, |s.pattern|))
    ensures Depth(s, |s.pattern|) >= 1
  {
    hide Try, TryClass, Seen, Along;
    NonemptyTotal(s.queues, k);
    WalkServes(s, |s.pattern|, k);
  }

  lemma AlongNothing(p: seq<Class>, i: nat)
    requires i < |p|
    ensures Along(p, i, 0) == i
  {
  }

  lemma NonemptyTotal(q: Queues, k: Class)
    requires q.Of(k) != []
    ensures q.Total() > 0
  {
  }

  /**
   * Any run with at least as many Next calls as the pattern is long, whatever is queued or evicted in
   * between, serves class `k` at least its weight many times, or finds it empty at some point.
   */
  lemma WeightedFairness(s: Sched, ops: seq<Op>, k: Class)
    requires s.patIdx < |s.pattern| && Serves(ops) >= |s.pattern|
    ensures |Served(s, ops, k)| >= Weight(s.pattern, k) || exists i | 0 <= i <= |ops| ::
        Exec(s, ops[..i]).queues.Of(k) == []
  {
    hide Seen, Along, Weight, Served, Exec, Walked, Queues.Of, Serves;
    if NeverEmpty(s, ops, k) {
      WalkedServes(s, ops, k);
      SeenSplit(s.pattern, s.patIdx, |s.pattern|, Walked(s, ops) - |s.pattern|, k);
      FullTurn(s.pattern, s.patIdx, k);
    }
  }

  lemma {:induction false} WeightOfConcat(a: seq<Class>, b: seq<Class>, k: Class)
    ensures Weight(a + b, k) == Weight(a, k) + Weight(b, k)
  {
    if a == [] {
      assert a + b == b;
    } else {
      WeightOfConcat(a[1..], b, k);
      assert (a + b)[1..] == a[1..] + b;
    }
  }

  lemma {:induction false} WeightOfRepeat(j: Class, times: int, k: Class)
    ensures Weight(Repeat(j, times), k) == if j == k then AtLeastZero(times) else 0
    decreases times
  {
    if times > 0 {
      WeightOfRepeat(j, times - 1, k);
      WeightOfConcat(Repeat(j, times - 1), [j], k);
    }
  }

  /** In the pattern built from positive weights each class has exactly its weight. */
  lemma PatternWeights(wC: int, wN: int, wB: int)
    requires wC >= 1 && wN >= 1 && wB >= 1
    ensures var p := Pattern(wC, wN, wB);
      && |p| == wC + wN + wB
      && Weight(p, Critical) == wC && Weight(p, Normal) == wN && Weight(p, Background) == wB
      && Critical in p && Normal in p && Background in p
  {
    var p := Pattern(wC, wN, wB);
    assert p[0] == Critical && p[wC] == Normal && p[wC + wN] == Background;
    forall k: Class
      ensures Weight(p, k) == (if k == Critical then wC else 0) + (if k == Normal then wN else 0)
          + (if k == Background then wB else 0)
    {
      WeightOfConcat(Repeat(Critical, wC) + Repeat(Normal, wN), Repeat(Background, wB), k);
      WeightOfConcat(Repeat(Critical, wC), Repeat(Normal, wN), k);
      WeightOfRepeat(Critical, wC, k); WeightOfRepeat(Normal, wN, k); WeightOfRepeat(Background, wB, k);
    }
  }
}
